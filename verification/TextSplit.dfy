/** Cutting text at a separator, and numbers as digits. */
module TextSplit {
  import opened Wrappers

  // ----- cutting and joining -----

  /** The position of the first `c` at or after `from`, or the end of the text. */
  function Find(s: string, c: char, from: nat): (i: nat)
    requires from <= |s|
    ensures from <= i <= |s| && (forall k | from <= k < i :: s[k] != c) && (i < |s| ==> s[i] == c)
    decreases |s| - from
  {
    if from == |s| || s[from] == c then from else Find(s, c, from + 1)
  }

  lemma FindIs(s: string, c: char, from: nat, i: nat)
    requires from <= i <= |s| && (forall k | from <= k < i :: s[k] != c) && (i < |s| ==> s[i] == c)
    ensures Find(s, c, from) == i
  {
    hide Find;
  }

  function Split(s: string, c: char): (parts: seq<string>)
    ensures parts != []
    decreases |s|
  {
    var i := Find(s, c, 0);
    if i == |s| then [s] else [s[..i]] + Split(s[i + 1..], c)
  }

  function Join(parts: seq<string>, c: char): string
    requires parts != []
  {
    if |parts| == 1 then parts[0] else parts[0] + [c] + Join(parts[1..], c)
  }

  predicate Free(parts: seq<string>, c: char) {
    forall p | p in parts :: c !in p
  }

  lemma {:induction false} SplitJoins(s: string, c: char)
    ensures Join(Split(s, c), c) == s && Free(Split(s, c), c)
    decreases |s|
  {
    var i := Find(s, c, 0);
    if i < |s| {
      SplitJoins(s[i + 1..], c);
      assert Split(s, c)[1..] == Split(s[i + 1..], c);
      assert s == s[..i] + [c] + s[i + 1..];
    }
  }

  lemma {:induction false} JoinSplits(parts: seq<string>, c: char)
    requires parts != [] && Free(parts, c)
    ensures Split(Join(parts, c), c) == parts
    decreases |parts|
  {
    var s := Join(parts, c);
    assert parts[0] in parts;
    if |parts| == 1 {
      assert Find(s, c, 0) == |s|;
      assert parts == [s];
    } else {
      assert s[|parts[0]|] == c && s[..|parts[0]|] == parts[0];
      assert Find(s, c, 0) == |parts[0]|;
      assert s[|parts[0]| + 1..] == Join(parts[1..], c);
      JoinSplits(parts[1..], c);
    }
  }

  /** Cutting is the only way to write a text as parts that are free of the separator. */
  lemma SplitIsTheOnlyWay(s: string, c: char, parts: seq<string>)
    requires parts != []
    ensures Split(s, c) == parts <==> Free(parts, c) && Join(parts, c) == s
  {
    SplitJoins(s, c);
    if Free(parts, c) && Join(parts, c) == s { JoinSplits(parts, c); }
  }

  lemma FindShift(s: string, c: char, start: nat)
    requires start <= |s|
    ensures Find(s[start..], c, 0) == Find(s, c, start) - start
  {
    hide Find;
    var end, i := Find(s, c, start), Find(s[start..], c, 0);
    assert forall k | 0 <= k < |s| - start :: s[start..][k] == s[start + k];
    assert forall k | start <= k < start + i :: s[k] == s[start..][k - start];
  }

  lemma PartsAhead(s: string, c: char, start: nat)
    requires start <= |s|
    ensures var end := Find(s, c, start);
            Split(s[start..], c) == if end == |s| then [s[start..]] else [s[start..end]] + Split(s[end + 1..], c)
  {
    hide Find, Split;
    FindShift(s, c, start);
    SplitUnfolds(s[start..], c);
    var end := Find(s, c, start);
    assert s[start..][..end - start] == s[start..end];
    if end < |s| { assert s[start..][end - start + 1..] == s[end + 1..]; }
  }

  lemma SplitUnfolds(s: string, c: char)
    ensures Find(s, c, 0) == |s| ==> Split(s, c) == [s]
    ensures Find(s, c, 0) < |s| ==> Split(s, c) == [s[..Find(s, c, 0)]] + Split(s[Find(s, c, 0) + 1..], c)
  {
    hide Find;
  }

  /** Position `start` is where part number `index` of the text begins. */
  ghost predicate PartStarts(s: string, c: char, index: nat, start: nat) {
    start <= |s| && index < |Split(s, c)| && Split(s, c)[index..] == Split(s[start..], c)
  }

  lemma FirstPart(s: string, c: char)
    ensures PartStarts(s, c, 0, 0)
  {
    assert s[0..] == s;
    assert Split(s, c)[0..] == Split(s, c);
  }

  lemma NextPart(s: string, c: char, index: nat, start: nat)
    requires PartStarts(s, c, index, start)
    ensures var end := Find(s, c, start);
            && Split(s, c)[index] == s[start..end]
            && (end == |s| <==> |Split(s, c)| == index + 1)
            && (end < |s| ==> PartStarts(s, c, index + 1, end + 1))
  {
    PartsAhead(s, c, start);
    var end := Find(s, c, start);
    var parts := Split(s, c);
    assert parts[index] == parts[index..][0];
    if end < |s| {
      assert parts[index + 1..] == parts[index..][1..] == Split(s[end + 1..], c);
    }
  }

  // ----- digits -----

  function DigitValue(c: char): Option<nat> {
    if '0' <= c <= '9' then Some(c as int - '0' as int)
    else if 'a' <= c <= 'f' then Some(c as int - 'a' as int + 10)
    else if 'A' <= c <= 'F' then Some(c as int - 'A' as int + 10)
    else None
  }

  predicate IsDigit(c: char, base: nat) {
    DigitValue(c).Some? && DigitValue(c).value < base
  }

  predicate AllDigits(s: string, base: nat) {
    forall i | 0 <= i < |s| :: IsDigit(s[i], base)
  }

  function NumberOf(s: string, base: nat): nat
    requires AllDigits(s, base)
  {
    if s == [] then 0 else NumberOf(s[..|s| - 1], base) * base + DigitValue(s[|s| - 1]).value
  }

  const WORD: nat := 0x1_0000_0000

  /** An unsigned number that must fill the whole text and fit in 32 bits. */
  function FromChars(s: string, base: nat): Option<nat> {
    if s == [] || !AllDigits(s, base) || NumberOf(s, base) >= WORD then None else Some(NumberOf(s, base))
  }

  function DigitChar(n: nat): char
    requires n < 10
  {
    ('0' as int + n) as char
  }

  /** Decimal without leading zeros. */
  function Decimal(n: nat): string {
    if n < 10 then [DigitChar(n)] else Decimal(n / 10) + [DigitChar(n % 10)]
  }

  lemma {:induction false} DecimalReads(n: nat)
    ensures AllDigits(Decimal(n), 10) && NumberOf(Decimal(n), 10) == n
    ensures Decimal(n) != [] && (Decimal(n)[0] == '0' ==> Decimal(n) == "0")
  {
    if n < 10 {
      assert Decimal(n)[..0] == [];
    } else {
      DecimalReads(n / 10);
      assert Decimal(n)[..|Decimal(n)| - 1] == Decimal(n / 10);
    }
  }

  lemma {:induction false} ReadsDecimal(s: string)
    requires s != [] && AllDigits(s, 10) && (s[0] == '0' ==> s == "0")
    ensures Decimal(NumberOf(s, 10)) == s
    ensures s != "0" ==> NumberOf(s, 10) > 0
  {
    var head, last := s[..|s| - 1], s[|s| - 1];
    assert s == head + [last];
    assert NumberOf(s, 10) == NumberOf(head, 10) * 10 + DigitValue(last).value;
    if head == [] {
      assert NumberOf(head, 10) == 0;
    } else {
      ReadsDecimal(head);
    }
  }

  lemma ShortDecimal(n: nat)
    requires n < 1000
    ensures |Decimal(n)| <= 3
  {
    assert n >= 10 ==> Decimal(n) == Decimal(n / 10) + [DigitChar(n % 10)];
    assert n >= 100 ==> Decimal(n / 10) == Decimal(n / 100) + [DigitChar(n / 10 % 10)];
  }
}
