/** Matching a certificate principal against a pattern with `*` and `?`, by a two-row dynamic program. */
module Glob {
  import opened Bytes

  const STAR: Byte := 42
  const QUESTION: Byte := 63
  const NAME_LIMIT: nat := 253

  function AsciiLower(b: Byte): Byte {
    if 65 <= b <= 90 then b + 32 else b
  }

  /** The runs of bytes one token stands for. */
  predicate TokenMatches(token: Byte, run: seq<Byte>) {
    if token == STAR then true
    else |run| == 1 && (token == QUESTION || AsciiLower(token) == AsciiLower(run[0]))
  }

  function Concat(parts: seq<seq<Byte>>): seq<Byte> {
    if parts == [] then [] else Concat(parts[..|parts| - 1]) + parts[|parts| - 1]
  }

  /** `value` cut into one run per token, each of the kind its token stands for. */
  ghost predicate Cut(pattern: seq<Byte>, value: seq<Byte>, parts: seq<seq<Byte>>) {
    && |parts| == |pattern| && Concat(parts) == value
    && forall i | 0 <= i < |pattern| :: TokenMatches(pattern[i], parts[i])
  }

  ghost predicate Matches(pattern: seq<Byte>, value: seq<Byte>) {
    exists parts :: Cut(pattern, value, parts)
  }

  // ----- the recurrences of the table -----

  lemma EmptyPattern(value: seq<Byte>)
    ensures Matches([], value) <==> value == []
  {
    if value == [] { assert Cut([], value, []); }
  }

  lemma CutEnd(pattern: seq<Byte>, token: Byte, value: seq<Byte>, run: seq<Byte>)
    requires Matches(pattern, value) && TokenMatches(token, run)
    ensures Matches(pattern + [token], value + run)
  {
    var parts :| Cut(pattern, value, parts);
    assert (parts + [run])[..|parts|] == parts;
    assert Cut(pattern + [token], value + run, parts + [run]);
  }

  lemma UncutEnd(pattern: seq<Byte>, token: Byte, value: seq<Byte>) returns (n: nat)
    requires Matches(pattern + [token], value)
    ensures n <= |value| && Matches(pattern, value[..n]) && TokenMatches(token, value[n..])
  {
    var parts :| Cut(pattern + [token], value, parts);
    var head := parts[..|pattern|];
    assert parts == head + [parts[|pattern|]];
    n := |Concat(head)|;
    assert value == Concat(head) + parts[|pattern|];
    assert value[..n] == Concat(head) && value[n..] == parts[|pattern|];
    assert Cut(pattern, value[..n], head) by {
      forall i | 0 <= i < |pattern| ensures TokenMatches(pattern[i], head[i]) {
        assert (pattern + [token])[i] == pattern[i] && parts[i] == head[i];
      }
    }
    assert (pattern + [token])[|pattern|] == token;
  }

  lemma StarRow(pattern: seq<Byte>, value: seq<Byte>)
    ensures Matches(pattern + [STAR], value)
      <==> Matches(pattern, value) || (value != [] && Matches(pattern + [STAR], value[..|value| - 1]))
  {
    if Matches(pattern, value) {
      CutEnd(pattern, STAR, value, []);
      assert value + [] == value;
    }
    if value != [] && Matches(pattern + [STAR], value[..|value| - 1]) {
      var shorter := value[..|value| - 1];
      var n := UncutEnd(pattern, STAR, shorter);
      CutEnd(pattern, STAR, shorter[..n], value[n..]);
      assert shorter[..n] + value[n..] == value;
    }
    if Matches(pattern + [STAR], value) {
      var n := UncutEnd(pattern, STAR, value);
      if n == |value| {
        assert value[..n] == value;
      } else {
        var shorter := value[..|value| - 1];
        CutEnd(pattern, STAR, value[..n], shorter[n..]);
        assert value[..n] + shorter[n..] == shorter;
      }
    }
  }

  lemma OneByteRow(pattern: seq<Byte>, token: Byte, value: seq<Byte>)
    requires token != STAR
    ensures Matches(pattern + [token], value)
      <==> value != [] && Matches(pattern, value[..|value| - 1]) && TokenMatches(token, [value[|value| - 1]])
  {
    if Matches(pattern + [token], value) {
      var n := UncutEnd(pattern, token, value);
      assert n == |value| - 1;
      assert value[n..] == [value[n]];
    }
    if value != [] && Matches(pattern, value[..|value| - 1]) && TokenMatches(token, [value[|value| - 1]]) {
      CutEnd(pattern, token, value[..|value| - 1], [value[|value| - 1]]);
      assert value[..|value| - 1] + [value[|value| - 1]] == value;
    }
  }

  // ----- the program -----

  /** The first `n` cells tell which prefixes of the value the pattern prefix matches. */
  ghost predicate Row(cells: seq<bool>, n: nat, pattern: seq<Byte>, value: seq<Byte>) {
    n <= |cells| == |value| + 1 && forall j | 0 <= j < n :: cells[j] == Matches(pattern, value[..j])
  }

  /** Fills `current` for the pattern prefix ending in `token` from `previous`, the row of the prefix before it. */
  method FillRow(previous: array<bool>, current: array<bool>, ghost before: seq<Byte>, token: Byte, value: seq<Byte>)
    requires previous != current && previous.Length == current.Length == |value| + 1
    requires Row(previous[..], |value| + 1, before, value)
    modifies current
    ensures Row(current[..], |value| + 1, before + [token], value)
  {
    forall j | 0 <= j < current.Length { current[j] := false; }
    if token == STAR {
      current[0] := previous[0];
      StarRow(before, value[..0]);
      var j := 1;
      while j <= |value|
        invariant 1 <= j <= |value| + 1
        invariant Row(current[..], j, before + [token], value)
      {
        StarRow(before, value[..j]);
        assert value[..j][..j - 1] == value[..j - 1];
        current[j] := previous[j] || current[j - 1];
        j := j + 1;
      }
    } else {
      OneByteRow(before, token, value[..0]);
      var j := 1;
      while j <= |value|
        invariant 1 <= j <= |value| + 1
        invariant Row(current[..], j, before + [token], value)
      {
        OneByteRow(before, token, value[..j]);
        assert value[..j][..j - 1] == value[..j - 1];
        current[j] := previous[j - 1] && (token == QUESTION || AsciiLower(token) == AsciiLower(value[j - 1]));
        j := j + 1;
      }
    }
  }

  method PrincipalMatches(pattern: seq<Byte>, value: seq<Byte>) returns (matched: bool)
    ensures matched <==> |pattern| <= NAME_LIMIT && |value| <= NAME_LIMIT && Matches(pattern, value)
  {
    if |pattern| > NAME_LIMIT || |value| > NAME_LIMIT { return false; }
    var previous := new bool[|value| + 1](_ => false);
    var current := new bool[|value| + 1](_ => false);
    previous[0] := true;
    forall j | 0 <= j <= |value| ensures Matches([], value[..j]) <==> j == 0 { EmptyPattern(value[..j]); }
    assert pattern[..0] == [];
    var i := 0;
    while i < |pattern|
      invariant 0 <= i <= |pattern|
      invariant previous != current && previous.Length == current.Length == |value| + 1
      invariant fresh(previous) && fresh(current)
      invariant Row(previous[..], |value| + 1, pattern[..i], value)
    {
      FillRow(previous, current, pattern[..i], pattern[i], value);
      assert pattern[..i] + [pattern[i]] == pattern[..i + 1];
      previous, current := current, previous;
      i := i + 1;
    }
    assert pattern[..|pattern|] == pattern && value[..|value|] == value;
    matched := previous[|value|];
  }

  // ----- what the relation means for names -----

  /** A pattern without wildcards names exactly the values equal to it but for ASCII case. */
  lemma {:induction false} PlainPatternIsCaseInsensitiveEquality(pattern: seq<Byte>, value: seq<Byte>)
    requires STAR !in pattern && QUESTION !in pattern
    ensures Matches(pattern, value)
      <==> |value| == |pattern| && forall i | 0 <= i < |value| :: AsciiLower(pattern[i]) == AsciiLower(value[i])
  {
    if pattern == [] {
      EmptyPattern(value);
    } else {
      var head, token := pattern[..|pattern| - 1], pattern[|pattern| - 1];
      assert head + [token] == pattern;
      OneByteRow(head, token, value);
      if value != [] { PlainPatternIsCaseInsensitiveEquality(head, value[..|value| - 1]); }
    }
  }

  /** Letter case of the value never matters. */
  lemma {:induction false} CaseNeverMatters(pattern: seq<Byte>, value: seq<Byte>, other: seq<Byte>)
    requires |value| == |other| && forall i | 0 <= i < |value| :: AsciiLower(value[i]) == AsciiLower(other[i])
    ensures Matches(pattern, value) <==> Matches(pattern, other)
    decreases |pattern|, |value|
  {
    if pattern == [] {
      EmptyPattern(value);
      EmptyPattern(other);
    } else {
      var head, token := pattern[..|pattern| - 1], pattern[|pattern| - 1];
      assert head + [token] == pattern;
      if token == STAR {
        StarRow(head, value);
        StarRow(head, other);
        CaseNeverMatters(head, value, other);
        if value != [] { CaseNeverMatters(pattern, value[..|value| - 1], other[..|other| - 1]); }
      } else {
        OneByteRow(head, token, value);
        OneByteRow(head, token, other);
        if value != [] { CaseNeverMatters(head, value[..|value| - 1], other[..|other| - 1]); }
      }
    }
  }
}
