/** Base64 with padding, section 4 of RFC 4648, decoded strictly as its section 3.5 allows. */
module Base64 {
  import opened Wrappers
  import opened Bytes

  const PAD: char := '='

  function Symbol(n: nat): char
    requires n < 64
  {
    if n < 26 then ('A' as int + n) as char
    else if n < 52 then ('a' as int + n - 26) as char
    else if n < 62 then ('0' as int + n - 52) as char
    else if n == 62 then '+'
    else '/'
  }

  /** The value of a symbol, negative for any other character. */
  function SymbolValue(c: char): (n: int)
    ensures -1 <= n < 64
  {
    if 'A' <= c <= 'Z' then c as int - 'A' as int
    else if 'a' <= c <= 'z' then c as int - 'a' as int + 26
    else if '0' <= c <= '9' then c as int - '0' as int + 52
    else if c == '+' then 62
    else if c == '/' then 63
    else -1
  }

  lemma SymbolsInvert(c: char, n: nat)
    ensures n < 64 ==> SymbolValue(Symbol(n)) == n && Symbol(n) != PAD
    ensures SymbolValue(c) >= 0 ==> Symbol(SymbolValue(c)) == c && c != PAD
  {
  }

  // ----- 24 bits, as three bytes and as four groups of six -----

  function Block24(a: nat, b: nat, c: nat): nat {
    a * 0x1_0000 + b * 0x100 + c
  }

  function Block64(f: nat, s: nat, t: nat, u: nat): nat {
    f * 0x4_0000 + s * 0x1000 + t * 64 + u
  }

  function Quad(block: nat): (quad: string)
    ensures |quad| == 4
  {
    [Symbol(block / 0x4_0000 % 64), Symbol(block / 0x1000 % 64), Symbol(block / 64 % 64), Symbol(block % 64)]
  }

  function Triple(block: nat): (bytes: seq<Byte>)
    ensures |bytes| == 3
  {
    var a: Byte, b: Byte, c: Byte := block / 0x1_0000 % 256, block / 0x100 % 256, block % 256;
    [a, b, c]
  }

  lemma LastDigit(x: nat, base: nat, r: nat)
    requires base in {64, 256} && r < base
    ensures (x * base + r) / base == x && (x * base + r) % base == r
  {
  }

  lemma NestedDivision(n: nat)
    ensures n / 0x1000 == n / 64 / 64 && n / 0x4_0000 == n / 64 / 64 / 64 && n / 0x1_0000 == n / 256 / 256
  {
  }

  lemma QuadOf(f: nat, s: nat, t: nat, u: nat)
    requires f < 64 && s < 64 && t < 64 && u < 64
    ensures Quad(Block64(f, s, t, u)) == [Symbol(f), Symbol(s), Symbol(t), Symbol(u)]
  {
    hide Symbol;
    assert Block64(f, s, t, u) == ((f * 64 + s) * 64 + t) * 64 + u;
    NestedDivision(Block64(f, s, t, u));
    LastDigit((f * 64 + s) * 64 + t, 64, u);
    LastDigit(f * 64 + s, 64, t);
    LastDigit(f, 64, s);
  }

  lemma TripleOf(a: Byte, b: Byte, c: Byte)
    ensures Triple(Block24(a, b, c)) == [a, b, c]
  {
    var x: nat, y: nat, z: nat := a, b, c;
    assert Block24(x, y, z) == (x * 256 + y) * 256 + z;
    NestedDivision(Block24(x, y, z));
    LastDigit(x * 256 + y, 256, z);
    LastDigit(x, 256, y);
  }

  /** Three bytes regrouped by six bits; missing bytes leave the unused bits zero. */
  lemma Regroup(a: nat, b: nat, c: nat) returns (f: nat, s: nat, t: nat, u: nat)
    requires a < 256 && b < 256 && c < 256
    ensures f < 64 && s < 64 && t < 64 && u < 64 && Block24(a, b, c) == Block64(f, s, t, u)
    ensures c == 0 ==> u == 0 && t % 4 == 0
    ensures b == 0 && c == 0 ==> t == 0 && s % 16 == 0
  {
    var a1, a0, b1, b0, c1, c0 := a / 4, a % 4, b / 16, b % 16, c / 64, c % 64;
    assert a == a1 * 4 + a0 && b == b1 * 16 + b0 && c == c1 * 64 + c0;
    f, s, t, u := a1, a0 * 16 + b1, b0 * 4 + c1, c0;
  }

  /** Four groups regrouped by eight bits. */
  lemma Ungroup(f: nat, s: nat, t: nat, u: nat) returns (a: nat, b: nat, c: nat)
    requires f < 64 && s < 64 && t < 64 && u < 64
    ensures a < 256 && b < 256 && c < 256 && Block64(f, s, t, u) == Block24(a, b, c)
    ensures u == 0 && t % 4 == 0 ==> c == 0
    ensures u == 0 && t == 0 && s % 16 == 0 ==> b == 0
  {
    var s1, s0, t1, t0 := s / 16, s % 16, t / 4, t % 4;
    assert s == s1 * 16 + s0 && t == t1 * 4 + t0;
    a, b, c := f * 4 + s1, s0 * 16 + t1, t0 * 64 + u;
  }

  // ----- the encoding -----

  function ByteAt(bytes: seq<Byte>, i: nat): Byte {
    if i < |bytes| then bytes[i] else 0
  }

  /** The characters for the first three bytes, with padding for the missing ones. */
  function Head(bytes: seq<Byte>): (text: string)
    ensures |text| == 4
  {
    var quad := Quad(Block24(ByteAt(bytes, 0), ByteAt(bytes, 1), ByteAt(bytes, 2)));
    [quad[0], quad[1], if |bytes| > 1 then quad[2] else PAD, if |bytes| > 2 then quad[3] else PAD]
  }

  function Rest(bytes: seq<Byte>): seq<Byte> {
    if |bytes| > 3 then bytes[3..] else []
  }

  function Encode(bytes: seq<Byte>): string
    decreases |bytes|
  {
    if bytes == [] then "" else Head(bytes) + Encode(Rest(bytes))
  }

  lemma EncodeUnfolds(bytes: seq<Byte>)
    ensures Encode([]) == ""
    ensures bytes != [] ==> Encode(bytes) == Head(bytes) + Encode(Rest(bytes))
    ensures bytes != [] && |bytes| <= 3 ==> Encode(bytes) == Head(bytes)
  {
    hide Head;
  }

  lemma {:induction false} EncodeLength(bytes: seq<Byte>)
    ensures |Encode(bytes)| == (|bytes| + 2) / 3 * 4
    decreases |bytes|
  {
    hide Head;
    if bytes != [] { EncodeLength(Rest(bytes)); }
  }

  method Base64Encode(bytes: seq<Byte>) returns (encoded: string)
    ensures encoded == Encode(bytes)
  {
    hide Symbol, Block24, Head, Encode;
    encoded := "";
    var offset := 0;
    assert bytes[0..] == bytes;
    EncodeUnfolds([]);
    while offset < |bytes|
      invariant 0 <= offset
      invariant Encode(bytes) == encoded + if offset < |bytes| then Encode(bytes[offset..]) else ""
      decreases |bytes| - offset
    {
      ghost var rest := bytes[offset..];
      var first: Byte := bytes[offset];
      var second: Byte := if offset + 1 < |bytes| then bytes[offset + 1] else 0;
      var third: Byte := if offset + 2 < |bytes| then bytes[offset + 2] else 0;
      var block := Block24(first, second, third);
      var more := [Symbol(block / 0x4_0000 % 64), Symbol(block / 0x1000 % 64),
                   if offset + 1 < |bytes| then Symbol(block / 64 % 64) else PAD,
                   if offset + 2 < |bytes| then Symbol(block % 64) else PAD];
      HeadIs(rest);
      EncodeUnfolds(rest);
      assert offset + 3 < |bytes| ==> Rest(rest) == bytes[offset + 3..];
      encoded := encoded + more;
      offset := offset + 3;
    }
  }

  lemma HeadIs(bytes: seq<Byte>)
    requires bytes != []
    ensures var block := Block24(bytes[0], ByteAt(bytes, 1), ByteAt(bytes, 2));
            Head(bytes) == [Symbol(block / 0x4_0000 % 64), Symbol(block / 0x1000 % 64),
                            if |bytes| > 1 then Symbol(block / 64 % 64) else PAD,
                            if |bytes| > 2 then Symbol(block % 64) else PAD]
  {
    hide Symbol, Block24;
  }

  // ----- the strict decoder -----

  function Padding(text: string): nat {
    if |text| >= 2 && text[|text| - 1] == PAD && text[|text| - 2] == PAD then 2
    else if |text| >= 1 && text[|text| - 1] == PAD then 1
    else 0
  }

  /** Padding stands only at the end, every other character is a symbol, and unused bits are zero. */
  predicate Canonical(text: string) {
    && |text| % 4 == 0
    && (forall i | 0 <= i < |text| - Padding(text) :: SymbolValue(text[i]) >= 0)
    && (Padding(text) == 2 ==> |text| >= 3 && SymbolValue(text[|text| - 3]) % 16 == 0)
    && (Padding(text) == 1 ==> |text| >= 2 && SymbolValue(text[|text| - 2]) % 4 == 0)
  }

  /** The six bits of a character; padding has none set. */
  function SymbolBits(c: char): (n: nat)
    ensures n < 64
  {
    if SymbolValue(c) < 0 then 0 else SymbolValue(c)
  }

  function BlockOf(c0: char, c1: char, c2: char, c3: char): nat {
    Block64(SymbolBits(c0), SymbolBits(c1), SymbolBits(c2), SymbolBits(c3))
  }

  /** The bytes of four characters. */
  function QuadBytes(c0: char, c1: char, c2: char, c3: char): seq<Byte> {
    var triple := Triple(BlockOf(c0, c1, c2, c3));
    [triple[0]] + (if c2 == PAD then [] else [triple[1]]) + (if c3 == PAD then [] else [triple[2]])
  }

  /** The bytes of the text, four characters at a time. */
  function Blocks(text: string): seq<Byte> {
    if |text| < 4 then [] else QuadBytes(text[0], text[1], text[2], text[3]) + Blocks(text[4..])
  }

  /** Which characters the first bytes get, and the block they stand for. */
  lemma HeadShape(bytes: seq<Byte>)
    requires bytes != []
    ensures var h := Head(bytes);
            && SymbolValue(h[0]) >= 0 && SymbolValue(h[1]) >= 0
            && (if |bytes| > 1 then SymbolValue(h[2]) >= 0 && h[2] != PAD else h[2] == PAD)
            && (if |bytes| > 2 then SymbolValue(h[3]) >= 0 && h[3] != PAD else h[3] == PAD)
            && (|bytes| == 1 ==> SymbolValue(h[1]) % 16 == 0) && (|bytes| == 2 ==> SymbolValue(h[2]) % 4 == 0)
            && BlockOf(h[0], h[1], h[2], h[3]) == Block24(ByteAt(bytes, 0), ByteAt(bytes, 1), ByteAt(bytes, 2))
  {
    var f, s, t, u := Regroup(ByteAt(bytes, 0), ByteAt(bytes, 1), ByteAt(bytes, 2));
    QuadOf(f, s, t, u);
    SymbolsInvert('A', f);
    SymbolsInvert('A', s);
    SymbolsInvert('A', t);
    SymbolsInvert('A', u);
    PadIsNoSymbol();
    hide Symbol, SymbolValue, Quad, Block24, Block64;
  }

  lemma PadIsNoSymbol()
    ensures SymbolValue(PAD) < 0
  {
  }

  lemma HeadBytes(bytes: seq<Byte>)
    requires bytes != []
    ensures var h := Head(bytes);
            QuadBytes(h[0], h[1], h[2], h[3]) == bytes[..|bytes| - |Rest(bytes)|]
  {
    hide Head, Triple, Block24, SymbolValue, BlockOf;
    HeadShape(bytes);
    TripleOf(ByteAt(bytes, 0), ByteAt(bytes, 1), ByteAt(bytes, 2));
    if |bytes| == 1 { assert bytes[..1] == [bytes[0]]; }
    else if |bytes| == 2 { assert bytes[..2] == [bytes[0], bytes[1]]; }
    else { assert bytes[..3] == [bytes[0], bytes[1], bytes[2]]; }
  }

  lemma HeadDecodes(bytes: seq<Byte>, more: string)
    requires bytes != []
    ensures Blocks(Head(bytes) + more) == bytes[..|bytes| - |Rest(bytes)|] + Blocks(more)
  {
    hide Head, QuadBytes;
    HeadBytes(bytes);
    assert (Head(bytes) + more)[4..] == more;
  }

  lemma PaddingAfter(text: string)
    requires |text| > 4 && |text| % 4 == 0
    ensures Padding(text[4..]) == Padding(text)
  {
  }

  lemma CanonicalFirst(head: string, more: string)
    requires |head| == 4 && |more| % 4 == 0 && more != "" && Canonical(more)
    requires forall i | 0 <= i < 4 :: SymbolValue(head[i]) >= 0
    ensures Canonical(head + more) && Padding(head + more) == Padding(more)
  {
    hide SymbolValue;
    var text := head + more;
    assert text[4..] == more;
    PaddingAfter(text);
    forall i | 0 <= i < |text| - Padding(text) ensures SymbolValue(text[i]) >= 0 {
      if i >= 4 { assert text[i] == more[i - 4]; }
    }
    if Padding(text) == 2 { assert text[|text| - 3] == more[|more| - 3]; }
    if Padding(text) == 1 { assert text[|text| - 2] == more[|more| - 2]; }
  }

  lemma CanonicalRest(text: string)
    requires Canonical(text) && |text| > 4
    ensures Canonical(text[4..]) && Padding(text[4..]) == Padding(text)
    ensures forall i | 0 <= i < 4 :: SymbolValue(text[i]) >= 0
  {
    hide SymbolValue;
    PaddingAfter(text);
    assert forall i | 0 <= i < |text| - 4 :: text[4..][i] == text[i + 4];
  }

  lemma HeadCanonical(bytes: seq<Byte>)
    requires bytes != [] && |bytes| <= 3
    ensures Canonical(Head(bytes))
  {
    hide SymbolValue, Head, BlockOf, Block24;
    HeadShape(bytes);
    PadIsNoSymbol();
  }

  /** Every encoding is canonical and decodes to what was encoded. */
  lemma {:induction false} DecodesEncoded(bytes: seq<Byte>)
    ensures Canonical(Encode(bytes)) && Blocks(Encode(bytes)) == bytes
    decreases |bytes|
  {
    if bytes != [] {
      hide Blocks, Head, Canonical, BlockOf, Block24, SymbolValue;
      HeadDecodes(bytes, Encode(Rest(bytes)));
      DecodesEncoded(Rest(bytes));
      EncodeLength(Rest(bytes));
      if |bytes| > 3 {
        HeadShape(bytes);
        CanonicalFirst(Head(bytes), Encode(Rest(bytes)));
        assert bytes[..3] + Rest(bytes) == bytes;
      } else {
        HeadCanonical(bytes);
        assert bytes[..|bytes|] + [] == bytes;
        assert Head(bytes) + "" == Head(bytes);
      }
    }
  }

  /** The four characters stand for the same block as the bytes they decode to. */
  lemma HeadOfBytes(c0: char, c1: char, c2: char, c3: char)
    requires SymbolValue(c0) >= 0 && SymbolValue(c1) >= 0
    requires c2 == PAD ==> c3 == PAD && SymbolValue(c1) % 16 == 0
    requires c2 != PAD ==> SymbolValue(c2) >= 0 && (c3 == PAD ==> SymbolValue(c2) % 4 == 0)
    requires c3 != PAD ==> SymbolValue(c3) >= 0
    ensures Head(QuadBytes(c0, c1, c2, c3)) == [c0, c1, c2, c3]
  {
    var f, s, t, u := SymbolBits(c0), SymbolBits(c1), SymbolBits(c2), SymbolBits(c3);
    var a, b, c := Ungroup(f, s, t, u);
    PadIsNoSymbol();
    TripleOf(a, b, c);
    QuadOf(f, s, t, u);
    SymbolsInvert(c0, 0);
    SymbolsInvert(c1, 0);
    SymbolsInvert(c2, 0);
    SymbolsInvert(c3, 0);
    hide Symbol, SymbolValue, Quad, Triple, Block24, Block64;
  }

  /** Every canonical text is the encoding of what it decodes to. */
  lemma {:induction false} EncodesDecoded(text: string)
    requires Canonical(text)
    ensures Encode(Blocks(text)) == text
    ensures |Blocks(text)| == |text| / 4 * 3 - Padding(text)
    decreases |text|
  {
    hide SymbolValue, QuadBytes, Head, Encode, Blocks, Canonical;
    if text == "" {
      EncodeUnfolds([]);
      NoBlocks();
    } else {
      FirstQuad(text);
      var bytes := QuadBytes(text[0], text[1], text[2], text[3]);
      BlocksUnfold(text);
      if |text| > 4 {
        CanonicalRest(text);
        EncodesDecoded(text[4..]);
        var all := bytes + Blocks(text[4..]);
        assert Rest(all) == Blocks(text[4..]);
        SameHead(all, bytes);
        EncodeUnfolds(all);
      } else {
        NoBlocks();
        assert text[4..] == "" && bytes + [] == bytes;
        EncodeUnfolds(bytes);
      }
    }
  }

  lemma NoBlocks()
    ensures Blocks("") == [] && Padding("") == 0
  {
  }

  lemma BlocksUnfold(text: string)
    requires |text| >= 4
    ensures Blocks(text) == QuadBytes(text[0], text[1], text[2], text[3]) + Blocks(text[4..])
  {
    hide QuadBytes;
  }

  /** The first four characters of a canonical text, and how many bytes they stand for. */
  lemma FirstQuad(text: string)
    requires Canonical(text) && text != ""
    ensures |text| >= 4 && |text| % 4 == 0
    ensures var bytes := QuadBytes(text[0], text[1], text[2], text[3]);
            && text == Head(bytes) + text[4..]
            && |bytes| == (if |text| > 4 then 3 else 3 - Padding(text))
  {
    hide SymbolValue, QuadBytes, Head;
    PadIsNoSymbol();
    HeadOfBytes(text[0], text[1], text[2], text[3]);
    QuadLength(text[0], text[1], text[2], text[3]);
    assert text == [text[0], text[1], text[2], text[3]] + text[4..];
  }

  lemma QuadLength(c0: char, c1: char, c2: char, c3: char)
    ensures |QuadBytes(c0, c1, c2, c3)| == 1 + (if c2 == PAD then 0 else 1) + (if c3 == PAD then 0 else 1)
    ensures SymbolValue(PAD) < 0
  {
    hide Triple;
    PadIsNoSymbol();
  }

  lemma SameHead(all: seq<Byte>, first: seq<Byte>)
    requires |first| == 3 && first <= all
    ensures Head(all) == Head(first)
  {
    hide Quad, Block24;
  }

  /** The checks before decoding: length, characters, padding and unused bits. */
  method CheckText(encoded: string) returns (canonical: bool)
    ensures canonical <==> Canonical(encoded)
  {
    if |encoded| % 4 != 0 { return false; }
    var padding := Padding(encoded);
    var index := 0;
    while index < |encoded|
      invariant 0 <= index <= |encoded|
      invariant forall i | 0 <= i < index && i < |encoded| - padding :: SymbolValue(encoded[i]) >= 0
    {
      var isPadding := encoded[index] == PAD;
      if (isPadding && (padding == 0 || index < |encoded| - padding)) || (!isPadding && SymbolValue(encoded[index]) < 0) {
        SymbolsInvert(encoded[index], 0);
        return false;
      }
      index := index + 1;
    }
    if padding == 2 && |encoded| >= 4 && SymbolValue(encoded[|encoded| - 3]) % 16 != 0 { return false; }
    if padding == 1 && |encoded| >= 4 && SymbolValue(encoded[|encoded| - 2]) % 4 != 0 { return false; }
    canonical := true;
  }

  /** Main codec result: decoding accepts exactly the encodings of byte strings within the limit, and inverts them. */
  method DecodeBase64(encoded: string, maximum: nat) returns (decoded: Option<seq<Byte>>)
    ensures forall bytes :: decoded == Some(bytes) <==> encoded == Encode(bytes) && |bytes| <= maximum
  {
    hide Encode, Canonical, Blocks;
    forall bytes | encoded == Encode(bytes) ensures Canonical(encoded) && Blocks(encoded) == bytes {
      DecodesEncoded(bytes);
    }
    forall bytes | encoded == Encode(bytes) ensures |encoded| == (|bytes| + 2) / 3 * 4 { EncodeLength(bytes); }
    if |encoded| > (maximum + 2) / 3 * 4 { return None; }
    var canonical := CheckText(encoded);
    if !canonical { return None; }
    EncodesDecoded(encoded);
    var outputSize := |encoded| / 4 * 3 - Padding(encoded);
    if outputSize > maximum { return None; }
    var bytes := DecodeBlocks(encoded);
    decoded := if |bytes| == outputSize then Some(bytes) else None;
  }

  method DecodeBlocks(encoded: string) returns (bytes: seq<Byte>)
    requires |encoded| % 4 == 0
    ensures bytes == Blocks(encoded)
  {
    hide SymbolBits, Block64, Blocks, QuadBytes;
    bytes := [];
    var index := 0;
    assert encoded[0..] == encoded;
    while index < |encoded|
      invariant 0 <= index <= |encoded| && index % 4 == 0
      invariant Blocks(encoded) == bytes + Blocks(encoded[index..])
    {
      BlocksUnfold(encoded[index..]);
      assert encoded[index..][4..] == encoded[index + 4..];
      var first, second := SymbolBits(encoded[index]), SymbolBits(encoded[index + 1]);
      var third := if encoded[index + 2] == PAD then 0 else SymbolBits(encoded[index + 2]);
      var fourth := if encoded[index + 3] == PAD then 0 else SymbolBits(encoded[index + 3]);
      var block := Block64(first, second, third, fourth);
      QuadBytesAre(encoded[index], encoded[index + 1], encoded[index + 2], encoded[index + 3]);
      var more: seq<Byte> := [block / 0x1_0000 % 256];
      if encoded[index + 2] != PAD { more := more + [block / 0x100 % 256]; }
      if encoded[index + 3] != PAD { more := more + [block % 256]; }
      bytes := bytes + more;
      index := index + 4;
    }
    assert encoded[index..] == "";
    NoBlocks();
  }

  lemma QuadBytesAre(c0: char, c1: char, c2: char, c3: char)
    ensures SymbolBits(PAD) == 0
    ensures var block := BlockOf(c0, c1, c2, c3);
            QuadBytes(c0, c1, c2, c3)
            == ([block / 0x1_0000 % 256] + if c2 == PAD then [] else [block / 0x100 % 256]) + if c3 == PAD then [] else [block % 256]
  {
    hide BlockOf;
    PadHasNoBits();
  }

  lemma PadHasNoBits()
    ensures SymbolBits(PAD) == 0
  {
  }
}
