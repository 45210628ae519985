/** UTF-8 as section 3 of RFC 3629 defines it, and the scanner that validates it. */
module Utf8 {
  import opened Bytes

  predicate Scalar(code: int) {
    0 <= code <= 0x10FFFF && !(0xD800 <= code <= 0xDFFF)
  }

  type Code = code: int | 0 <= code < 0xD800 || 0xDFFF < code <= 0x10FFFF

  /** The encoding of one scalar value. */
  function Encode(code: Code): (bytes: seq<Byte>)
    ensures 1 <= |bytes| <= 4
  {
    var high, higher, highest := code / 64, code / 64 / 64, code / 64 / 64 / 64;
    if code < 0x80 then Bytes1(code)
    else if code < 0x800 then Bytes2(0xC0 + high, Tail(code))
    else if code < 0x10000 then Bytes3(0xE0 + higher, Tail(high), Tail(code))
    else Bytes4(0xF0 + highest, Tail(higher), Tail(high), Tail(code))
  }

  function Tail(bits: nat): Byte {
    0x80 + bits % 64
  }

  function Bytes1(a: Byte): seq<Byte> { [a] }

  function Bytes2(a: Byte, b: Byte): seq<Byte> { [a, b] }

  function Bytes3(a: Byte, b: Byte, c: Byte): seq<Byte> { [a, b, c] }

  function Bytes4(a: Byte, b: Byte, c: Byte, d: Byte): seq<Byte> { [a, b, c, d] }

  function EncodeAll(codes: seq<Code>): seq<Byte> {
    if codes == [] then [] else Encode(codes[0]) + EncodeAll(codes[1..])
  }

  ghost predicate IsUtf8(value: seq<Byte>) {
    exists codes :: EncodeAll(codes) == value
  }

  // ----- one encoded scalar -----

  /** How many bytes follow a first byte; negative when none may start with it. */
  function Following(first: Byte): int {
    if first <= 0x7F then 0
    else if 0xC2 <= first <= 0xDF then 1
    else if 0xE0 <= first <= 0xEF then 2
    else if 0xF0 <= first <= 0xF4 then 3
    else -1
  }

  function Payload(first: Byte): nat {
    if first <= 0x7F then first
    else if first <= 0xDF then first % 32
    else if first <= 0xEF then first % 16
    else first % 8
  }

  predicate Continuation(b: Byte) {
    b / 64 == 2
  }

  /** The bits gathered from a first byte and the bytes after it. */
  function Gathered(bytes: seq<Byte>): nat
    requires bytes != []
  {
    if |bytes| == 1 then Payload(bytes[0]) else Gathered(bytes[..|bytes| - 1]) * 64 + bytes[|bytes| - 1] % 64
  }

  predicate InRange(following: int, code: int) {
    && (following == 2 ==> code >= 0x800) && (following == 3 ==> code >= 0x10000)
    && !(0xD800 <= code <= 0xDFFF) && code <= 0x10FFFF
  }

  predicate Unit(bytes: seq<Byte>) {
    && bytes != [] && |bytes| == Following(bytes[0]) + 1
    && (forall i | 1 <= i < |bytes| :: Continuation(bytes[i]))
    && InRange(Following(bytes[0]), Gathered(bytes))
  }

  lemma GatheredFour(bytes: seq<Byte>)
    requires 1 <= |bytes| <= 4
    ensures |bytes| == 2 ==> Gathered(bytes) == Payload(bytes[0]) * 64 + bytes[1] % 64
    ensures |bytes| == 3 ==> Gathered(bytes) == (Payload(bytes[0]) * 64 + bytes[1] % 64) * 64 + bytes[2] % 64
    ensures |bytes| == 4 ==>
      Gathered(bytes) == ((Payload(bytes[0]) * 64 + bytes[1] % 64) * 64 + bytes[2] % 64) * 64 + bytes[3] % 64
  {
    if |bytes| > 1 {
      var shorter := bytes[..|bytes| - 1];
      GatheredFour(shorter);
      assert shorter[0] == bytes[0];
    }
  }

  lemma Join(high: nat, b: Byte)
    ensures (high * 64 + b % 64) / 64 == high && (high * 64 + b % 64) % 64 == b % 64
    ensures Continuation(b) ==> Tail(high * 64 + b % 64) == b
  {
  }

  lemma TailJoins(bits: nat)
    ensures bits / 64 * 64 + Tail(bits) % 64 == bits && Continuation(Tail(bits))
  {
  }

  lemma PayloadOfLead(first: Byte)
    ensures 0xC2 <= first <= 0xDF ==> Payload(first) == first - 0xC0
    ensures 0xE0 <= first <= 0xEF ==> Payload(first) == first - 0xE0
    ensures 0xF0 <= first <= 0xF4 ==> Payload(first) == first - 0xF0
  {
  }

  lemma UnitEncodes(bytes: seq<Byte>)
    requires Unit(bytes)
    ensures Scalar(Gathered(bytes)) && Encode(Gathered(bytes)) == bytes
  {
    hide Payload, Gathered, Continuation, Tail;
    GatheredFour(bytes);
    PayloadOfLead(bytes[0]);
    SmallPayload(bytes[0]);
    var first := Payload(bytes[0]);
    if |bytes| == 1 {
      GatheredOne(bytes);
    } else if |bytes| == 2 {
      Join(first, bytes[1]);
      assert bytes == Bytes2(bytes[0], bytes[1]);
    } else if |bytes| == 3 {
      var second := first * 64 + bytes[1] % 64;
      Join(first, bytes[1]);
      Join(second, bytes[2]);
      assert bytes == Bytes3(bytes[0], bytes[1], bytes[2]);
    } else {
      var second := first * 64 + bytes[1] % 64;
      var third := second * 64 + bytes[2] % 64;
      Join(first, bytes[1]);
      Join(second, bytes[2]);
      Join(third, bytes[3]);
      assert bytes == Bytes4(bytes[0], bytes[1], bytes[2], bytes[3]);
    }
  }

  lemma SmallPayload(first: Byte)
    ensures first <= 0x7F ==> Payload(first) == first
  {
  }

  lemma GatheredOne(bytes: seq<Byte>)
    requires |bytes| == 1
    ensures Gathered(bytes) == Payload(bytes[0])
  {
  }

  /** The gathered bits of an encoding are the code again, one continuation byte at a time. */
  lemma EncodingGathers(code: Code)
    ensures Gathered(Encode(code)) == code
  {
    hide Payload, Gathered, Continuation, Tail;
    var bytes := Encode(code);
    GatheredFour(bytes);
    PayloadOfLead(bytes[0]);
    SmallPayload(bytes[0]);
    TailJoins(code);
    TailJoins(code / 64);
    TailJoins(code / 64 / 64);
    if |bytes| == 1 { GatheredOne(bytes); }
  }

  lemma EncodingContinues(code: Code)
    ensures var bytes := Encode(code); |bytes| == Following(bytes[0]) + 1
    ensures forall i | 1 <= i < |Encode(code)| :: Continuation(Encode(code)[i])
  {
    hide Continuation, Tail;
    TailJoins(code);
    TailJoins(code / 64);
    TailJoins(code / 64 / 64);
  }

  lemma EncodingIsUnit(code: Code)
    ensures Unit(Encode(code)) && Gathered(Encode(code)) == code
  {
    hide Gathered, Continuation, Tail;
    EncodingGathers(code);
    EncodingContinues(code);
  }

  // ----- a whole text -----

  lemma FirstUnit(value: seq<Byte>, n: nat)
    requires n <= |value| && Unit(value[..n])
    ensures IsUtf8(value) <==> IsUtf8(value[n..])
  {
    var code: Code := Gathered(value[..n]);
    UnitEncodes(value[..n]);
    if IsUtf8(value[n..]) {
      var codes: seq<Code> :| EncodeAll(codes) == value[n..];
      assert ([code] + codes)[1..] == codes;
      assert value == value[..n] + value[n..];
      assert EncodeAll([code] + codes) == value;
    }
    if IsUtf8(value) {
      var codes: seq<Code> :| EncodeAll(codes) == value;
      var first := Encode(codes[0]);
      EncodingIsUnit(codes[0]);
      assert value[0] == first[0] == value[..n][0];
      assert value[n..] == EncodeAll(codes[1..]);
    }
  }

  lemma NoUnit(value: seq<Byte>)
    requires value != [] && forall n | 0 < n <= |value| :: !Unit(value[..n])
    ensures !IsUtf8(value)
  {
    forall codes: seq<Code> ensures EncodeAll(codes) != value {
      if codes != [] {
        EncodingIsUnit(codes[0]);
        var n := |Encode(codes[0])|;
        assert EncodeAll(codes)[..n] == Encode(codes[0]);
        assert n <= |value| ==> !Unit(value[..n]);
      }
    }
  }

  lemma OnlyThisLength(value: seq<Byte>, n: nat)
    requires 0 < n <= |value| && n == Following(value[0]) + 1 && !Unit(value[..n])
    ensures !IsUtf8(value)
  {
    forall k | 0 < k <= |value| ensures !Unit(value[..k]) {
      assert value[..k][0] == value[0];
    }
    NoUnit(value);
  }

  lemma RangeDecides(value: seq<Byte>, n: nat)
    requires 0 < n < |value| && Following(value[0]) == n
    requires forall i | 1 <= i <= n :: Continuation(value[i])
    ensures Unit(value[..n + 1]) <==> InRange(n, Gathered(value[..n + 1]))
    ensures !Unit(value[..n + 1]) ==> !IsUtf8(value)
  {
    hide IsUtf8, Gathered;
    assert value[..n + 1][0] == value[0];
    if !Unit(value[..n + 1]) { OnlyThisLength(value, n + 1); }
  }

  lemma BadTail(value: seq<Byte>, n: nat, k: nat)
    requires 0 < k <= n < |value| && Following(value[0]) == n && !Continuation(value[k])
    ensures !IsUtf8(value)
  {
    hide IsUtf8, Gathered;
    assert value[..n + 1][k] == value[k];
    OnlyThisLength(value, n + 1);
  }

  lemma GatherNext(value: seq<Byte>, k: nat)
    requires 0 < k < |value|
    ensures Gathered(value[..k + 1]) == Gathered(value[..k]) * 64 + value[k] % 64
  {
    assert value[..k + 1][..k] == value[..k];
  }

  lemma OneByte(value: seq<Byte>)
    requires value != [] && 0 <= Following(value[0])
    ensures Gathered(value[..1]) == Payload(value[0])
    ensures Following(value[0]) == 0 ==> Unit(value[..1])
  {
    assert value[..1] == [value[0]];
  }

  method ValidUtf8(value: seq<Byte>) returns (valid: bool)
    ensures valid <==> IsUtf8(value)
  {
    hide IsUtf8, EncodeAll, Unit, Gathered;
    var index := 0;
    assert value[0..] == value;
    while index < |value|
      invariant 0 <= index <= |value|
      invariant IsUtf8(value) <==> IsUtf8(value[index..])
      decreases |value| - index
    {
      ghost var rest := value[index..];
      var first := value[index];
      index := index + 1;
      if first <= 0x7F {
        OneByte(rest);
        FirstUnit(rest, 1);
        assert rest[1..] == value[index..];
        continue;
      }
      var code: nat, continuation: nat := 0, 0;
      if 0xC2 <= first <= 0xDF { code, continuation := first % 32, 1; }
      else if 0xE0 <= first <= 0xEF { code, continuation := first % 16, 2; }
      else if 0xF0 <= first <= 0xF4 { code, continuation := first % 8, 3; }
      else {
        NoFirst(rest);
        return false;
      }
      if continuation > |value| - index {
        TooShort(rest);
        return false;
      }
      OneByte(rest);
      var part := 0;
      while part < continuation
        invariant 0 <= part <= continuation && index == |value| - |rest| + 1 + part
        invariant forall i | 1 <= i <= part :: Continuation(rest[i])
        invariant code == Gathered(rest[..1 + part])
      {
        var next := value[index];
        index := index + 1;
        if next / 64 != 2 {
          BadTail(rest, continuation, part + 1);
          return false;
        }
        GatherNext(rest, part + 1);
        code := code * 64 + next % 64;
        part := part + 1;
      }
      RangeDecides(rest, continuation);
      if (continuation == 2 && code < 0x800) || (continuation == 3 && code < 0x10000)
         || 0xD800 <= code <= 0xDFFF || code > 0x10FFFF {
        return false;
      }
      FirstUnit(rest, continuation + 1);
      assert rest[continuation + 1..] == value[index..];
    }
    assert value[index..] == [];
    NothingIsUtf8();
    valid := true;
  }

  lemma NothingIsUtf8()
    ensures IsUtf8([])
  {
    assert EncodeAll([]) == [];
  }

  lemma NoFirst(value: seq<Byte>)
    requires value != [] && Following(value[0]) < 0
    ensures !IsUtf8(value)
  {
    forall k | 0 < k <= |value| ensures !Unit(value[..k]) { assert value[..k][0] == value[0]; }
    NoUnit(value);
  }

  lemma TooShort(value: seq<Byte>)
    requires value != [] && Following(value[0]) + 1 > |value|
    ensures !IsUtf8(value)
  {
    forall k | 0 < k <= |value| ensures !Unit(value[..k]) { assert value[..k][0] == value[0]; }
    NoUnit(value);
  }

  /** A text has at most one reading: encodings are uniquely decodable. */
  lemma {:induction false} OneReading(a: seq<Code>, b: seq<Code>)
    requires EncodeAll(a) == EncodeAll(b)
    ensures a == b
  {
    if a == [] || b == [] {
      assert a == b;
    } else {
      EncodingIsUnit(a[0]);
      EncodingIsUnit(b[0]);
      assert EncodeAll(a)[0] == Encode(a[0])[0] && EncodeAll(b)[0] == Encode(b[0])[0];
      var n := |Encode(a[0])|;
      assert EncodeAll(a)[..n] == Encode(a[0]) && EncodeAll(b)[..n] == Encode(b[0]);
      assert EncodeAll(a)[n..] == EncodeAll(a[1..]) && EncodeAll(b)[n..] == EncodeAll(b[1..]);
      OneReading(a[1..], b[1..]);
    }
  }
}
