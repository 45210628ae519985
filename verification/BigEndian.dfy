/** Big-endian integers and their bits. */
module BigEndian {
  import opened Bytes

  function Value(bytes: seq<Byte>): nat {
    if bytes == [] then 0 else Value(bytes[..|bytes| - 1]) * 256 + bytes[|bytes| - 1]
  }

  function Power256(width: nat): (p: nat)
    ensures p >= 1
  {
    if width == 0 then 1 else Power256(width - 1) * 256
  }

  /** `n` in exactly `width` bytes, as far as it fits. */
  function Fixed(n: nat, width: nat): (bytes: seq<Byte>)
    ensures |bytes| == width
  {
    if width == 0 then [] else Fixed(n / 256, width - 1) + [LowByte(n)]
  }

  function LowByte(n: nat): Byte {
    n % 256
  }

  /** `n` in as few bytes as possible: none for zero, and never a leading zero. */
  function Minimal(n: nat): seq<Byte> {
    if n == 0 then [] else Minimal(n / 256) + [LowByte(n)]
  }

  lemma {:induction false} ValueBound(bytes: seq<Byte>)
    ensures Value(bytes) < Power256(|bytes|)
  {
    if bytes != [] { ValueBound(bytes[..|bytes| - 1]); }
  }

  lemma {:induction false} FixedValue(bytes: seq<Byte>)
    ensures Fixed(Value(bytes), |bytes|) == bytes
  {
    if bytes != [] {
      FixedValue(bytes[..|bytes| - 1]);
      assert bytes == bytes[..|bytes| - 1] + [bytes[|bytes| - 1]];
    }
  }

  lemma {:induction false} ValueFixed(n: nat, width: nat)
    requires n < Power256(width)
    ensures Value(Fixed(n, width)) == n
  {
    if width > 0 {
      ValueFixed(n / 256, width - 1);
      assert Fixed(n, width)[..width - 1] == Fixed(n / 256, width - 1);
    }
  }

  lemma {:induction false} MinimalValue(bytes: seq<Byte>)
    requires bytes != [] ==> bytes[0] != 0
    ensures Minimal(Value(bytes)) == bytes
    ensures bytes != [] ==> Value(bytes) > 0
  {
    if bytes != [] {
      var head := bytes[..|bytes| - 1];
      MinimalValue(head);
      assert bytes == head + [bytes[|bytes| - 1]];
      if head == [] { assert Value(bytes) == bytes[0]; }
    }
  }

  lemma {:induction false} ValueMinimal(n: nat)
    ensures Value(Minimal(n)) == n
    ensures n > 0 ==> Minimal(n) != [] && Minimal(n)[0] != 0
  {
    if n > 0 {
      ValueMinimal(n / 256);
      assert Minimal(n)[..|Minimal(n)| - 1] == Minimal(n / 256);
    }
  }

  lemma {:induction false} LeadingZero(bytes: seq<Byte>)
    ensures Value([0] + bytes) == Value(bytes)
  {
    if bytes == [] {
      assert ([0] + bytes)[..0] == [];
    } else {
      LeadingZero(bytes[..|bytes| - 1]);
      assert ([0] + bytes)[..|bytes|] == [0] + bytes[..|bytes| - 1];
    }
  }

  // ----- bits -----

  predicate Bit(n: nat, k: nat)
    decreases k
  {
    if k == 0 then n % 2 == 1 else Bit(n / 2, k - 1)
  }

  function Power2(k: nat): (p: nat)
    ensures p >= 1
  {
    if k == 0 then 1 else 2 * Power2(k - 1)
  }

  lemma {:induction false} LowBit(high: nat, low: nat, m: nat, k: nat)
    requires k < m && low < Power2(m)
    ensures Bit(high * Power2(m) + low, k) == Bit(low, k)
    decreases m
  {
    var p := Power2(m - 1);
    assert high * Power2(m) == 2 * (high * p);
    if k > 0 {
      assert (2 * (high * p) + low) / 2 == high * p + low / 2;
      LowBit(high, low / 2, m - 1, k - 1);
    }
  }

  lemma HighBit(n: nat, k: nat)
    ensures Bit(n, 8 + k) == Bit(n / 256, k)
  {
    TwoHalvings(n, 6 + k);
    TwoHalvings(n / 4, 4 + k);
    TwoHalvings(n / 16, 2 + k);
    TwoHalvings(n / 64, k);
    assert n / 4 / 4 == n / 16 && n / 16 / 4 == n / 64 && n / 64 / 4 == n / 256;
  }

  lemma TwoHalvings(n: nat, k: nat)
    ensures Bit(n, 2 + k) == Bit(n / 4, k)
  {
    assert Bit(n, 2 + k) == Bit(n / 2, 1 + k) == Bit(n / 2 / 2, k);
    assert n / 2 / 2 == n / 4;
  }

  /** Bit 8i+j of the integer is bit j of the byte i places before the last. */
  lemma {:induction false} BitOfByte(bytes: seq<Byte>, i: nat, j: nat)
    requires i < |bytes| && j < 8
    ensures Bit(Value(bytes), 8 * i + j) == Bit(bytes[|bytes| - 1 - i], j)
    decreases i
  {
    var head, last := bytes[..|bytes| - 1], bytes[|bytes| - 1];
    assert Power2(8) == 256;
    if i == 0 {
      LowBit(Value(head), last, 8, j);
    } else {
      HighBit(Value(bytes), 8 * (i - 1) + j);
      assert Value(bytes) / 256 == Value(head);
      BitOfByte(head, i - 1, j);
    }
  }

  lemma {:induction false} NoBitOfZero(k: nat)
    ensures !Bit(0, k)
  {
    if k > 0 { NoBitOfZero(k - 1); }
  }

  /** There are no bits beyond the bytes. */
  lemma {:induction false} BitsEnd(bytes: seq<Byte>, k: nat)
    requires k >= 8 * |bytes|
    ensures !Bit(Value(bytes), k)
  {
    if bytes == [] {
      NoBitOfZero(k);
    } else {
      assert Power2(8) == 256;
      HighBit(Value(bytes), k - 8);
      assert Value(bytes) / 256 == Value(bytes[..|bytes| - 1]);
      BitsEnd(bytes[..|bytes| - 1], k - 8);
    }
  }
}
