/** The parser of a certificate section, reading through a cursor that never passes the end of its bytes. */
module KrlParser {
  import opened Wrappers
  import opened Bytes
  import opened BigEndian
  import opened KrlFormat
  import Utf8

  /** A cursor over bytes. An empty result stands for the exception that ends the whole parse. */
  class KrlReader {
    const bytes: seq<Byte>
    var offset: nat

    ghost predicate Valid()
      reads this
    {
      offset <= |bytes|
    }

    function Rest(): seq<Byte>
      requires Valid()
      reads this
    {
      bytes[offset..]
    }

    constructor (bytes: seq<Byte>)
      ensures Valid() && Rest() == bytes
    {
      this.bytes, offset := bytes, 0;
      new;
      assert bytes[0..] == bytes;
    }

    predicate Empty()
      requires Valid()
      reads this
      ensures Empty() <==> Rest() == []
    {
      offset == |bytes|
    }

    method Exact(length: nat) returns (taken: Option<seq<Byte>>)
      requires Valid()
      modifies this
      ensures Valid() && (taken.Some? <==> length <= |old(Rest())|)
      ensures taken.Some? ==> taken.value == old(Rest())[..length] && Rest() == old(Rest())[length..]
    {
      if length > |bytes| - offset { return None; }
      taken := Some(bytes[offset..offset + length]);
      offset := offset + length;
    }

    method U8() returns (byte: Option<Byte>)
      requires Valid()
      modifies this
      ensures Valid() && (byte.Some? <==> old(Rest()) != [])
      ensures byte.Some? ==> old(Rest()) == [byte.value] + Rest()
    {
      if offset == |bytes| { return None; }
      byte := Some(bytes[offset]);
      offset := offset + 1;
    }

    method U32() returns (n: Option<nat>)
      requires Valid()
      modifies this
      ensures Valid() && TakeBig(old(Rest()), 4) == Paired(n, Rest())
    {
      var taken := Exact(4);
      if taken.None? { return None; }
      var data := taken.value;
      n := Some(Word(data[0], data[1], data[2], data[3]));
      FourBytes(data);
    }

    method U64() returns (n: Option<nat>)
      requires Valid()
      modifies this
      ensures Valid() && TakeBig(old(Rest()), 8) == Paired(n, Rest())
    {
      var taken := Exact(8);
      if taken.None? { return None; }
      var data := taken.value;
      var value: nat, index: nat := 0, 0;
      while index < 8
        invariant 0 <= index <= 8 && value == Value(data[..index])
      {
        assert data[..index + 1][..index] == data[..index];
        value := value * 256 + data[index];
        index := index + 1;
      }
      assert data[..8] == data;
      n := Some(value);
    }

    method String() returns (s: Option<seq<Byte>>)
      requires Valid()
      modifies this
      ensures Valid() && TakeText(old(Rest())) == Paired(s, Rest())
    {
      var length := U32();
      if length.None? { return None; }
      s := Exact(length.value);
    }
  }

  function Paired<T>(value: Option<T>, rest: seq<Byte>): Option<(T, seq<Byte>)> {
    match value case None => None case Some(v) => Some((v, rest))
  }

  function Word(a: nat, b: nat, c: nat, d: nat): nat {
    a * 0x100_0000 + b * 0x1_0000 + c * 0x100 + d
  }

  lemma FourBytes(data: seq<Byte>)
    requires |data| == 4
    ensures Value(data) == Word(data[0], data[1], data[2], data[3])
  {
    var a: nat, b: nat, c: nat, d: nat := data[0], data[1], data[2], data[3];
    var three, two, one := data[..3], data[..3][..2], data[..3][..2][..1];
    assert one[..0] == [];
    assert Value(one) == a;
    assert Value(two) == a * 256 + b;
    assert Value(three) == (a * 256 + b) * 256 + c;
  }

  // ----- what a section is parsed into -----

  datatype KrlBitmap = KrlBitmap(offset: nat, bits: seq<Byte>)

  datatype Section = Section(caKey: seq<Byte>, ranges: seq<(nat, nat)>, bitmaps: seq<KrlBitmap>, keyIds: set<seq<Byte>>)

  function Singles(list: seq<nat>): seq<(nat, nat)> {
    seq(|list|, i requires 0 <= i < |list| => (list[i], list[i]))
  }

  function SetOf(ids: seq<seq<Byte>>): set<seq<Byte>> {
    set s | s in ids
  }

  function Add(section: Section, sub: Subsection): Section {
    match sub
    case Serials(list) => section.(ranges := section.ranges + Singles(list))
    case Range(low, high) => section.(ranges := section.ranges + [(low, high)])
    case Bitmap(offset, mpint) =>
      section.(bitmaps := section.bitmaps + [KrlBitmap(offset, PositiveMpint(mpint).GetOr([]))])
    case KeyIds(ids) => section.(keyIds := section.keyIds + SetOf(ids))
    case Extension(_, _) => section
  }

  function Collect(caKey: seq<Byte>, subs: seq<Subsection>): Section {
    if subs == [] then Section(caKey, [], [], {})
    else Add(Collect(caKey, subs[..|subs| - 1]), subs[|subs| - 1])
  }

  function Prepend<T>(done: seq<T>, rest: Option<seq<T>>): Option<seq<T>> {
    match rest case None => None case Some(more) => Some(done + more)
  }

  lemma PrependNothing<T>(rest: Option<seq<T>>)
    ensures Prepend([], rest) == rest
  {
    if rest.Some? { assert [] + rest.value == rest.value; }
  }

  lemma PrependOne<T>(done: seq<T>, x: T, rest: Option<seq<T>>)
    ensures Prepend(done, Prepend([x], rest)) == Prepend(done + [x], rest)
  {
    if rest.Some? { assert done + ([x] + rest.value) == done + [x] + rest.value; }
  }

  lemma PrependToNothing<T>(done: seq<T>)
    ensures Prepend(done, Some([])) == Some(done)
  {
    assert done + [] == done;
  }

  // ----- the subsections -----

  method ParseSerials(data: KrlReader, section: Section) returns (parsed: Option<Section>)
    requires data.Valid()
    modifies data
    ensures data.Valid()
    ensures parsed == match ReadSerials(old(data.Rest())) case None => None case Some(list) => Some(Add(section, Serials(list)))
    ensures parsed.Some? ==> data.Empty()
  {
    var ranges := section.ranges;
    ghost var done: seq<nat> := [];
    PrependNothing(ReadSerials(data.Rest()));
    while !data.Empty()
      invariant data.Valid()
      invariant ReadSerials(old(data.Rest())) == Prepend(done, ReadSerials(data.Rest()))
      invariant ranges == section.ranges + Singles(done)
      decreases |data.Rest()|
    {
      ghost var before := data.Rest();
      var serial := data.U64();
      if serial.None? || serial.value == 0 { return None; }
      assert ReadSerials(before) == Prepend([serial.value], ReadSerials(data.Rest()));
      PrependOne(done, serial.value, ReadSerials(data.Rest()));
      done := done + [serial.value];
      ranges := ranges + [(serial.value, serial.value)];
    }
    PrependToNothing(done);
    parsed := Some(section.(ranges := ranges));
  }

  method ParseRange(data: KrlReader, section: Section) returns (parsed: Option<Section>)
    requires data.Valid()
    modifies data
    ensures data.Valid()
    ensures (parsed.Some? && data.Empty()) <==> ReadRange(old(data.Rest())).Some?
    ensures parsed.Some? && data.Empty() ==> parsed.value == Add(section, ReadRange(old(data.Rest())).value)
  {
    var low := data.U64();
    if low.None? { return None; }
    var high := data.U64();
    if high.None? { return None; }
    if low.value == 0 || low.value > high.value { return None; }
    parsed := Some(section.(ranges := section.ranges + [(low.value, high.value)]));
  }

  /** Bits of the bitmap that the two loops have visited. */
  ghost predicate FitsUpTo(offset: nat, bits: seq<Byte>, visited: nat) {
    forall k: nat | k < visited :: Bit(Value(bits), k) ==> 0 < offset + k <= MAX_SERIAL
  }

  lemma FitsAll(offset: nat, bits: seq<Byte>)
    ensures FitsUpTo(offset, bits, 8 * |bits|) <==> Fits(offset, Value(bits))
  {
    forall k: nat | k >= 8 * |bits| ensures !Bit(Value(bits), k) { BitsEnd(bits, k); }
  }

  /** Every set bit must denote a serial number that is not zero and does not overflow. */
  method CheckBitmap(offset: nat, bits: seq<Byte>) returns (fits: bool)
    requires offset <= MAX_SERIAL
    ensures fits <==> Fits(offset, Value(bits))
  {
    FitsAll(offset, bits);
    var byteIndex := 0;
    while byteIndex < |bits|
      invariant 0 <= byteIndex <= |bits|
      invariant FitsUpTo(offset, bits, 8 * byteIndex)
    {
      var byte := bits[|bits| - 1 - byteIndex];
      var bit := 0;
      while bit < 8
        invariant 0 <= bit <= 8
        invariant FitsUpTo(offset, bits, 8 * byteIndex + bit)
      {
        BitOfByte(bits, byteIndex, bit);
        if Bit(byte, bit) {
          var index := byteIndex * 8 + bit;
          if index > MAX_SERIAL - offset { return false; }
          if offset + index == 0 { return false; }
        }
        bit := bit + 1;
      }
      byteIndex := byteIndex + 1;
    }
    fits := true;
  }

  method ParseBitmap(data: KrlReader, section: Section) returns (parsed: Option<Section>)
    requires data.Valid()
    modifies data
    ensures data.Valid()
    ensures (parsed.Some? && data.Empty()) <==> ReadBitmap(old(data.Rest())).Some?
    ensures parsed.Some? && data.Empty() ==> parsed.value == Add(section, ReadBitmap(old(data.Rest())).value)
  {
    hide Fits, Mpint;
    var offset := data.U64();
    if offset.None? { return None; }
    SerialWidth(old(data.Rest()), offset.value, data.Rest());
    var mpint := data.String();
    if mpint.None? { return None; }
    MpintMeaning(mpint.value);
    var bits := PositiveMpint(mpint.value);
    if bits.None? { return None; }
    var fits := CheckBitmap(offset.value, bits.value);
    if !fits { return None; }
    parsed := Some(section.(bitmaps := section.bitmaps + [KrlBitmap(offset.value, bits.value)]));
  }

  lemma SerialWidth(bytes: seq<Byte>, n: nat, rest: seq<Byte>)
    requires TakeBig(bytes, 8) == Some((n, rest))
    ensures n <= MAX_SERIAL
  {
    assert Power256(8) == MAX_SERIAL + 1;
    TakesBig(bytes, 8, n, rest);
  }

  method ParseKeyIds(data: KrlReader, section: Section) returns (parsed: Option<Section>)
    requires data.Valid()
    modifies data
    ensures data.Valid()
    ensures parsed == match ReadTexts(old(data.Rest())) case None => None case Some(ids) => Some(Add(section, KeyIds(ids)))
    ensures parsed.Some? ==> data.Empty()
  {
    hide Utf8.IsUtf8;
    var keyIds := section.keyIds;
    ghost var done: seq<seq<Byte>> := [];
    PrependNothing(ReadTexts(data.Rest()));
    while !data.Empty()
      invariant data.Valid()
      invariant ReadTexts(old(data.Rest())) == Prepend(done, ReadTexts(data.Rest()))
      invariant keyIds == section.keyIds + SetOf(done)
      decreases |data.Rest()|
    {
      ghost var before := data.Rest();
      var id := data.String();
      if id.None? { return None; }
      TextShrinks(before, id.value, data.Rest());
      var valid := Utf8.ValidUtf8(id.value);
      if !valid { return None; }
      assert ReadTexts(before) == Prepend([id.value], ReadTexts(data.Rest()));
      PrependOne(done, id.value, ReadTexts(data.Rest()));
      done := done + [id.value];
      keyIds := keyIds + {id.value};
    }
    PrependToNothing(done);
    parsed := Some(section.(keyIds := keyIds));
  }

  method ParseExtension(data: KrlReader) returns (accepted: bool)
    requires data.Valid()
    modifies data
    ensures data.Valid()
    ensures (accepted && data.Empty()) <==> ReadExtension(old(data.Rest())).Some?
  {
    hide Utf8.IsUtf8;
    var name := data.String();
    if name.None? { return false; }
    var valid := Utf8.ValidUtf8(name.value);
    if !valid { return false; }
    var critical := data.U8();
    if critical.None? { return false; }
    var contents := data.String();
    if contents.None? { return false; }
    accepted := critical.value == 0;
  }

  method ParseSubsection(kind: Byte, payload: seq<Byte>, section: Section) returns (parsed: Option<Section>)
    ensures parsed == match ReadPayload(kind, payload) case None => None case Some(sub) => Some(Add(section, sub))
  {
    hide ReadSerials, ReadTexts, ReadRange, ReadBitmap, ReadExtension;
    var data := new KrlReader(payload);
    if kind == SERIALS {
      parsed := ParseSerials(data, section);
    } else if kind == RANGE {
      RangeKind(payload);
      parsed := ParseRange(data, section);
    } else if kind == BITMAP {
      parsed := ParseBitmap(data, section);
    } else if kind == KEY_IDS {
      parsed := ParseKeyIds(data, section);
    } else if kind == EXTENSION {
      ExtensionKind(payload);
      var accepted := ParseExtension(data);
      parsed := if accepted then Some(section) else None;
    } else {
      parsed := None;
    }
    if parsed.Some? && !data.Empty() { parsed := None; }
  }

  lemma RangeKind(data: seq<Byte>)
    ensures ReadRange(data).Some? ==> ReadRange(data).value.Range?
  {
  }

  lemma ExtensionKind(data: seq<Byte>)
    ensures ReadExtension(data).Some? ==> ReadExtension(data).value.Extension?
  {
  }

  // ----- the section -----

  method ParseCertificateSection(bytes: seq<Byte>) returns (section: Option<Section>)
    ensures section == match ReadSection(bytes) case None => None case Some(doc) => Some(Collect(doc.caKey, doc.subs))
  {
    hide ReadPayload, TakeText, Add;
    var reader := new KrlReader(bytes);
    var caKey := reader.String();
    if caKey.None? { return None; }
    var reserved := reader.String();
    if reserved.None? { return None; }
    ghost var body := reader.Rest();
    ghost var done: seq<Subsection> := [];
    PrependNothing(ReadSubs(body));
    var current := Section(caKey.value, [], [], {});
    while !reader.Empty()
      invariant reader.Valid() && fresh(reader)
      invariant ReadSubs(body) == Prepend(done, ReadSubs(reader.Rest()))
      invariant current == Collect(caKey.value, done)
      decreases |reader.Rest()|
    {
      ghost var before := reader.Rest();
      var kind := reader.U8();
      assert before[1..] == reader.Rest();
      var payload := reader.String();
      if payload.None? { return None; }
      TextShrinks(before[1..], payload.value, reader.Rest());
      var next := ParseSubsection(kind.value, payload.value, current);
      if next.None? { return None; }
      ghost var sub := ReadPayload(kind.value, payload.value).value;
      assert ReadSubs(before) == Prepend([sub], ReadSubs(reader.Rest()));
      PrependOne(done, sub, ReadSubs(reader.Rest()));
      assert (done + [sub])[..|done|] == done;
      done := done + [sub];
      current := next.value;
    }
    PrependToNothing(done);
    section := Some(current);
  }
}
