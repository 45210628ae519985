/** The certificate section of an OpenSSH key revocation list: its abstract form, its bytes, and reading them back. */
module KrlFormat {
  import opened Wrappers
  import opened Bytes
  import opened BigEndian
  import Utf8

  const MAX_SERIAL: nat := 0xFFFF_FFFF_FFFF_FFFF
  const TEXT_LIMIT: nat := 0x1_0000_0000

  // ----- length-prefixed text and fixed-width integers -----

  function Text(s: seq<Byte>): seq<Byte> {
    Fixed(|s|, 4) + s
  }

  function TakeBig(bytes: seq<Byte>, width: nat): Option<(nat, seq<Byte>)> {
    if |bytes| < width then None else Some((Value(bytes[..width]), bytes[width..]))
  }

  function TakeText(bytes: seq<Byte>): Option<(seq<Byte>, seq<Byte>)> {
    match TakeBig(bytes, 4)
    case None => None
    case Some((length, rest)) => if length > |rest| then None else Some((rest[..length], rest[length..]))
  }

  lemma TakesBig(bytes: seq<Byte>, width: nat, n: nat, rest: seq<Byte>)
    ensures TakeBig(bytes, width) == Some((n, rest)) <==> n < Power256(width) && bytes == Fixed(n, width) + rest
  {
    if TakeBig(bytes, width) == Some((n, rest)) {
      ValueBound(bytes[..width]);
      FixedValue(bytes[..width]);
      assert bytes == bytes[..width] + bytes[width..];
    }
    if n < Power256(width) && bytes == Fixed(n, width) + rest {
      ValueFixed(n, width);
      assert bytes[..width] == Fixed(n, width) && bytes[width..] == rest;
    }
  }

  lemma TakesText(bytes: seq<Byte>, s: seq<Byte>, rest: seq<Byte>)
    ensures TakeText(bytes) == Some((s, rest)) <==> |s| < TEXT_LIMIT && bytes == Text(s) + rest
  {
    assert Power256(4) == TEXT_LIMIT;
    if TakeText(bytes) == Some((s, rest)) {
      var (length, tail) := TakeBig(bytes, 4).value;
      TakesBig(bytes, 4, length, tail);
      assert tail == s + rest;
      assert bytes == Fixed(length, 4) + (s + rest) == Text(s) + rest;
    }
    if |s| < TEXT_LIMIT && bytes == Text(s) + rest {
      assert bytes == Fixed(|s|, 4) + (s + rest);
      TakesBig(bytes, 4, |s|, s + rest);
      assert (s + rest)[..|s|] == s && (s + rest)[|s|..] == rest;
    }
  }

  // ----- multiple-precision integers, section 5 of RFC 4251 -----

  /** The encoding of a non-negative integer: shortest form, with a zero byte in front when the top bit is set. */
  function Mpint(n: nat): seq<Byte> {
    var bytes := Minimal(n);
    if bytes != [] && bytes[0] >= 0x80 then [0] + bytes else bytes
  }

  /** The magnitude of an encoded integer, or nothing when it is negative or not in shortest form. A lone zero byte is
      let through as zero. */
  function PositiveMpint(encoded: seq<Byte>): Option<seq<Byte>> {
    if encoded != [] && encoded[0] >= 0x80 then None
    else if |encoded| > 1 && encoded[0] == 0 then
      if encoded[1] < 0x80 then None else Some(encoded[1..])
    else if encoded == [0] then Some([])
    else Some(encoded)
  }

  lemma MpintMeaning(encoded: seq<Byte>)
    ensures PositiveMpint(encoded).Some? <==> encoded == [0] || encoded == Mpint(Value(encoded))
    ensures PositiveMpint(encoded).Some? ==> PositiveMpint(encoded).value == Minimal(Value(encoded))
    ensures PositiveMpint(encoded).Some? ==> Value(PositiveMpint(encoded).value) == Value(encoded)
  {
    if encoded == [0] {
      LeadingZero([]);
      assert [0] + [] == encoded;
    } else if encoded != [] && encoded[0] == 0 {
      LeadingZero(encoded[1..]);
      assert [0] + encoded[1..] == encoded;
      ValueMinimal(Value(encoded));
      if encoded[1] >= 0x80 { MinimalValue(encoded[1..]); }
    } else {
      MinimalValue(encoded);
    }
  }

  // ----- subsections -----

  datatype Subsection =
    | Serials(list: seq<nat>)
    | Range(low: nat, high: nat)
    | Bitmap(offset: nat, mpint: seq<Byte>)
    | KeyIds(ids: seq<seq<Byte>>)
    | Extension(name: seq<Byte>, contents: seq<Byte>)

  const SERIALS: Byte := 0x20
  const RANGE: Byte := 0x21
  const BITMAP: Byte := 0x22
  const KEY_IDS: Byte := 0x23
  const EXTENSION: Byte := 0x39

  function TypeOf(sub: Subsection): Byte {
    match sub
    case Serials(_) => SERIALS
    case Range(_, _) => RANGE
    case Bitmap(_, _) => BITMAP
    case KeyIds(_) => KEY_IDS
    case Extension(_, _) => EXTENSION
  }

  function SerialBytes(list: seq<nat>): seq<Byte> {
    if list == [] then [] else Fixed(list[0], 8) + SerialBytes(list[1..])
  }

  function TextBytes(texts: seq<seq<Byte>>): seq<Byte> {
    if texts == [] then [] else Text(texts[0]) + TextBytes(texts[1..])
  }

  /** The bytes inside a subsection; an extension must be marked as not critical. */
  function Payload(sub: Subsection): seq<Byte> {
    match sub
    case Serials(list) => SerialBytes(list)
    case Range(low, high) => Fixed(low, 8) + Fixed(high, 8)
    case Bitmap(offset, mpint) => Fixed(offset, 8) + Text(mpint)
    case KeyIds(ids) => TextBytes(ids)
    case Extension(name, contents) => Text(name) + [0] + Text(contents)
  }

  /** Every bit set denotes a serial number between one and the largest. */
  ghost predicate Fits(offset: nat, bits: nat) {
    forall k: nat :: Bit(bits, k) ==> 0 < offset + k <= MAX_SERIAL
  }

  ghost predicate Utf8Text(s: seq<Byte>) {
    |s| < TEXT_LIMIT && Utf8.IsUtf8(s)
  }

  ghost predicate Good(sub: Subsection) {
    match sub
    case Serials(list) => forall n | n in list :: 0 < n <= MAX_SERIAL
    case Range(low, high) => 0 < low <= high <= MAX_SERIAL
    case Bitmap(offset, mpint) =>
      offset <= MAX_SERIAL && |mpint| < TEXT_LIMIT && (mpint == [0] || mpint == Mpint(Value(mpint))) && Fits(offset, Value(mpint))
    case KeyIds(ids) => forall s | s in ids :: Utf8Text(s)
    case Extension(name, contents) => Utf8Text(name) && |contents| < TEXT_LIMIT
  }

  datatype SectionDoc = SectionDoc(caKey: seq<Byte>, reserved: seq<Byte>, subs: seq<Subsection>)

  function SubsectionBytes(subs: seq<Subsection>): seq<Byte> {
    if subs == [] then [] else [TypeOf(subs[0])] + Text(Payload(subs[0])) + SubsectionBytes(subs[1..])
  }

  function SectionBytes(doc: SectionDoc): seq<Byte> {
    Text(doc.caKey) + Text(doc.reserved) + SubsectionBytes(doc.subs)
  }

  ghost predicate GoodSubs(subs: seq<Subsection>) {
    forall sub | sub in subs :: Good(sub) && |Payload(sub)| < TEXT_LIMIT
  }

  ghost predicate GoodSection(doc: SectionDoc) {
    |doc.caKey| < TEXT_LIMIT && |doc.reserved| < TEXT_LIMIT && GoodSubs(doc.subs)
  }

  // ----- reading -----

  function ReadSerials(data: seq<Byte>): Option<seq<nat>> {
    if data == [] then Some([])
    else match TakeBig(data, 8)
      case None => None
      case Some((n, rest)) =>
        if n == 0 || ReadSerials(rest).None? then None else Some([n] + ReadSerials(rest).value)
  }

  ghost function ReadTexts(data: seq<Byte>): Option<seq<seq<Byte>>>
    decreases |data|
  {
    if data == [] then Some([])
    else match TakeText(data)
      case None => None
      case Some((s, rest)) =>
        if |rest| >= |data| || !Utf8.IsUtf8(s) || ReadTexts(rest).None? then None else Some([s] + ReadTexts(rest).value)
  }

  function ReadRange(data: seq<Byte>): Option<Subsection> {
    match TakeBig(data, 8)
    case None => None
    case Some((low, rest)) =>
      match TakeBig(rest, 8)
      case None => None
      case Some((high, end)) => if low == 0 || low > high || end != [] then None else Some(Range(low, high))
  }

  ghost function ReadBitmap(data: seq<Byte>): Option<Subsection> {
    match TakeBig(data, 8)
    case None => None
    case Some((offset, rest)) =>
      match TakeText(rest)
      case None => None
      case Some((mpint, end)) =>
        if PositiveMpint(mpint).None? || !Fits(offset, Value(mpint)) || end != [] then None else Some(Bitmap(offset, mpint))
  }

  ghost function ReadExtension(data: seq<Byte>): Option<Subsection> {
    match TakeText(data)
    case None => None
    case Some((name, rest)) =>
      if !Utf8.IsUtf8(name) || rest == [] then None
      else match TakeText(rest[1..])
        case None => None
        case Some((contents, end)) => if rest[0] != 0 || end != [] then None else Some(Extension(name, contents))
  }

  ghost function ReadPayload(kind: Byte, data: seq<Byte>): Option<Subsection> {
    if kind == SERIALS then
      match ReadSerials(data) case None => None case Some(list) => Some(Serials(list))
    else if kind == RANGE then ReadRange(data)
    else if kind == BITMAP then ReadBitmap(data)
    else if kind == KEY_IDS then
      match ReadTexts(data) case None => None case Some(ids) => Some(KeyIds(ids))
    else if kind == EXTENSION then ReadExtension(data)
    else None
  }

  ghost function ReadSubs(bytes: seq<Byte>): Option<seq<Subsection>>
    decreases |bytes|
  {
    if bytes == [] then Some([])
    else match TakeText(bytes[1..])
      case None => None
      case Some((data, rest)) =>
        var sub := ReadPayload(bytes[0], data);
        if |rest| >= |bytes| || sub.None? || ReadSubs(rest).None? then None else Some([sub.value] + ReadSubs(rest).value)
  }

  ghost function ReadSection(bytes: seq<Byte>): Option<SectionDoc> {
    match TakeText(bytes)
    case None => None
    case Some((caKey, rest)) =>
      match TakeText(rest)
      case None => None
      case Some((reserved, body)) =>
        match ReadSubs(body) case None => None case Some(subs) => Some(SectionDoc(caKey, reserved, subs))
  }

  // ----- reading is the inverse of writing -----

  lemma {:induction false} SerialsRoundTrip(data: seq<Byte>, list: seq<nat>)
    ensures ReadSerials(data) == Some(list) <==> (forall n | n in list :: 0 < n <= MAX_SERIAL) && SerialBytes(list) == data
    decreases |data| + |list|
  {
    assert Power256(8) == MAX_SERIAL + 1;
    if data == [] {
      if list != [] { assert |SerialBytes(list)| >= 8; }
    } else {
      var taken := TakeBig(data, 8);
      if taken.Some? && ReadSerials(data) == Some(list) {
        var (n, rest) := taken.value;
        TakesBig(data, 8, n, rest);
        SerialsRoundTrip(rest, list[1..]);
        assert list == [n] + list[1..];
      }
      if (forall n | n in list :: 0 < n <= MAX_SERIAL) && SerialBytes(list) == data {
        assert list[0] in list;
        TakesBig(data, 8, list[0], SerialBytes(list[1..]));
        SerialsRoundTrip(SerialBytes(list[1..]), list[1..]);
        assert list == [list[0]] + list[1..];
        assert TakeBig(data, 8) == Some((list[0], SerialBytes(list[1..])));
        assert forall n | n in list[1..] :: n in list;
        assert ReadSerials(SerialBytes(list[1..])) == Some(list[1..]);
      }
    }
  }

  lemma TextShrinks(data: seq<Byte>, s: seq<Byte>, rest: seq<Byte>)
    requires TakeText(data) == Some((s, rest))
    ensures |rest| < |data|
  {
  }

  lemma {:induction false} TextsRoundTrip(data: seq<Byte>, texts: seq<seq<Byte>>)
    ensures ReadTexts(data) == Some(texts) <==> (forall s | s in texts :: Utf8Text(s)) && TextBytes(texts) == data
    decreases |data| + |texts|
  {
    hide Utf8.IsUtf8, TakeText, Text;
    if data == [] {
      if texts != [] { TextIsNotEmpty(texts[0]); }
    } else {
      var taken := TakeText(data);
      if taken.Some? && ReadTexts(data) == Some(texts) {
        var (s, rest) := taken.value;
        TakesText(data, s, rest);
        TextsRoundTrip(rest, texts[1..]);
        assert texts == [s] + texts[1..];
      }
      if (forall s | s in texts :: Utf8Text(s)) && TextBytes(texts) == data {
        assert texts[0] in texts;
        TakesText(data, texts[0], TextBytes(texts[1..]));
        TextShrinks(data, texts[0], TextBytes(texts[1..]));
        TextsRoundTrip(TextBytes(texts[1..]), texts[1..]);
        assert texts == [texts[0]] + texts[1..];
      }
    }
  }

  lemma TextIsNotEmpty(s: seq<Byte>)
    ensures |Text(s)| >= 4
  {
  }

  lemma RangeRoundTrip(data: seq<Byte>, sub: Subsection)
    ensures ReadRange(data) == Some(sub) <==> sub.Range? && Good(sub) && Payload(sub) == data
  {
    hide TakeBig, Fixed;
    assert Power256(8) == MAX_SERIAL + 1;
    if ReadRange(data) == Some(sub) {
      var (low, rest) := TakeBig(data, 8).value;
      var (high, end) := TakeBig(rest, 8).value;
      TakesBig(data, 8, low, rest);
      TakesBig(rest, 8, high, []);
      assert Fixed(high, 8) + [] == Fixed(high, 8);
    }
    if sub.Range? && Good(sub) && Payload(sub) == data {
      TakesBig(data, 8, sub.low, Fixed(sub.high, 8));
      assert Fixed(sub.high, 8) + [] == Fixed(sub.high, 8);
      TakesBig(Fixed(sub.high, 8), 8, sub.high, []);
    }
  }

  lemma BitmapRoundTrip(data: seq<Byte>, sub: Subsection)
    ensures ReadBitmap(data) == Some(sub) <==> sub.Bitmap? && Good(sub) && Payload(sub) == data
  {
    hide TakeBig, TakeText, Fixed, Text, Fits, PositiveMpint, Mpint;
    assert Power256(8) == MAX_SERIAL + 1;
    if ReadBitmap(data) == Some(sub) {
      var (offset, rest) := TakeBig(data, 8).value;
      var (mpint, end) := TakeText(rest).value;
      TakesBig(data, 8, offset, rest);
      TakesText(rest, mpint, []);
      MpintMeaning(mpint);
      assert Text(mpint) + [] == Text(mpint);
    }
    if sub.Bitmap? && Good(sub) && Payload(sub) == data {
      TakesBig(data, 8, sub.offset, Text(sub.mpint));
      assert Text(sub.mpint) + [] == Text(sub.mpint);
      TakesText(Text(sub.mpint), sub.mpint, []);
      MpintMeaning(sub.mpint);
    }
  }

  lemma ExtensionRoundTrip(data: seq<Byte>, sub: Subsection)
    ensures ReadExtension(data) == Some(sub) <==> sub.Extension? && Good(sub) && Payload(sub) == data
  {
    hide TakeText, Text, Utf8.IsUtf8;
    if ReadExtension(data) == Some(sub) {
      var (name, rest) := TakeText(data).value;
      var (contents, end) := TakeText(rest[1..]).value;
      TakesText(data, name, rest);
      TakesText(rest[1..], contents, []);
      assert rest == [0] + rest[1..];
      assert Text(contents) + [] == Text(contents);
      assert Text(name) + ([0] + Text(contents)) == Text(name) + [0] + Text(contents);
    }
    if sub.Extension? && Good(sub) && Payload(sub) == data {
      var rest := [0] + Text(sub.contents);
      assert data == Text(sub.name) + rest;
      TakesText(data, sub.name, rest);
      assert rest[1..] == Text(sub.contents);
      assert Text(sub.contents) + [] == Text(sub.contents);
      TakesText(rest[1..], sub.contents, []);
    }
  }

  lemma PayloadRoundTrip(kind: Byte, data: seq<Byte>, sub: Subsection)
    ensures ReadPayload(kind, data) == Some(sub) <==> TypeOf(sub) == kind && Good(sub) && Payload(sub) == data
  {
    hide ReadSerials, ReadTexts, ReadRange, ReadBitmap, ReadExtension, Fits, Mpint, Text, Fixed, SerialBytes, TextBytes;
    RangeRoundTrip(data, sub);
    BitmapRoundTrip(data, sub);
    ExtensionRoundTrip(data, sub);
    if sub.Serials? { SerialsRoundTrip(data, sub.list); }
    if sub.KeyIds? { TextsRoundTrip(data, sub.ids); }
  }

  lemma {:induction false} SubsRoundTrip(bytes: seq<Byte>, subs: seq<Subsection>)
    ensures ReadSubs(bytes) == Some(subs) <==> GoodSubs(subs) && SubsectionBytes(subs) == bytes
    decreases |bytes| + |subs|
  {
    hide ReadPayload, TakeText, Text, Good, Payload, TypeOf;
    if bytes == [] {
    } else {
      var taken := TakeText(bytes[1..]);
      if taken.Some? && ReadSubs(bytes) == Some(subs) {
        var (data, rest) := taken.value;
        TakesText(bytes[1..], data, rest);
        PayloadRoundTrip(bytes[0], data, subs[0]);
        SubsRoundTrip(rest, subs[1..]);
        assert subs == [subs[0]] + subs[1..];
        assert bytes == [bytes[0]] + bytes[1..];
        assert [bytes[0]] + (Text(data) + rest) == [bytes[0]] + Text(data) + rest;
      }
      if GoodSubs(subs) && SubsectionBytes(subs) == bytes {
        var data, rest := Payload(subs[0]), SubsectionBytes(subs[1..]);
        assert bytes[1..] == Text(data) + rest;
        TakesText(bytes[1..], data, rest);
        TextShrinks(bytes[1..], data, rest);
        PayloadRoundTrip(bytes[0], data, subs[0]);
        SubsRoundTrip(rest, subs[1..]);
        assert subs == [subs[0]] + subs[1..];
      }
    }
  }

  /** Main format result: reading accepts exactly the encodings of valid sections, and returns the one section that a
      byte string encodes. */
  lemma SectionRoundTrip(bytes: seq<Byte>, doc: SectionDoc)
    ensures ReadSection(bytes) == Some(doc) <==> GoodSection(doc) && SectionBytes(doc) == bytes
  {
    hide TakeText, Text, ReadSubs, SubsectionBytes, GoodSubs;
    if ReadSection(bytes) == Some(doc) {
      var (caKey, rest) := TakeText(bytes).value;
      var (reserved, body) := TakeText(rest).value;
      TakesText(bytes, caKey, rest);
      TakesText(rest, reserved, body);
      SubsRoundTrip(body, doc.subs);
      assert Text(caKey) + (Text(reserved) + body) == Text(caKey) + Text(reserved) + body;
    }
    if GoodSection(doc) && SectionBytes(doc) == bytes {
      var body := SubsectionBytes(doc.subs);
      var rest := Text(doc.reserved) + body;
      assert bytes == Text(doc.caKey) + rest;
      TakesText(bytes, doc.caKey, rest);
      TakesText(rest, doc.reserved, body);
      SubsRoundTrip(body, doc.subs);
    }
  }
}
