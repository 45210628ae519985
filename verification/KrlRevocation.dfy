/** Looking a certificate up in a parsed revocation list, and what the answer means for the list's bytes. */
module KrlRevocation {
  import opened Wrappers
  import opened Bytes
  import opened BigEndian
  import opened KrlFormat
  import opened KrlParser

  datatype Reason = SubjectKeyRevoked | SigningCaRevoked | KeyIdRevoked | SerialRevoked

  /** The parsed list. The two digests are functions a caller supplies; a digest that fails matches nothing. */
  datatype KrlData = KrlData(sections: seq<Section>, keys: set<seq<Byte>>, sha1: set<seq<Byte>>, sha256: set<seq<Byte>>)

  datatype Digests = Digests(sha1: seq<Byte> -> Option<seq<Byte>>, sha256: seq<Byte> -> Option<seq<Byte>>)

  predicate KeyRevoked(krl: KrlData, digests: Digests, key: seq<Byte>) {
    || key in krl.keys
    || (digests.sha1(key).Some? && digests.sha1(key).value in krl.sha1)
    || (digests.sha256(key).Some? && digests.sha256(key).value in krl.sha256)
  }

  predicate Applies(section: Section, ca: seq<Byte>) {
    section.caKey == [] || section.caKey == ca
  }

  predicate InBitmap(bitmap: KrlBitmap, serial: nat) {
    if serial < bitmap.offset then false
    else
      var index := serial - bitmap.offset;
      if index / 8 >= |bitmap.bits| then false
      else Bit(bitmap.bits[|bitmap.bits| - 1 - index / 8], index % 8)
  }

  ghost predicate SerialListed(section: Section, serial: nat) {
    || (exists range :: range in section.ranges && range.0 <= serial <= range.1)
    || (exists bitmap :: bitmap in section.bitmaps && InBitmap(bitmap, serial))
  }

  method AnyRange(ranges: seq<(nat, nat)>, serial: nat) returns (found: bool)
    ensures found <==> exists range :: range in ranges && range.0 <= serial <= range.1
  {
    var i := 0;
    while i < |ranges|
      invariant 0 <= i <= |ranges|
      invariant forall range | range in ranges[..i] :: !(range.0 <= serial <= range.1)
    {
      if ranges[i].0 <= serial <= ranges[i].1 { return true; }
      i := i + 1;
    }
    assert ranges[..i] == ranges;
    found := false;
  }

  method AnyBitmap(bitmaps: seq<KrlBitmap>, serial: nat) returns (found: bool)
    ensures found <==> exists bitmap :: bitmap in bitmaps && InBitmap(bitmap, serial)
  {
    var i := 0;
    while i < |bitmaps|
      invariant 0 <= i <= |bitmaps|
      invariant forall bitmap | bitmap in bitmaps[..i] :: !InBitmap(bitmap, serial)
    {
      if InBitmap(bitmaps[i], serial) { return true; }
      i := i + 1;
    }
    assert bitmaps[..i] == bitmaps;
    found := false;
  }

  ghost predicate Hits(section: Section, ca: seq<Byte>, keyId: seq<Byte>, serial: nat) {
    Applies(section, ca) && (keyId in section.keyIds || (serial != 0 && SerialListed(section, serial)))
  }

  /** The first section that revokes the certificate; a key ID counts before a serial number of the same section. */
  ghost predicate FirstHit(sections: seq<Section>, i: nat, ca: seq<Byte>, keyId: seq<Byte>, serial: nat) {
    && i < |sections| && Hits(sections[i], ca, keyId, serial)
    && forall j | 0 <= j < i :: !Hits(sections[j], ca, keyId, serial)
  }

  ghost predicate Answers(krl: KrlData, digests: Digests, subject: seq<Byte>, ca: seq<Byte>, keyId: seq<Byte>,
                          serial: nat, reason: Option<Reason>) {
    match reason
    case Some(SubjectKeyRevoked) => KeyRevoked(krl, digests, subject)
    case Some(SigningCaRevoked) => !KeyRevoked(krl, digests, subject) && KeyRevoked(krl, digests, ca)
    case Some(KeyIdRevoked) =>
      && !KeyRevoked(krl, digests, subject) && !KeyRevoked(krl, digests, ca)
      && exists i: nat :: FirstHit(krl.sections, i, ca, keyId, serial) && keyId in krl.sections[i].keyIds
    case Some(SerialRevoked) =>
      && !KeyRevoked(krl, digests, subject) && !KeyRevoked(krl, digests, ca)
      && exists i: nat :: FirstHit(krl.sections, i, ca, keyId, serial) && keyId !in krl.sections[i].keyIds
    case None =>
      && !KeyRevoked(krl, digests, subject) && !KeyRevoked(krl, digests, ca)
      && forall i | 0 <= i < |krl.sections| :: !Hits(krl.sections[i], ca, keyId, serial)
  }

  method RevokedReason(krl: KrlData, digests: Digests, subject: seq<Byte>, ca: seq<Byte>, keyId: seq<Byte>, serial: nat)
    returns (reason: Option<Reason>)
    ensures Answers(krl, digests, subject, ca, keyId, serial, reason)
  {
    if KeyRevoked(krl, digests, subject) { return Some(SubjectKeyRevoked); }
    if KeyRevoked(krl, digests, ca) { return Some(SigningCaRevoked); }
    var i := 0;
    while i < |krl.sections|
      invariant 0 <= i <= |krl.sections|
      invariant forall j | 0 <= j < i :: !Hits(krl.sections[j], ca, keyId, serial)
    {
      var section := krl.sections[i];
      if section.caKey == [] || section.caKey == ca {
        if keyId in section.keyIds {
          assert FirstHit(krl.sections, i, ca, keyId, serial);
          return Some(KeyIdRevoked);
        }
        if serial != 0 {
          var ranged := AnyRange(section.ranges, serial);
          if ranged {
            assert FirstHit(krl.sections, i, ca, keyId, serial);
            return Some(SerialRevoked);
          }
          var mapped := AnyBitmap(section.bitmaps, serial);
          if mapped {
            assert FirstHit(krl.sections, i, ca, keyId, serial);
            return Some(SerialRevoked);
          }
        }
      }
      i := i + 1;
    }
    reason := None;
  }

  // ----- what the list denotes -----

  /** The serial numbers a subsection revokes: the listed ones, the range, or offset+k for every set bit k. */
  ghost predicate Denotes(sub: Subsection, serial: nat) {
    match sub
    case Serials(list) => serial in list
    case Range(low, high) => low <= serial <= high
    case Bitmap(offset, mpint) => serial >= offset && Bit(Value(mpint), serial - offset)
    case KeyIds(_) => false
    case Extension(_, _) => false
  }

  ghost predicate DenotedBy(subs: seq<Subsection>, serial: nat) {
    exists sub :: sub in subs && Denotes(sub, serial)
  }

  ghost predicate NamedBy(subs: seq<Subsection>, keyId: seq<Byte>) {
    exists sub :: sub in subs && sub.KeyIds? && keyId in sub.ids
  }

  /** Every denoted serial is a number from one to the largest. */
  lemma DenotedIsASerial(sub: Subsection, serial: nat)
    requires Good(sub) && Denotes(sub, serial)
    ensures 0 < serial <= MAX_SERIAL
  {
    if sub.Bitmap? { assert Fits(sub.offset, Value(sub.mpint)); }
  }

  lemma BitmapFinds(offset: nat, bits: seq<Byte>, serial: nat)
    ensures InBitmap(KrlBitmap(offset, bits), serial) <==> serial >= offset && Bit(Value(bits), serial - offset)
  {
    if serial >= offset {
      var index := serial - offset;
      if index / 8 < |bits| { BitOfByte(bits, index / 8, index % 8); }
      else { BitsEnd(bits, index); }
    }
  }

  lemma AddedSerials(section: Section, sub: Subsection, serial: nat)
    requires Good(sub)
    ensures SerialListed(Add(section, sub), serial) <==> SerialListed(section, serial) || Denotes(sub, serial)
  {
    var added := Add(section, sub);
    match sub
    case Serials(list) =>
      if serial in list {
        var i :| 0 <= i < |list| && list[i] == serial;
        assert Singles(list)[i] == (serial, serial);
        assert (serial, serial) in added.ranges;
      }
    case Range(low, high) => assert (low, high) in added.ranges;
    case Bitmap(offset, mpint) =>
      MpintMeaning(mpint);
      var bitmap := KrlBitmap(offset, PositiveMpint(mpint).value);
      BitmapFinds(offset, bitmap.bits, serial);
      assert bitmap in added.bitmaps;
    case _ =>
  }

  lemma {:induction false} CollectedSerials(caKey: seq<Byte>, subs: seq<Subsection>, serial: nat)
    requires GoodSubs(subs)
    ensures SerialListed(Collect(caKey, subs), serial) <==> DenotedBy(subs, serial)
  {
    hide Add, Denotes, Good;
    if subs == [] {
    } else {
      var head, last := subs[..|subs| - 1], subs[|subs| - 1];
      assert last in subs;
      assert subs == head + [last];
      CollectedSerials(caKey, head, serial);
      AddedSerials(Collect(caKey, head), last, serial);
    }
  }

  lemma {:induction false} CollectedNames(caKey: seq<Byte>, subs: seq<Subsection>, keyId: seq<Byte>)
    ensures Collect(caKey, subs).caKey == caKey
    ensures keyId in Collect(caKey, subs).keyIds <==> NamedBy(subs, keyId)
  {
    if subs != [] {
      var head, last := subs[..|subs| - 1], subs[|subs| - 1];
      assert subs == head + [last];
      CollectedNames(caKey, head, keyId);
    }
  }

  /** Parsed from these bytes, in order. */
  ghost predicate ParsedFrom(sections: seq<Section>, docs: seq<SectionDoc>, bytes: seq<seq<Byte>>) {
    && |sections| == |docs| == |bytes|
    && (forall i | 0 <= i < |bytes| :: ReadSection(bytes[i]) == Some(docs[i]))
    && (forall i | 0 <= i < |bytes| :: sections[i] == Collect(docs[i].caKey, docs[i].subs))
  }

  ghost predicate ForCa(doc: SectionDoc, ca: seq<Byte>) {
    doc.caKey == [] || doc.caKey == ca
  }

  lemma HitsMeans(sections: seq<Section>, docs: seq<SectionDoc>, bytes: seq<seq<Byte>>, i: nat, ca: seq<Byte>,
                  keyId: seq<Byte>, serial: nat)
    requires ParsedFrom(sections, docs, bytes) && i < |sections|
    ensures Hits(sections[i], ca, keyId, serial)
      <==> ForCa(docs[i], ca) && (NamedBy(docs[i].subs, keyId) || (serial != 0 && DenotedBy(docs[i].subs, serial)))
    ensures keyId in sections[i].keyIds <==> NamedBy(docs[i].subs, keyId)
    ensures GoodSubs(docs[i].subs)
  {
    hide Collect, SerialListed, ReadSection, SectionBytes, GoodSubs;
    SectionRoundTrip(bytes[i], docs[i]);
    CollectedSerials(docs[i].caKey, docs[i].subs, serial);
    CollectedNames(docs[i].caKey, docs[i].subs, keyId);
  }

  /** Main revocation result: a certificate whose keys and key ID are not revoked is reported revoked, by serial, exactly
      when its non-zero serial lies in the union of what the sections for its CA or for any CA denote. */
  lemma RevokedBySerialExactly(krl: KrlData, digests: Digests, subject: seq<Byte>, ca: seq<Byte>, keyId: seq<Byte>,
                               serial: nat, reason: Option<Reason>, docs: seq<SectionDoc>, bytes: seq<seq<Byte>>)
    requires Answers(krl, digests, subject, ca, keyId, serial, reason) && ParsedFrom(krl.sections, docs, bytes)
    requires !KeyRevoked(krl, digests, subject) && !KeyRevoked(krl, digests, ca)
    requires forall i | 0 <= i < |docs| && ForCa(docs[i], ca) :: !NamedBy(docs[i].subs, keyId)
    ensures reason == Some(SerialRevoked)
      <==> serial != 0 && exists i :: 0 <= i < |docs| && ForCa(docs[i], ca) && DenotedBy(docs[i].subs, serial)
    ensures reason.None? || reason == Some(SerialRevoked)
  {
    hide Hits, ForCa, NamedBy, DenotedBy, ParsedFrom, KeyRevoked;
    SameLength(krl.sections, docs, bytes);
    if reason == Some(KeyIdRevoked) || reason == Some(SerialRevoked) {
      var i: nat :| FirstHit(krl.sections, i, ca, keyId, serial)
                    && (keyId in krl.sections[i].keyIds <==> reason == Some(KeyIdRevoked));
      HitsMeans(krl.sections, docs, bytes, i, ca, keyId, serial);
    }
    forall i: nat | i < |docs|
      ensures Hits(krl.sections[i], ca, keyId, serial)
        <==> ForCa(docs[i], ca) && (NamedBy(docs[i].subs, keyId) || (serial != 0 && DenotedBy(docs[i].subs, serial)))
      ensures keyId in krl.sections[i].keyIds <==> NamedBy(docs[i].subs, keyId)
      ensures Hits(krl.sections[i], ca, keyId, serial) ==> ForCa(docs[i], ca)
    {
      HitsMeans(krl.sections, docs, bytes, i, ca, keyId, serial);
    }
  }

  lemma SameLength(sections: seq<Section>, docs: seq<SectionDoc>, bytes: seq<seq<Byte>>)
    requires ParsedFrom(sections, docs, bytes)
    ensures |sections| == |docs| == |bytes|
  {
  }

  /** No accepted section denotes serial zero or a number past the largest serial. */
  lemma AcceptedSerialsAreInRange(bytes: seq<Byte>, doc: SectionDoc, serial: nat)
    requires ReadSection(bytes) == Some(doc) && DenotedBy(doc.subs, serial)
    ensures 0 < serial <= MAX_SERIAL
  {
    hide ReadSection, SectionBytes, Good, Denotes;
    SectionRoundTrip(bytes, doc);
    var sub :| sub in doc.subs && Denotes(sub, serial);
    assert GoodSubs(doc.subs);
    DenotedIsASerial(sub, serial);
  }
}
