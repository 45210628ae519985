/** The parsers of IP addresses and prefixes. */
module IpAddress {
  import opened Wrappers
  import opened Bytes
  import opened TextSplit

  // ----- four bytes -----

  /** One byte in decimal without leading zeros. */
  function Octet(s: string): Option<Byte> {
    if s == [] || |s| > 3 || (|s| > 1 && s[0] == '0') then None
    else
      var parsed := FromChars(s, 10);
      if parsed.None? || parsed.value > 255 then None else Some(parsed.value)
  }

  lemma OctetMeans(s: string, b: Byte)
    ensures Octet(s) == Some(b) <==> s == Decimal(b)
  {
    if Octet(s) == Some(b) { ReadsDecimal(s); }
    DecimalReads(b);
    ShortDecimal(b);
  }

  function Octets(parts: seq<string>): Option<seq<Byte>> {
    if parts == [] then Some([])
    else
      var before, last := Octets(parts[..|parts| - 1]), Octet(parts[|parts| - 1]);
      if before.None? || last.None? then None else Some(before.value + [last.value])
  }

  function Decimals(bytes: seq<Byte>): (parts: seq<string>)
    ensures |parts| == |bytes|
  {
    if bytes == [] then [] else Decimals(bytes[..|bytes| - 1]) + [Decimal(bytes[|bytes| - 1])]
  }

  lemma {:induction false} OctetsMeans(parts: seq<string>, bytes: seq<Byte>)
    ensures Octets(parts) == Some(bytes) <==> parts == Decimals(bytes)
  {
    hide Octet;
    if parts != [] && bytes != [] {
      OctetsMeans(parts[..|parts| - 1], bytes[..|bytes| - 1]);
      OctetMeans(parts[|parts| - 1], bytes[|bytes| - 1]);
      assert parts == parts[..|parts| - 1] + [parts[|parts| - 1]];
      assert bytes == bytes[..|bytes| - 1] + [bytes[|bytes| - 1]];
    }
  }

  /** The dotted form of an address. */
  function Dotted(bytes: seq<Byte>): string
    requires |bytes| == 4
  {
    Join(Decimals(bytes), '.')
  }

  function Ipv4(s: string): Option<seq<Byte>> {
    var parts := Split(s, '.');
    if |parts| != 4 then None else Octets(parts)
  }

  lemma {:induction false} DecimalsFree(bytes: seq<Byte>)
    ensures Free(Decimals(bytes), '.')
  {
    if bytes != [] {
      DecimalsFree(bytes[..|bytes| - 1]);
      DecimalReads(bytes[|bytes| - 1]);
    }
  }

  /** An address text is accepted exactly when it is the dotted form of the address it is read as. */
  lemma Ipv4RoundTrip(s: string, bytes: seq<Byte>)
    ensures Ipv4(s) == Some(bytes) <==> |bytes| == 4 && s == Dotted(bytes)
  {
    hide Octets, Decimals, Split, Join;
    var parts := Split(s, '.');
    OctetsMeans(parts, bytes);
    SplitIsTheOnlyWay(s, '.', parts);
    if |bytes| == 4 {
      DecimalsFree(bytes);
      SplitIsTheOnlyWay(s, '.', Decimals(bytes));
    }
  }

  lemma {:induction false} OctetsPrefix(parts: seq<string>, i: nat)
    requires i <= |parts| && Octets(parts).Some?
    ensures Octets(parts[..i]).Some?
  {
    if i < |parts| {
      assert parts[..|parts| - 1][..i] == parts[..i];
      OctetsPrefix(parts[..|parts| - 1], i);
    } else {
      assert parts[..i] == parts;
    }
  }

  method ParseIpv4(value: string) returns (address: Option<seq<Byte>>)
    ensures address == Ipv4(value)
  {
    hide Octet, Split, PartStarts;
    var bytes: seq<Byte> := [];
    ghost var parts := Split(value, '.');
    FirstPart(value, '.');
    var start, index := 0, 0;
    while index < 4
      invariant 0 <= index <= 4 && 0 <= start <= |value| && index <= |parts|
      invariant index < 4 ==> PartStarts(value, '.', index, start)
      invariant Octets(parts[..index]) == Some(bytes)
      invariant index == 4 ==> |parts| == 4 && start == |value|
    {
      NextPart(value, '.', index, start);
      PartExists(value, '.', index, start);
      var end := Find(value, '.', start);
      if (index < 3) == (end == |value|) {
        if end < |value| { PartExists(value, '.', index + 1, end + 1); }
        return None;
      }
      OneOctetMore(parts, index);
      var octet := Octet(value[start..end]);
      if octet.None? { return None; }
      bytes := bytes + [octet.value];
      if end < |value| { PartExists(value, '.', index + 1, end + 1); }
      start := if end == |value| then |value| else end + 1;
      index := index + 1;
    }
    assert parts[..4] == parts;
    address := Some(bytes);
  }

  lemma PartExists(s: string, c: char, index: nat, start: nat)
    requires PartStarts(s, c, index, start)
    ensures index < |Split(s, c)| && start <= |s|
  {
  }

  lemma OneOctetMore(parts: seq<string>, index: nat)
    requires index < |parts|
    ensures Octets(parts[..index + 1])
      == if Octets(parts[..index]).None? || Octet(parts[index]).None? then None
         else Some(Octets(parts[..index]).value + [Octet(parts[index]).value])
    ensures Octet(parts[index]).None? ==> Octets(parts).None?
  {
    hide Octet;
    assert parts[..index + 1][..index] == parts[..index];
    if Octets(parts).Some? { OctetsPrefix(parts, index + 1); }
  }

  // ----- a prefix length -----

  /** A text with exactly one slash, before which an address and after which a length stand. */
  function Prefix(s: string, limit: nat): Option<nat> {
    var parsed := FromChars(s, 10);
    if parsed.None? || parsed.value > limit then None else parsed
  }

  function Ipv4Cidr(s: string): Option<(seq<Byte>, nat)> {
    var parts := Split(s, '/');
    if |parts| != 2 || Ipv4(parts[0]).None? || Prefix(parts[1], 32).None? then None
    else Some((Ipv4(parts[0]).value, Prefix(parts[1], 32).value))
  }

  function CutOnce(s: string): Option<(string, string)> {
    var slash := Find(s, '/', 0);
    if slash == |s| || Find(s, '/', slash + 1) < |s| then None else Some((s[..slash], s[slash + 1..]))
  }

  lemma CutsOnce(s: string)
    ensures CutOnce(s).Some? <==> |Split(s, '/')| == 2
    ensures CutOnce(s).Some? ==> Split(s, '/') == [CutOnce(s).value.0, CutOnce(s).value.1]
  {
    var slash := Find(s, '/', 0);
    if slash < |s| {
      PartsAhead(s, '/', slash + 1);
    }
  }

  method ParseIpv4Cidr(value: string) returns (parsed: Option<(seq<Byte>, nat)>)
    ensures parsed == Ipv4Cidr(value)
  {
    hide Split, FromChars;
    CutsOnce(value);
    var cut := CutOnce(value);
    if cut.None? { return None; }
    var address := ParseIpv4(cut.value.0);
    if address.None? { return None; }
    if cut.value.1 == [] {
      NoNumber();
      return None;
    }
    var prefix := FromChars(cut.value.1, 10);
    if prefix.None? || prefix.value > 32 { return None; }
    parsed := Some((address.value, prefix.value));
  }

  lemma NoNumber()
    ensures FromChars([], 10).None?
  {
  }
}
