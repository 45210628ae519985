/** The IPv6 scanner, and matching an address against a prefix byte by byte. */
module IpPrefix {
  import opened Wrappers
  import opened Bytes
  import opened BigEndian
  import opened TextSplit
  import opened IpAddress
  import opened Ipv6Address

  // ----- the IPv6 scanner -----

  lemma GroupsStep(tokens: seq<string>, i: nat, allowTail: bool)
    requires i < |tokens|
    ensures Groups(tokens[i..], allowTail)
      == var first, rest := TokenGroups(tokens[i], |tokens| == i + 1, allowTail), Groups(tokens[i + 1..], allowTail);
         if first.None? || rest.None? then None else Some(first.value + rest.value)
  {
    hide TokenGroups;
    assert tokens[i..][0] == tokens[i] && tokens[i..][1..] == tokens[i + 1..];
  }

  /** The groups read so far and those still to be read. */
  ghost predicate ReadSoFar(tokens: seq<string>, i: nat, allowTail: bool, groups: seq<nat>) {
    && i <= |tokens|
    && Groups(tokens, allowTail)
       == match Groups(tokens[i..], allowTail) case None => None case Some(rest) => Some(groups + rest)
  }

  lemma ReadNothing(tokens: seq<string>, allowTail: bool)
    ensures ReadSoFar(tokens, 0, allowTail, [])
  {
    hide Groups;
    assert tokens[0..] == tokens;
    if Groups(tokens, allowTail).Some? { assert [] + Groups(tokens, allowTail).value == Groups(tokens, allowTail).value; }
  }

  lemma ReadOne(tokens: seq<string>, i: nat, allowTail: bool, groups: seq<nat>)
    requires ReadSoFar(tokens, i, allowTail, groups) && i < |tokens|
    ensures var more := TokenGroups(tokens[i], |tokens| == i + 1, allowTail);
            && (more.None? ==> Groups(tokens, allowTail).None?)
            && (more.Some? ==> ReadSoFar(tokens, i + 1, allowTail, groups + more.value))
  {
    hide TokenGroups;
    GroupsStep(tokens, i, allowTail);
    var more, rest := TokenGroups(tokens[i], |tokens| == i + 1, allowTail), Groups(tokens[i + 1..], allowTail);
    if more.Some? && rest.Some? {
      assert groups + (more.value + rest.value) == groups + more.value + rest.value;
    }
  }

  lemma ReadAll(tokens: seq<string>, allowTail: bool, groups: seq<nat>)
    requires ReadSoFar(tokens, |tokens|, allowTail, groups)
    ensures Groups(tokens, allowTail) == Some(groups)
  {
    assert tokens[|tokens|..] == [];
    assert groups + [] == groups;
  }

  method ParseToken(token: string, last: bool, allowTail: bool) returns (groups: Option<seq<nat>>)
    ensures groups == TokenGroups(token, last, allowTail)
  {
    if token == "" { return None; }
    if '.' in token {
      if !allowTail || !last { return None; }
      var address := ParseIpv4(token);
      if address.None? { return None; }
      Ipv4Length(token);
      groups := Some(PairGroups(address.value));
    } else {
      if |token| > 4 { return None; }
      var parsed := FromChars(token, 16);
      if parsed.None? { return None; }
      groups := Some([parsed.value]);
    }
  }

  method ParseSide(side: string, allowTail: bool) returns (groups: Option<seq<nat>>)
    ensures groups == Side(side, allowTail)
  {
    hide Split, PartStarts, TokenGroups, Groups, ReadSoFar;
    if side == "" { return Some([]); }
    ghost var tokens := Split(side, ':');
    FirstPart(side, ':');
    PartExists(side, ':', 0, 0);
    ReadNothing(tokens, allowTail);
    var read: seq<nat> := [];
    var start := 0;
    ghost var i := 0;
    while start <= |side|
      invariant 0 <= start && 0 <= i < |tokens|
      invariant PartStarts(side, ':', i, start)
      invariant ReadSoFar(tokens, i, allowTail, read)
      decreases |side| - start
    {
      PartExists(side, ':', i, start);
      NextPart(side, ':', i, start);
      var end := Find(side, ':', start);
      ReadOne(tokens, i, allowTail, read);
      var more := ParseToken(side[start..end], end == |side|, allowTail);
      if more.None? { return None; }
      read := read + more.value;
      if end == |side| {
        ReadAll(tokens, allowTail, read);
        return Some(read);
      }
      PartExists(side, ':', i + 1, end + 1);
      start := end + 1;
      i := i + 1;
    }
    PartExists(side, ':', i, start);
    assert false;
  }

  method ParseIpv6(value: string) returns (address: Option<seq<Byte>>)
    ensures address == Ipv6(value)
  {
    hide Side, WordBytes;
    if value == "" { return None; }
    var compression := FindPair(value, 0);
    var words;
    if compression == |value| {
      var left := ParseSide(value, true);
      if left.None? || |left.value| != 8 { return None; }
      words := left.value;
    } else {
      assert PairAt(value, compression);
      if FindPair(value, compression + 2) < |value| { return None; }
      var left := ParseSide(value[..compression], false);
      if left.None? { return None; }
      var right := ParseSide(value[compression + 2..], true);
      if right.None? || |left.value| + |right.value| >= 8 { return None; }
      words := left.value + Zeros(8 - |left.value| - |right.value|) + right.value;
    }
    var bytes: seq<Byte> := [];
    var index := 0;
    BytesOfNone();
    while index < |words|
      invariant 0 <= index <= |words| && bytes == WordBytes(words[..index])
    {
      BytesOfOneMore(words, index);
      bytes := bytes + HighLow(words[index]);
      index := index + 1;
    }
    assert words[..index] == words;
    address := Some(bytes);
  }

  lemma BytesOfNone()
    ensures WordBytes([]) == []
  {
  }

  lemma BytesOfOneMore(words: seq<nat>, index: nat)
    requires index < |words|
    ensures WordBytes(words[..index + 1]) == WordBytes(words[..index]) + HighLow(words[index])
  {
    assert words[..index + 1][..index] == words[..index];
  }

  function Ipv6Cidr(s: string): Option<(seq<Byte>, nat)> {
    var parts := Split(s, '/');
    if |parts| != 2 || Ipv6(parts[0]).None? || Prefix(parts[1], 128).None? then None
    else Some((Ipv6(parts[0]).value, Prefix(parts[1], 128).value))
  }

  method ParseIpv6Cidr(value: string) returns (parsed: Option<(seq<Byte>, nat)>)
    ensures parsed == Ipv6Cidr(value)
  {
    hide Split, FromChars, Ipv6;
    CutsOnce(value);
    var cut := CutOnce(value);
    if cut.None? { return None; }
    var address := ParseIpv6(cut.value.0);
    if address.None? { return None; }
    if cut.value.1 == [] {
      NoNumber();
      return None;
    }
    var prefix := FromChars(cut.value.1, 10);
    if prefix.None? || prefix.value > 128 { return None; }
    parsed := Some((address.value, prefix.value));
  }

  // ----- leading bits -----

  /** The leading `prefix` bits of the bytes, as an integer. */
  function LeadingBits(bytes: seq<Byte>, prefix: nat): nat
    requires prefix <= 8 * |bytes|
  {
    Over(Value(bytes), Power2(8 * |bytes| - prefix))
  }

  function Over(n: nat, d: nat): nat
    requires d > 0
  {
    n / d
  }

  /** What the loop compares, byte by byte. */
  predicate Agree(a: seq<Byte>, b: seq<Byte>, prefix: nat)
    requires |a| == |b|
  {
    if a == [] then true
    else if prefix >= 8 then a[0] == b[0] && Agree(a[1..], b[1..], prefix - 8)
    else prefix == 0 || Masked(a[0], prefix) == Masked(b[0], prefix)
  }

  /** A byte with all but its leading `keep` bits cleared. */
  function Masked(b: Byte, keep: nat): int
    requires keep <= 8
  {
    b / Power2(8 - keep) * Power2(8 - keep)
  }

  method MatchesPrefix(address: seq<Byte>, network: seq<Byte>, length: nat) returns (matches: bool)
    requires |address| == |network|
    ensures matches <==> Agree(address, network, length)
  {
    var prefix := length;
    var index := 0;
    assert address[0..] == address && network[0..] == network;
    while index < |address|
      invariant 0 <= index <= |address|
      invariant Agree(address, network, length) <==> Agree(address[index..], network[index..], prefix)
    {
      assert address[index..][1..] == address[index + 1..] && network[index..][1..] == network[index + 1..];
      if prefix >= 8 {
        if address[index] != network[index] { return false; }
        prefix := prefix - 8;
      } else if prefix > 0 {
        if Masked(address[index], prefix) != Masked(network[index], prefix) { return false; }
        prefix := 0;
      }
      index := index + 1;
    }
    matches := true;
  }

  // ----- the loop compares exactly the leading bits -----

  lemma {:induction false} FrontValue(bytes: seq<Byte>)
    requires bytes != []
    ensures Value(bytes) == bytes[0] * Power2(8 * (|bytes| - 1)) + Value(bytes[1..])
  {
    var last := bytes[|bytes| - 1];
    if |bytes| == 1 {
      assert bytes[..0] == [] && bytes[1..] == [];
      assert Value(bytes) == bytes[0];
    } else {
      var head := bytes[..|bytes| - 1];
      FrontValue(head);
      assert head[1..] == bytes[1..][..|bytes| - 2];
      EightMore(8 * (|bytes| - 2));
      Regroup(bytes[0], Power2(8 * (|bytes| - 2)), Value(head[1..]), last);
    }
  }

  lemma EightMore(k: nat)
    ensures Power2(k + 8) == Power2(k) * 256
  {
    assert Power2(k + 8) == 2 * Power2(k + 7) == 4 * Power2(k + 6) == 8 * Power2(k + 5) == 16 * Power2(k + 4);
    assert Power2(k + 4) == 2 * Power2(k + 3) == 4 * Power2(k + 2) == 8 * Power2(k + 1) == 16 * Power2(k);
  }

  lemma Regroup(x: nat, p: nat, v: nat, last: nat)
    ensures (x * p + v) * 256 + last == x * (p * 256) + (v * 256 + last)
  {
  }

  lemma {:induction false} PowerSum(a: nat, b: nat)
    ensures Power2(a + b) == Power2(a) * Power2(b)
  {
    if a > 0 {
      PowerSum(a - 1, b);
      Associate(2, Power2(a - 1), Power2(b));
    }
  }

  lemma {:induction false} ValueBelow(bytes: seq<Byte>)
    ensures Value(bytes) < Power2(8 * |bytes|)
  {
    if bytes != [] {
      ValueBelow(bytes[..|bytes| - 1]);
      EightMore(8 * (|bytes| - 1));
    }
  }

  lemma DivideSum(x: nat, d: nat, q: nat, v: nat)
    requires d > 0
    ensures (x * q * d + v) / d == x * q + v / d
  {
    var r := v % d;
    assert v == v / d * d + r;
    assert x * q * d + v == (x * q + v / d) * d + r;
    UniqueQuotient(x * q * d + v, d, x * q + v / d, r);
  }

  lemma UniqueQuotient(n: nat, d: nat, q: nat, r: nat)
    requires d > 0 && n == q * d + r && r < d
    ensures n / d == q
  {
    var p := n / d;
    assert n == p * d + n % d;
    if p < q { SmallerProduct(p, q, d); }
    if q < p { SmallerProduct(q, p, d); }
  }

  lemma SmallerProduct(p: nat, q: nat, d: nat)
    requires p < q
    ensures p * d + d <= q * d
  {
    assert q * d == p * d + (q - p) * d;
    AtLeastOnce(q - p, d);
  }

  lemma AtLeastOnce(k: nat, d: nat)
    requires k >= 1
    ensures k * d >= d
  {
  }

  lemma SplitLeading(x: nat, y: nat, u: nat, w: nat, q: nat)
    requires u < q && w < q
    ensures x * q + u == y * q + w <==> x == y && u == w
  {
    if x < y { SmallerProduct(x, y, q); }
    if y < x { SmallerProduct(y, x, q); }
  }

  lemma QuotientBelow(v: nat, d: nat, q: nat)
    requires d > 0 && v < q * d
    ensures v / d < q
  {
    var p := v / d;
    assert v == p * d + v % d;
    if p >= q {
      if p > q { SmallerProduct(q, p, d); }
      assert false;
    }
  }

  lemma LeadingQuotient(x: nat, q: nat, d: nat, v: nat)
    requires d > 0 && v < q * d
    ensures Over(x * (q * d) + v, d) == x * q + Over(v, d)
    ensures Over(v, d) < q
  {
    Associate(x, q, d);
    DivideSum(x, d, q, v);
    QuotientBelow(v, d, q);
  }

  /** Eight or more bits: those of the first byte, then the leading bits of the rest. */
  lemma LeadingByte(bytes: seq<Byte>, prefix: nat)
    requires bytes != [] && 8 <= prefix <= 8 * |bytes|
    ensures LeadingBits(bytes, prefix) == bytes[0] * Power2(prefix - 8) + LeadingBits(bytes[1..], prefix - 8)
    ensures LeadingBits(bytes[1..], prefix - 8) < Power2(prefix - 8)
  {
    hide Value, Power2, Over;
    var k := 8 * |bytes| - prefix;
    FrontValue(bytes);
    PowerSum(prefix - 8, k);
    assert 8 * (|bytes| - 1) == prefix - 8 + k;
    ValueBelow(bytes[1..]);
    LeadingQuotient(bytes[0], Power2(prefix - 8), Power2(k), Value(bytes[1..]));
  }

  lemma Associate(x: nat, q: nat, d: nat)
    ensures x * (q * d) == x * q * d
  {
  }

  lemma PartOfByte(bytes: seq<Byte>, prefix: nat)
    requires bytes != [] && prefix < 8
    ensures LeadingBits(bytes, prefix) == bytes[0] / Power2(8 - prefix)
  {
    hide Value, Power2;
    var k := 8 * (|bytes| - 1);
    var m, h := Power2(k), Power2(8 - prefix);
    FrontValue(bytes);
    PowerSum(8 - prefix, k);
    var x: nat, v := bytes[0], Value(bytes[1..]);
    ValueBelow(bytes[1..]);
    assert 8 * |bytes| - prefix == 8 - prefix + k;
    var q, r := x / h, x % h;
    assert x == q * h + r;
    Distribute(q, h, r, m, v);
    BelowBlock(r, h, m, v);
    UniqueQuotient(x * m + v, h * m, q, r * m + v);
  }

  lemma Distribute(q: nat, h: nat, r: nat, m: nat, v: nat)
    ensures (q * h + r) * m + v == q * (h * m) + (r * m + v)
  {
    assert (q * h + r) * m == q * h * m + r * m;
    Associate(q, h, m);
  }

  lemma BelowBlock(r: nat, h: nat, m: nat, v: nat)
    requires r < h && v < m
    ensures r * m + v < h * m
  {
    SmallerProduct(r, h, m);
  }

  lemma SameMultiple(x: nat, y: nat, h: nat)
    requires h > 0
    ensures x * h == y * h <==> x == y
  {
    if x < y { SmallerProduct(x, y, h); }
    if y < x { SmallerProduct(y, x, h); }
  }

  lemma MaskedEqual(a: Byte, b: Byte, keep: nat)
    requires keep <= 8
    ensures Masked(a, keep) == Masked(b, keep) <==> a / Power2(8 - keep) == b / Power2(8 - keep)
  {
    hide Power2;
    SameMultiple(a / Power2(8 - keep), b / Power2(8 - keep), Power2(8 - keep));
  }

  /** Main prefix result: the byte-wise loop compares exactly the leading bits, for byte strings of any length. */
  lemma {:induction false} AgreeIsLeadingBits(a: seq<Byte>, b: seq<Byte>, prefix: nat)
    requires |a| == |b| && prefix <= 8 * |a|
    ensures Agree(a, b, prefix) <==> LeadingBits(a, prefix) == LeadingBits(b, prefix)
    decreases |a|
  {
    hide LeadingBits, Masked;
    if a == [] {
      assert b == [];
    } else if prefix >= 8 {
      LeadingByte(a, prefix);
      LeadingByte(b, prefix);
      AgreeIsLeadingBits(a[1..], b[1..], prefix - 8);
      SplitLeading(a[0], b[0], LeadingBits(a[1..], prefix - 8), LeadingBits(b[1..], prefix - 8), Power2(prefix - 8));
    } else {
      PartOfByte(a, prefix);
      PartOfByte(b, prefix);
      MaskedEqual(a[0], b[0], prefix);
      if prefix == 0 { assert Power2(8) == 256; }
    }
  }

  // ----- addresses and prefixes -----

  lemma Ipv4CidrShape(s: string)
    requires Ipv4Cidr(s).Some?
    ensures |Ipv4Cidr(s).value.0| == 4 && Ipv4Cidr(s).value.1 <= 32
  {
    Ipv4Length(Split(s, '/')[0]);
  }

  lemma {:induction false} WordBytesLength(words: seq<nat>)
    ensures |WordBytes(words)| == 2 * |words|
  {
    if words != [] { WordBytesLength(words[..|words| - 1]); }
  }

  lemma Ipv6Length(s: string)
    requires Ipv6(s).Some?
    ensures |Ipv6(s).value| == 16
  {
    WordBytesLength(Ipv6Words(s).value);
  }

  lemma Ipv6CidrShape(s: string)
    requires Ipv6Cidr(s).Some?
    ensures |Ipv6Cidr(s).value.0| == 16 && Ipv6Cidr(s).value.1 <= 128
  {
    Ipv6Length(Split(s, '/')[0]);
  }

  /** The host lies in the network: the leading bits of the two addresses are the same number. */
  ghost predicate InNetwork(host: Option<seq<Byte>>, cidr: Option<(seq<Byte>, nat)>) {
    && host.Some? && cidr.Some? && |host.value| == |cidr.value.0| && cidr.value.1 <= 8 * |host.value|
    && LeadingBits(host.value, cidr.value.1) == LeadingBits(cidr.value.0, cidr.value.1)
  }

  method Ipv4MatchesCidr(host: string, cidr: string) returns (matches: bool)
    ensures matches <==> InNetwork(Ipv4(host), Ipv4Cidr(cidr))
  {
    hide Ipv4, Ipv4Cidr, Agree, LeadingBits;
    var address := ParseIpv4(host);
    if address.None? { return false; }
    var network := ParseIpv4Cidr(cidr);
    if network.None? { return false; }
    Ipv4Length(host);
    Ipv4CidrShape(cidr);
    matches := MatchesPrefix(address.value, network.value.0, network.value.1);
    AgreeIsLeadingBits(address.value, network.value.0, network.value.1);
  }

  method Ipv6MatchesCidr(host: string, cidr: string) returns (matches: bool)
    ensures matches <==> InNetwork(Ipv6(host), Ipv6Cidr(cidr))
  {
    hide Ipv6, Ipv6Cidr, Agree, LeadingBits;
    var address := ParseIpv6(host);
    if address.None? { return false; }
    var network := ParseIpv6Cidr(cidr);
    if network.None? { return false; }
    Ipv6Length(host);
    Ipv6CidrShape(cidr);
    matches := MatchesPrefix(address.value, network.value.0, network.value.1);
    AgreeIsLeadingBits(address.value, network.value.0, network.value.1);
  }
}
