/** Compact JSON text in UTF-8, as section 7 of RFC 8259 escapes it. */
module JsonText {
  import opened Wrappers
  import opened Bytes
  import Utf8

  type Text = seq<Utf8.Code>

  datatype Json =
    | Null
    | Truth(value: bool)
    | Str(text: Text)
    | Int(n: int)
    | Float(shown: seq<Byte>)
    | Array(items: seq<Json>)
    | Object(members: seq<Member>)

  datatype Member = Member(key: Text, value: Json)

  // ----- printing -----

  function HexDigit(n: nat): Byte
    requires n < 16
  {
    if n < 10 then 48 + n else 87 + n
  }

  /** One character inside quotes. */
  function Escaped(code: Utf8.Code): (bytes: seq<Byte>)
    ensures |bytes| >= 1
  {
    if code == 34 then [92, 34]
    else if code == 92 then [92, 92]
    else if code == 8 then [92, 98]
    else if code == 12 then [92, 102]
    else if code == 10 then [92, 110]
    else if code == 13 then [92, 114]
    else if code == 9 then [92, 116]
    else if code < 0x20 then [92, 117, 48, 48, HexDigit(code / 16), HexDigit(code % 16)]
    else Utf8.Encode(code)
  }

  function Characters(text: Text): seq<Byte> {
    if text == [] then [] else Characters(text[..|text| - 1]) + Escaped(text[|text| - 1])
  }

  function Quoted(text: Text): seq<Byte> {
    [34] + Characters(text) + [34]
  }

  function Digit(n: nat): Byte {
    48 + n % 10
  }

  function Digits(n: nat): seq<Byte> {
    if n < 10 then [Digit(n)] else Digits(n / 10) + [Digit(n)]
  }

  function Magnitude(n: int): nat {
    if n < 0 then -n else n
  }

  function Decimal(n: int): seq<Byte> {
    if n < 0 then [45] + Digits(-n) else Digits(n)
  }

  function Print(json: Json): seq<Byte>
    decreases json, 0
  {
    match json
    case Null => [110, 117, 108, 108]
    case Truth(value) => if value then [116, 114, 117, 101] else [102, 97, 108, 115, 101]
    case Str(text) => Quoted(text)
    case Int(n) => Decimal(n)
    case Float(shown) => shown
    case Array(items) => [91] + PrintItems(items) + [93]
    case Object(members) => [123] + PrintMembers(members) + [125]
  }

  function PrintItems(items: seq<Json>): seq<Byte>
    decreases items, |items|
  {
    if items == [] then []
    else if |items| == 1 then Print(items[0])
    else PrintItems(items[..|items| - 1]) + [44] + Print(items[|items| - 1])
  }

  function PrintMember(member: Member): seq<Byte>
    decreases member, 1
  {
    Quoted(member.key) + [58] + Print(member.value)
  }

  function PrintMembers(members: seq<Member>): seq<Byte>
    decreases members, |members|
  {
    if members == [] then []
    else if |members| == 1 then PrintMember(members[0])
    else PrintMembers(members[..|members| - 1]) + [44] + PrintMember(members[|members| - 1])
  }

  // ----- counting -----

  function Nodes(json: Json): (n: nat)
    ensures n >= 1
    decreases json, 0
  {
    match json
    case Array(items) => 1 + ItemNodes(items)
    case Object(members) => 1 + MemberNodes(members)
    case _ => 1
  }

  function ItemNodes(items: seq<Json>): (n: nat)
    ensures n >= |items|
    decreases items, |items|
  {
    if items == [] then 0 else ItemNodes(items[..|items| - 1]) + Nodes(items[|items| - 1])
  }

  function MemberNodes(members: seq<Member>): (n: nat)
    ensures n >= |members|
    decreases members, |members|
  {
    if members == [] then 0 else MemberNodes(members[..|members| - 1]) + Nodes(members[|members| - 1].value)
  }

  /** How far below the top the deepest value lies. */
  function Depth(json: Json): nat
    decreases json, 0
  {
    match json
    case Array(items) => ItemDepth(items)
    case Object(members) => MemberDepth(members)
    case _ => 0
  }

  function Max(a: nat, b: nat): nat { if a < b then b else a }

  function ItemDepth(items: seq<Json>): nat
    decreases items, |items|
  {
    if items == [] then 0 else Max(ItemDepth(items[..|items| - 1]), 1 + Depth(items[|items| - 1]))
  }

  function MemberDepth(members: seq<Member>): nat
    decreases members, |members|
  {
    if members == [] then 0 else Max(MemberDepth(members[..|members| - 1]), 1 + Depth(members[|members| - 1].value))
  }

  // ----- sizes -----

  function Commas(n: nat): nat { if n == 0 then 0 else n - 1 }

  function ItemBytes(items: seq<Json>): nat {
    if items == [] then 0 else ItemBytes(items[..|items| - 1]) + |Print(items[|items| - 1])|
  }

  function MemberBytes(members: seq<Member>): nat {
    if members == [] then 0
    else MemberBytes(members[..|members| - 1])
         + |Quoted(members[|members| - 1].key)| + 1 + |Print(members[|members| - 1].value)|
  }

  lemma {:induction false} ItemsSize(items: seq<Json>)
    ensures |PrintItems(items)| == ItemBytes(items) + Commas(|items|)
  {
    if |items| == 1 {
      assert items[..0] == [];
    } else if |items| > 1 {
      ItemsSize(items[..|items| - 1]);
    }
  }

  lemma {:induction false} MembersSize(members: seq<Member>)
    ensures |PrintMembers(members)| == MemberBytes(members) + Commas(|members|)
  {
    if |members| == 1 {
      assert members[..0] == [];
    } else if |members| > 1 {
      MembersSize(members[..|members| - 1]);
    }
  }

  lemma ContainerSize(json: Json)
    ensures json.Array? ==> |Print(json)| == 2 + Commas(|json.items|) + ItemBytes(json.items)
    ensures json.Object? ==> |Print(json)| == 2 + Commas(|json.members|) + MemberBytes(json.members)
  {
    if json.Array? { ItemsSize(json.items); }
    if json.Object? { MembersSize(json.members); }
  }

  // ----- the width of integers -----

  function Power(base: nat, k: nat): nat {
    if k == 0 then 1 else base * Power(base, k - 1)
  }

  /** An integer has at most k digits exactly when it is below ten to the k. */
  lemma {:induction false} DigitsFit(n: nat, k: nat)
    requires k > 0
    ensures |Digits(n)| <= k <==> n < Power(10, k)
    decreases k
  {
    if n < 10 {
      AtLeastTen(k);
    } else if k == 1 {
      assert Power(10, 1) == 10;
      DigitsNotEmpty(n / 10);
    } else {
      DigitsFit(n / 10, k - 1);
      TenTimes(n, Power(10, k - 1));
    }
  }

  lemma TenTimes(n: nat, p: nat)
    ensures n / 10 < p <==> n < 10 * p
  {
  }

  lemma DigitsNotEmpty(n: nat)
    ensures |Digits(n)| >= 1
  {
  }

  lemma {:induction false} AtLeastTen(k: nat)
    requires k > 0
    ensures Power(10, k) >= 10
  {
    if k > 1 { AtLeastTen(k - 1); }
  }

  function BitLength(n: nat): nat {
    if n == 0 then 0 else 1 + BitLength(n / 2)
  }

  lemma {:induction false} BitsFit(n: nat, k: nat)
    ensures BitLength(n) <= k <==> n < Power(2, k)
    decreases k
  {
    if n > 0 && k > 0 {
      BitsFit(n / 2, k - 1);
      TwiceHalf(n, Power(2, k - 1));
    } else if n == 0 {
      PowerOfTwo(k);
    }
  }

  lemma TwiceHalf(n: nat, p: nat)
    ensures n / 2 < p <==> n < 2 * p
  {
  }

  lemma {:induction false} PowerOfTwo(k: nat)
    ensures Power(2, k) >= 1
  {
    if k > 0 { PowerOfTwo(k - 1); }
  }

  lemma {:induction false} SixteenBeatsTen(k: nat)
    ensures Power(2, 4 * k) >= Power(10, k)
  {
    if k > 0 {
      SixteenBeatsTen(k - 1);
      var p := Power(2, 4 * (k - 1));
      assert Power(2, 4 * k) == 2 * Power(2, 4 * k - 1) == 4 * Power(2, 4 * k - 2) == 8 * Power(2, 4 * k - 3);
      assert 4 * k - 4 == 4 * (k - 1);
      assert Power(2, 4 * k - 3) == 2 * p;
    }
  }

  /** More than four bits for each allowed byte always print to more than the allowed bytes. */
  lemma WideIntegersAreLong(n: int, limit: nat)
    requires limit > 0 && BitLength(Magnitude(n)) > 4 * limit
    ensures |Decimal(n)| > limit
  {
    BitsFit(Magnitude(n), 4 * limit);
    SixteenBeatsTen(limit);
    DigitsFit(Magnitude(n), limit);
  }
}
