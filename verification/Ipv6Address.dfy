/** The parser of IPv6 addresses, against the text forms of section 2.2 of RFC 4291. */
module Ipv6Address {
  import opened Wrappers
  import opened Bytes
  import opened TextSplit
  import opened IpAddress

  // ----- the text forms -----

  /** One colon-separated piece: a group of one to four hexadecimal digits, or a dotted IPv4 address for two groups. */
  datatype Piece = Hex(digits: string) | Tail(bytes: seq<Byte>)

  ghost predicate GoodPiece(p: Piece) {
    match p
    case Hex(digits) => 1 <= |digits| <= 4 && AllDigits(digits, 16)
    case Tail(bytes) => |bytes| == 4
  }

  /** The dotted form stands only at the end, and only where it is allowed. */
  ghost predicate GoodPieces(pieces: seq<Piece>, allowTail: bool) {
    && (forall i | 0 <= i < |pieces| :: GoodPiece(pieces[i]))
    && (forall i | 0 <= i < |pieces| && pieces[i].Tail? :: allowTail && i == |pieces| - 1)
  }

  ghost function PieceText(p: Piece): string
    requires GoodPiece(p)
  {
    match p case Hex(digits) => digits case Tail(bytes) => Dotted(bytes)
  }

  function PairGroups(bytes: seq<Byte>): seq<nat>
    requires |bytes| == 4
  {
    [BytePair(bytes[0], bytes[1]), BytePair(bytes[2], bytes[3])]
  }

  function BytePair(high: nat, low: nat): nat {
    high * 256 + low
  }

  ghost function PieceGroups(p: Piece): seq<nat>
    requires GoodPiece(p)
  {
    match p case Hex(digits) => [NumberOf(digits, 16)] case Tail(bytes) => PairGroups(bytes)
  }

  ghost function Texts(pieces: seq<Piece>, allowTail: bool): (texts: seq<string>)
    requires GoodPieces(pieces, allowTail)
    ensures |texts| == |pieces|
  {
    if pieces == [] then [] else [PieceText(pieces[0])] + Texts(pieces[1..], allowTail)
  }

  ghost function GroupsOf(pieces: seq<Piece>, allowTail: bool): seq<nat>
    requires GoodPieces(pieces, allowTail)
  {
    if pieces == [] then [] else PieceGroups(pieces[0]) + GroupsOf(pieces[1..], allowTail)
  }

  ghost function SideText(pieces: seq<Piece>, allowTail: bool): string
    requires GoodPieces(pieces, allowTail)
  {
    if pieces == [] then "" else Join(Texts(pieces, allowTail), ':')
  }

  ghost predicate SpellsSide(s: string, pieces: seq<Piece>, allowTail: bool, groups: seq<nat>) {
    GoodPieces(pieces, allowTail) && SideText(pieces, allowTail) == s && GroupsOf(pieces, allowTail) == groups
  }

  function Zeros(n: nat): seq<nat> {
    seq(n, _ => 0)
  }

  /** Eight groups written out, or fewer with a double colon for at least one group of zeros. */
  ghost predicate Spells(s: string, groups: seq<nat>) {
    || (|groups| == 8 && exists pieces :: SpellsSide(s, pieces, true, groups))
    || (exists left, right, l, r :: SpellsCompressed(s, groups, left, right, l, r))
  }

  ghost predicate SpellsCompressed(s: string, groups: seq<nat>, left: seq<Piece>, right: seq<Piece>, l: seq<nat>, r: seq<nat>) {
    && GoodPieces(left, false) && GoodPieces(right, true) && |l| + |r| < 8
    && s == SideText(left, false) + "::" + SideText(right, true)
    && GroupsOf(left, false) == l && GroupsOf(right, true) == r
    && groups == l + Zeros(8 - |l| - |r|) + r
  }

  // ----- reading -----

  function TokenGroups(token: string, last: bool, allowTail: bool): Option<seq<nat>> {
    if token == "" then None
    else if '.' in token then
      if !allowTail || !last || Ipv4(token).None? then None
      else
        Ipv4Length(token);
        Some(PairGroups(Ipv4(token).value))
    else if |token| > 4 || FromChars(token, 16).None? then None
    else Some([FromChars(token, 16).value])
  }

  lemma Ipv4Length(token: string)
    requires Ipv4(token).Some?
    ensures |Ipv4(token).value| == 4
  {
    Ipv4RoundTrip(token, Ipv4(token).value);
  }

  function Groups(tokens: seq<string>, allowTail: bool): Option<seq<nat>> {
    if tokens == [] then Some([])
    else
      var first, rest := TokenGroups(tokens[0], |tokens| == 1, allowTail), Groups(tokens[1..], allowTail);
      if first.None? || rest.None? then None else Some(first.value + rest.value)
  }

  function Side(s: string, allowTail: bool): Option<seq<nat>> {
    if s == "" then Some([]) else Groups(Split(s, ':'), allowTail)
  }

  /** The position of the first double colon at or after `from`, or the end of the text. */
  function FindPair(s: string, from: nat): (i: nat)
    requires from <= |s|
    ensures from <= i <= |s| && (i < |s| ==> PairAt(s, i)) && (forall k | from <= k < i :: !PairAt(s, k))
    decreases |s| - from
  {
    if from == |s| || PairAt(s, from) then from else FindPair(s, from + 1)
  }

  predicate PairAt(s: string, i: nat) {
    i + 1 < |s| && s[i] == ':' && s[i + 1] == ':'
  }

  function WordBytes(words: seq<nat>): seq<Byte> {
    if words == [] then [] else WordBytes(words[..|words| - 1]) + HighLow(words[|words| - 1])
  }

  function HighLow(word: nat): seq<Byte> {
    var high: Byte, low: Byte := word / 256 % 256, word % 256;
    [high, low]
  }

  function Ipv6Words(s: string): Option<seq<nat>> {
    if s == "" then None
    else
      var at := FindPair(s, 0);
      if at == |s| then
        var groups := Side(s, true);
        if groups.None? || |groups.value| != 8 then None else groups
      else if FindPair(s, at + 2) < |s| then None
      else
        var left, right := Side(s[..at], false), Side(s[at + 2..], true);
        if left.None? || right.None? || |left.value| + |right.value| >= 8 then None
        else Some(left.value + Zeros(8 - |left.value| - |right.value|) + right.value)
  }

  function Ipv6(s: string): Option<seq<Byte>> {
    match Ipv6Words(s) case None => None case Some(words) => Some(WordBytes(words))
  }

  // ----- reading one piece -----

  /** The piece a token is read as. */
  ghost function PieceOf(token: string): Piece {
    if '.' in token && Ipv4(token).Some? then Tail(Ipv4(token).value) else Hex(token)
  }

  lemma TokenIsPiece(token: string, last: bool, allowTail: bool)
    requires TokenGroups(token, last, allowTail).Some?
    ensures GoodPiece(PieceOf(token)) && PieceText(PieceOf(token)) == token
    ensures PieceGroups(PieceOf(token)) == TokenGroups(token, last, allowTail).value
    ensures PieceOf(token).Tail? ==> last && allowTail
  {
    hide Ipv4, Dotted;
    if '.' in token {
      Ipv4Length(token);
      Ipv4RoundTrip(token, Ipv4(token).value);
    }
  }

  lemma PieceIsToken(p: Piece, last: bool, allowTail: bool)
    requires GoodPiece(p) && (p.Tail? ==> last && allowTail)
    ensures TokenGroups(PieceText(p), last, allowTail) == Some(PieceGroups(p))
    ensures PieceText(p) != "" && ':' !in PieceText(p)
  {
    hide Ipv4, Dotted;
    match p
    case Tail(bytes) =>
      Ipv4RoundTrip(Dotted(bytes), bytes);
      DottedShape(bytes);
    case Hex(digits) =>
      HexIsPlain(digits);
  }

  lemma HexIsPlain(digits: string)
    requires 1 <= |digits| <= 4 && AllDigits(digits, 16)
    ensures '.' !in digits && ':' !in digits
    ensures FromChars(digits, 16) == Some(NumberOf(digits, 16))
  {
    assert !IsDigit('.', 16) && !IsDigit(':', 16);
    FourHexDigits(digits);
  }

  lemma FourHexDigits(digits: string)
    requires |digits| <= 4 && AllDigits(digits, 16)
    ensures NumberOf(digits, 16) < 65536
  {
    if |digits| > 0 { HexStep(digits); }
    if |digits| > 1 { HexStep(digits[..|digits| - 1]); }
    if |digits| > 2 { HexStep(digits[..|digits| - 1][..|digits| - 2]); }
    if |digits| > 3 { HexStep(digits[..|digits| - 1][..|digits| - 2][..|digits| - 3]); }
  }

  lemma HexStep(digits: string)
    requires |digits| > 0 && AllDigits(digits, 16)
    ensures NumberOf(digits, 16) <= NumberOf(digits[..|digits| - 1], 16) * 16 + 15
    ensures |digits| == 1 ==> NumberOf(digits[..|digits| - 1], 16) == 0
  {
    assert IsDigit(digits[|digits| - 1], 16);
  }

  lemma DottedShape(bytes: seq<Byte>)
    requires |bytes| == 4
    ensures '.' in Dotted(bytes) && ':' !in Dotted(bytes) && Dotted(bytes) != ""
  {
    var parts := Decimals(bytes);
    assert Dotted(bytes) == parts[0] + ['.'] + Join(parts[1..], '.');
    assert Dotted(bytes)[|parts[0]|] == '.';
    DecimalsAreDigits(bytes);
    JoinAvoids(parts, '.', ':');
  }

  lemma {:induction false} DecimalsAreDigits(bytes: seq<Byte>)
    ensures forall p | p in Decimals(bytes) :: ':' !in p
  {
    if bytes != [] {
      DecimalsAreDigits(bytes[..|bytes| - 1]);
      DecimalReads(bytes[|bytes| - 1]);
      assert !IsDigit(':', 10);
    }
  }

  lemma {:induction false} JoinAvoids(parts: seq<string>, c: char, d: char)
    requires parts != [] && c != d && forall p | p in parts :: d !in p
    ensures d !in Join(parts, c)
    decreases |parts|
  {
    assert parts[0] in parts;
    if |parts| > 1 {
      assert forall p | p in parts[1..] :: p in parts;
      JoinAvoids(parts[1..], c, d);
    }
  }

  // ----- reading one side -----

  ghost function PiecesOf(tokens: seq<string>): (pieces: seq<Piece>)
    ensures |pieces| == |tokens|
  {
    if tokens == [] then [] else [PieceOf(tokens[0])] + PiecesOf(tokens[1..])
  }

  lemma {:induction false} TokensArePieces(tokens: seq<string>, allowTail: bool)
    requires Groups(tokens, allowTail).Some?
    ensures GoodPieces(PiecesOf(tokens), allowTail)
    ensures Texts(PiecesOf(tokens), allowTail) == tokens
    ensures GroupsOf(PiecesOf(tokens), allowTail) == Groups(tokens, allowTail).value
  {
    hide TokenGroups, PieceOf, GoodPiece, PieceText, PieceGroups;
    if tokens != [] {
      TokenIsPiece(tokens[0], |tokens| == 1, allowTail);
      TokensArePieces(tokens[1..], allowTail);
      var pieces := PiecesOf(tokens);
      assert pieces[1..] == PiecesOf(tokens[1..]);
      assert GoodPieces(pieces, allowTail) by {
        forall i | 0 <= i < |pieces| ensures GoodPiece(pieces[i]) && (pieces[i].Tail? ==> allowTail && i == |pieces| - 1) {
          if i > 0 { assert pieces[i] == pieces[1..][i - 1]; }
        }
      }
    }
  }

  lemma {:induction false} PiecesAreTokens(pieces: seq<Piece>, allowTail: bool)
    requires GoodPieces(pieces, allowTail)
    ensures Groups(Texts(pieces, allowTail), allowTail) == Some(GroupsOf(pieces, allowTail))
    ensures forall t | t in Texts(pieces, allowTail) :: t != "" && ':' !in t
  {
    hide TokenGroups, PieceText, PieceGroups;
    if pieces != [] {
      PieceIsToken(pieces[0], |pieces| == 1, allowTail);
      PiecesAreTokens(pieces[1..], allowTail);
      assert Texts(pieces, allowTail)[1..] == Texts(pieces[1..], allowTail);
    }
  }

  lemma SideToPieces(s: string, allowTail: bool) returns (pieces: seq<Piece>)
    requires Side(s, allowTail).Some?
    ensures SpellsSide(s, pieces, allowTail, Side(s, allowTail).value)
  {
    if s == "" {
      pieces := [];
    } else {
      var tokens := Split(s, ':');
      TokensArePieces(tokens, allowTail);
      pieces := PiecesOf(tokens);
      SplitJoins(s, ':');
    }
  }

  lemma PiecesToSide(pieces: seq<Piece>, allowTail: bool)
    requires GoodPieces(pieces, allowTail)
    ensures Side(SideText(pieces, allowTail), allowTail) == Some(GroupsOf(pieces, allowTail))
    ensures pieces != [] ==> SideText(pieces, allowTail) != ""
    ensures NoPairs(SideText(pieces, allowTail))
  {
    if pieces != [] {
      var texts := Texts(pieces, allowTail);
      PiecesAreTokens(pieces, allowTail);
      JoinSplits(texts, ':');
      JoinHasNoPairs(texts);
    }
  }

  /** No double colon, and no colon at either end. */
  ghost predicate NoPairs(s: string) {
    && (forall i: nat :: !PairAt(s, i))
    && (s != "" ==> s[0] != ':' && s[|s| - 1] != ':')
  }

  lemma {:induction false} JoinHasNoPairs(parts: seq<string>)
    requires parts != [] && forall p | p in parts :: p != "" && ':' !in p
    ensures NoPairs(Join(parts, ':')) && Join(parts, ':') != ""
    decreases |parts|
  {
    var s, first := Join(parts, ':'), parts[0];
    assert first in parts;
    if |parts| > 1 {
      assert forall p | p in parts[1..] :: p in parts;
      JoinHasNoPairs(parts[1..]);
      var rest := Join(parts[1..], ':');
      assert s == first + [':'] + rest;
      forall i: nat ensures !PairAt(s, i) {
        if i > |first| && i + 1 < |s| {
          assert !PairAt(rest, i - |first| - 1);
          assert s[i] == rest[i - |first| - 1];
        }
      }
    }
  }

  // ----- reading an address -----

  lemma CompressedIsFound(left: string, right: string)
    requires NoPairs(left) && NoPairs(right)
    ensures var s := left + "::" + right;
            && FindPair(s, 0) == |left| && FindPair(s, |left| + 2) == |s|
            && s[..|left|] == left && s[|left| + 2..] == right
  {
    var s := left + "::" + right;
    forall i: nat | i < |left| ensures !PairAt(s, i) {
      assert !PairAt(left, i);
    }
    assert PairAt(s, |left|);
    forall i: nat | |left| + 2 <= i < |s| ensures !PairAt(s, i) {
      assert !PairAt(right, i - |left| - 2);
    }
  }

  lemma WordsSpelled(s: string)
    requires Ipv6Words(s).Some?
    ensures Spells(s, Ipv6Words(s).value)
  {
    hide Side, GroupsOf, SideText, GoodPieces, FindPair;
    var at := FindPair(s, 0);
    if at == |s| {
      var pieces := SideToPieces(s, true);
    } else {
      var left := SideToPieces(s[..at], false);
      var right := SideToPieces(s[at + 2..], true);
      var l, r := Side(s[..at], false).value, Side(s[at + 2..], true).value;
      assert PairAt(s, at);
      assert s == s[..at] + "::" + s[at + 2..];
      assert SpellsCompressed(s, Ipv6Words(s).value, left, right, l, r);
    }
  }

  lemma SpelledWords(s: string, groups: seq<nat>)
    requires Spells(s, groups)
    ensures Ipv6Words(s) == Some(groups)
  {
    hide Side, GroupsOf, SideText, GoodPieces, FindPair;
    if |groups| == 8 && exists pieces :: SpellsSide(s, pieces, true, groups) {
      var pieces :| SpellsSide(s, pieces, true, groups);
      PiecesToSide(pieces, true);
      if pieces == [] { NothingSpelled(); }
      assert FindPair(s, 0) == |s|;
    } else {
      var left, right, l, r :| SpellsCompressed(s, groups, left, right, l, r);
      PiecesToSide(left, false);
      PiecesToSide(right, true);
      CompressedIsFound(SideText(left, false), SideText(right, true));
    }
  }

  lemma NothingSpelled()
    ensures GroupsOf([], true) == []
  {
  }

  /** Main IPv6 result: a text is accepted exactly when it is one of the written forms of eight groups, and is read as
      the bytes of those groups. */
  lemma Ipv6Exactly(s: string, bytes: seq<Byte>)
    ensures Ipv6(s) == Some(bytes) <==> exists groups :: Spells(s, groups) && bytes == WordBytes(groups)
  {
    hide Ipv6Words, Spells, WordBytes;
    if Ipv6(s) == Some(bytes) { WordsSpelled(s); }
    if exists groups :: Spells(s, groups) && bytes == WordBytes(groups) {
      var groups :| Spells(s, groups) && bytes == WordBytes(groups);
      SpelledWords(s, groups);
    }
  }
}
