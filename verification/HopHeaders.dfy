/**
  `strip_hop_headers` of src/gateway.rs: the fixed hop-by-hop headers go, and every header
  that a Connection header names. Header names are lower case, as in a header map.
 */
module HopHeaders {
  import opened Outcomes

  type Headers = map<string, seq<string>>

  const CONNECTION := "connection"

  const HOP: seq<string> := [
    CONNECTION, "keep-alive", "proxy-authenticate", "proxy-authorization", "proxy-connection", "te", "trailer",
    "transfer-encoding", "upgrade"
  ]

  // ----- Values -----

  /** A value that can be read as text. */
  predicate Readable(value: string) {
    forall k :: 0 <= k < |value| ==> ' ' <= value[k] <= '~' || value[k] == '\t'
  }

  /** The parts between commas. */
  function Pieces(value: string): (ps: seq<string>)
    ensures ps != []
  {
    if value == "" then [""]
    else
      var rest := Pieces(value[1..]);
      if value[0] == ',' then [""] + rest else [[value[0]] + rest[0]] + rest[1..]
  }

  predicate IsBlank(c: char) {
    c == ' ' || c == '\t'
  }

  function TrimStart(s: string): string {
    if s != "" && IsBlank(s[0]) then TrimStart(s[1..]) else s
  }

  function TrimEnd(s: string): string {
    if s != "" && IsBlank(s[|s| - 1]) then TrimEnd(s[..|s| - 1]) else s
  }

  predicate IsNameChar(c: char) {
    || 'a' <= c <= 'z' || 'A' <= c <= 'Z' || '0' <= c <= '9'
    || c in {'!', '#', '$', '%', '&', '\'', '*', '+', '-', '.', '^', '_', '`', '|', '~'}
  }

  function LowerChar(c: char): char {
    if 'A' <= c <= 'Z' then (c as int + 32) as char else c
  }

  function Lower(s: string): (r: string)
    ensures |r| == |s| && forall k :: 0 <= k < |s| ==> r[k] == LowerChar(s[k])
  {
    if s == "" then "" else [LowerChar(s[0])] + Lower(s[1..])
  }

  /** `HeaderName::from_bytes` */
  function NameOf(s: string): Option<string> {
    if s != "" && |s| <= 0xffff && (forall k :: 0 <= k < |s| ==> IsNameChar(s[k])) then Some(Lower(s)) else None
  }

  function PieceName(piece: string): Option<string> {
    NameOf(TrimEnd(TrimStart(piece)))
  }

  /** The value names the header. */
  predicate Names(value: string, name: string) {
    Readable(value) && exists k | 0 <= k < |Pieces(value)| :: PieceName(Pieces(value)[k]) == Some(name)
  }

  predicate Named(headers: Headers, name: string) {
    CONNECTION in headers && exists k | 0 <= k < |headers[CONNECTION]| :: Names(headers[CONNECTION][k], name)
  }

  /** What is left: all other headers, with their values. */
  function Stripped(headers: Headers): Headers {
    map name | name in headers && name !in HOP && !Named(headers, name) :: headers[name]
  }

  // ----- The method -----

  /** The names in one value, in order. */
  method CollectNames(value: string, ghost before: set<string>, collected: seq<string>) returns (named: seq<string>)
    requires forall name :: name in collected <==> name in before
    ensures forall name :: name in named <==> name in before || Names(value, name)
  {
    hide PieceName;
    named := collected;
    if !Readable(value) {
      return;
    }
    var pieces := Pieces(value);
    for k := 0 to |pieces|
      invariant forall name :: name in named <==>
        name in before || exists j :: 0 <= j < k && PieceName(pieces[j]) == Some(name)
    {
      var name := PieceName(pieces[k]);
      if name.Some? {
        named := named + [name.value];
      }
    }
  }

  method StripHopHeaders(headers: Headers) returns (r: Headers)
    ensures r == Stripped(headers)
  {
    hide Names;
    var named: seq<string> := [];
    var values := if CONNECTION in headers then headers[CONNECTION] else [];
    ghost var before: set<string> := {};
    for k := 0 to |values|
      invariant forall name :: name in named <==> name in before
      invariant forall name :: name in named <==> exists j :: 0 <= j < k && Names(values[j], name)
    {
      named := CollectNames(values[k], before, named);
      before := set name | name in named;
    }
    assert forall name :: name in named <==> Named(headers, name);
    r := headers;
    for k := 0 to |named|
      invariant forall name :: name in r <==> name in headers && name !in named[..k]
      invariant forall name :: name in r ==> r[name] == headers[name]
    {
      r := r - {named[k]};
    }
    assert named[..|named|] == named;
    for k := 0 to |HOP|
      invariant forall name :: name in r <==> name in headers && name !in named && name !in HOP[..k]
      invariant forall name :: name in r ==> r[name] == headers[name]
    {
      r := r - {HOP[k]};
    }
    assert HOP[..|HOP|] == HOP;
  }

  // ----- What it means -----

  /** Nothing that is left is hop-by-hop any more. */
  lemma StrippingTwiceIsOnce(headers: Headers)
    ensures Stripped(Stripped(headers)) == Stripped(headers)
  {
    assert HOP[0] == CONNECTION;
    assert CONNECTION !in Stripped(headers);
  }

  function Commas(pieces: seq<string>): string {
    if pieces == [] then "" else if |pieces| == 1 then pieces[0] else pieces[0] + "," + Commas(pieces[1..])
  }

  lemma {:induction false} PiecesOfOne(piece: string, rest: string)
    requires ',' !in piece && (rest == "" || rest[0] == ',')
    ensures Pieces(piece + rest) == [piece] + (if rest == "" then [] else Pieces(rest[1..]))
  {
    if piece == "" {
      assert piece + rest == rest;
    } else {
      assert (piece + rest)[1..] == piece[1..] + rest && (piece + rest)[0] == piece[0];
      PiecesOfOne(piece[1..], rest);
      assert [piece[0]] + piece[1..] == piece;
    }
  }

  /** Splitting undoes joining. */
  lemma {:induction false} PiecesOfCommas(pieces: seq<string>)
    requires pieces != [] && forall k :: 0 <= k < |pieces| ==> ',' !in pieces[k]
    ensures Pieces(Commas(pieces)) == pieces
  {
    if |pieces| == 1 {
      PiecesOfOne(pieces[0], "");
      assert pieces[0] + "" == pieces[0];
    } else {
      var rest := "," + Commas(pieces[1..]);
      assert Commas(pieces) == pieces[0] + rest;
      PiecesOfOne(pieces[0], rest);
      assert rest[1..] == Commas(pieces[1..]);
      PiecesOfCommas(pieces[1..]);
    }
  }

  predicate Blanks(s: string) {
    forall k :: 0 <= k < |s| ==> IsBlank(s[k])
  }

  lemma {:induction false} TrimPadded(left: string, name: string, right: string)
    requires Blanks(left) && Blanks(right) && name != "" && !IsBlank(name[0]) && !IsBlank(name[|name| - 1])
    ensures TrimEnd(TrimStart(left + name + right)) == name
    decreases |left| + |right|
  {
    var s := left + name + right;
    if left != "" {
      assert s[0] == left[0] && s[1..] == left[1..] + name + right;
      TrimPadded(left[1..], name, right);
    } else {
      assert s == name + right && s[0] == name[0];
      TrimRight(name, right);
    }
  }

  lemma {:induction false} TrimRight(name: string, right: string)
    requires Blanks(right) && name != "" && !IsBlank(name[|name| - 1])
    ensures TrimEnd(name + right) == name
  {
    var s := name + right;
    if right == "" {
      assert s == name;
    } else {
      assert s[|s| - 1] == right[|right| - 1] && s[..|s| - 1] == name + right[..|right| - 1];
      TrimRight(name, right[..|right| - 1]);
    }
  }

  /** A piece is a name with blanks around it. */
  lemma {:induction false} TrimParts(s: string) returns (left: string, right: string)
    ensures Blanks(left) && Blanks(right) && s == left + TrimEnd(TrimStart(s)) + right
  {
    if s != "" && IsBlank(s[0]) {
      left, right := TrimParts(s[1..]);
      left := [s[0]] + left;
    } else {
      left := "";
      right := TrimEndParts(s);
    }
  }

  lemma {:induction false} TrimEndParts(s: string) returns (right: string)
    ensures Blanks(right) && s == TrimEnd(s) + right
  {
    if s != "" && IsBlank(s[|s| - 1]) {
      right := TrimEndParts(s[..|s| - 1]);
      right := right + [s[|s| - 1]];
    } else {
      right := "";
    }
  }

  /** Joining undoes splitting. */
  lemma {:induction false} CommasOfPieces(value: string)
    ensures Commas(Pieces(value)) == value
    ensures forall k :: 0 <= k < |Pieces(value)| ==> ',' !in Pieces(value)[k]
  {
    if value != "" {
      CommasOfPieces(value[1..]);
      var rest := Pieces(value[1..]);
      if value[0] == ',' {
        assert ([""] + rest)[1..] == rest;
      } else {
        var pieces := [[value[0]] + rest[0]] + rest[1..];
        assert pieces[1..] == rest[1..];
        assert Commas(pieces) == [value[0]] + Commas(rest);
      }
    }
  }

  /** The value is a comma-separated list, and one of its parts is the name, in any letters, with blanks around it. */
  ghost predicate Lists(value: string, name: string) {
    && Readable(value)
    && exists pieces: seq<string>, k: nat, left: string, word: string, right: string | k < |pieces| ::
         && value == Commas(pieces) && (forall j :: 0 <= j < |pieces| ==> ',' !in pieces[j])
         && pieces[k] == left + word + right && Blanks(left) && Blanks(right) && NameOf(word) == Some(name)
  }

  lemma NamesIsLists(value: string, name: string)
    ensures Names(value, name) <==> Lists(value, name)
  {
    hide Pieces, Commas, TrimStart, TrimEnd, NameOf, Blanks, Readable;
    if Names(value, name) {
      var k: nat :| k < |Pieces(value)| && PieceName(Pieces(value)[k]) == Some(name);
      CommasOfPieces(value);
      var left, right := TrimParts(Pieces(value)[k]);
      assert Lists(value, name);
    }
    if Lists(value, name) {
      var pieces: seq<string>, k: nat, left: string, word: string, right: string :|
        && k < |pieces| && value == Commas(pieces) && (forall j :: 0 <= j < |pieces| ==> ',' !in pieces[j])
        && pieces[k] == left + word + right && Blanks(left) && Blanks(right) && NameOf(word) == Some(name);
      ListedNamesAreNamed(pieces, k, left, word, right);
      NameIsLower(word);
    }
  }

  lemma NameIsLower(word: string)
    ensures NameOf(word).Some? ==> NameOf(word) == Some(Lower(word))
  {
  }

  /** A list of names in any letters, with any blanks around them, names each of them. */
  lemma ListedNamesAreNamed(pieces: seq<string>, k: nat, left: string, name: string, right: string)
    requires k < |pieces| && (forall j :: 0 <= j < |pieces| ==> ',' !in pieces[j]) && Readable(Commas(pieces))
    requires pieces[k] == left + name + right && Blanks(left) && Blanks(right)
    requires NameOf(name).Some?
    ensures Names(Commas(pieces), Lower(name))
  {
    PiecesOfCommas(pieces);
    TrimPadded(left, name, right);
    assert PieceName(Pieces(Commas(pieces))[k]) == Some(Lower(name));
  }
  /** A header stays, with its values, unless it is hop-by-hop by its own name or a Connection header lists it. */
  lemma StrippedIff(headers: Headers, name: string)
    ensures name in Stripped(headers) <==>
      && name in headers
      && name !in {"connection", "keep-alive", "proxy-authenticate", "proxy-authorization", "proxy-connection", "te",
                   "trailer", "transfer-encoding", "upgrade"}
      && !("connection" in headers && exists k | 0 <= k < |headers["connection"]| ::
             Lists(headers["connection"][k], name))
    ensures name in Stripped(headers) ==> Stripped(headers)[name] == headers[name]
  {
    hide Names, Lists;
    if "connection" in headers {
      forall k | 0 <= k < |headers["connection"]|
        ensures Names(headers["connection"][k], name) <==> Lists(headers["connection"][k], name)
      {
        NamesIsLists(headers["connection"][k], name);
      }
    }
  }
}
