// Request paths of the remote protocol (src/remote_protocol.cpp). Percent-decoding, which the
// HTTP server does before parse_remote_route, follows section 2.1 of RFC 3986.
module RemoteRoute {
  import opened Wrappers
  import opened Decimals
  import EpubLayout
  import Location

  datatype RouteKind = Info | Tiles | Tile

  datatype Route = Route(kind: RouteKind, location: string, byContentId: bool, scale: int, x: int, y: int)

  const INFO: string := "//info"
  const TILES: string := "//tiles"
  const TILE: string := "//tile:"
  const BLOB: string := "blob/"

  // ---- Escaping ----

  predicate Unreserved(c: char) {
    'A' <= c <= 'Z' || 'a' <= c <= 'z' || '0' <= c <= '9' || c == '-' || c == '.' || c == '_' || c == '~'
  }

  /** The characters that a path keeps as they are. */
  const PATH_KEEP: string := "/:,;=@!$&'()*+"

  function HexChar(n: nat): (c: char)
    requires n < 16
    ensures HexNibble(c) == n
  {
    if n < 10 then ('0' as int + n) as char else ('A' as int + n - 10) as char
  }

  predicate IsByte(c: char) { c as int < 256 }

  predicate Bytes(s: string) { forall k :: 0 <= k < |s| ==> IsByte(s[k]) }

  function EscapeChar(c: char, keep: string): string
    requires IsByte(c)
  {
    if Unreserved(c) || c in keep then [c] else ['%', HexChar(c as int / 16), HexChar(c as int % 16)]
  }

  function Escape(s: string, keep: string): string
    requires Bytes(s)
  {
    if s == "" then "" else EscapeChar(s[0], keep) + Escape(s[1..], keep)
  }

  lemma {:induction false} EscapePush(s: string, c: char, keep: string)
    requires Bytes(s) && IsByte(c)
    ensures Bytes(s + [c]) && Escape(s + [c], keep) == Escape(s, keep) + EscapeChar(c, keep)
  {
    if s == "" {
      assert s + [c] == [c] && [c][1..] == "";
      assert EscapeChar(c, keep) + "" == "" + EscapeChar(c, keep);
    } else {
      EscapePush(s[1..], c, keep);
      assert (s + [c])[1..] == s[1..] + [c];
    }
  }

  /** percent_escape. */
  method PercentEscape(s: string, keep: string) returns (out: string)
    requires Bytes(s)
    ensures out == Escape(s, keep)
  {
    out := "";
    for k := 0 to |s|
      invariant out == Escape(s[..k], keep)
    {
      assert s[..k + 1] == s[..k] + [s[k]];
      EscapePush(s[..k], s[k], keep);
      if Unreserved(s[k]) || s[k] in keep {
        out := out + [s[k]];
      } else {
        out := out + ['%', HexChar(s[k] as int / 16), HexChar(s[k] as int % 16)];
      }
    }
    assert s[..|s|] == s;
  }

  /** Decoding undoes escaping, whatever follows, as long as '%' itself is escaped. */
  lemma {:induction false} DecodeEscaped(s: string, keep: string, t: string)
    requires Bytes(s) && '%' !in keep
    ensures Location.Decode(Escape(s, keep) + t) == s + Location.Decode(t)
  {
    if s == "" {
      assert Escape(s, keep) + t == t;
    } else {
      DecodeEscaped(s[1..], keep, t);
      var c, rest := EscapeChar(s[0], keep), Escape(s[1..], keep);
      DecodeChar(s[0], keep, rest + t);
      Join(c, rest, t);
      Join([s[0]], s[1..], Location.Decode(t));
      assert s == [s[0]] + s[1..];
    }
  }

  lemma DecodeChar(c: char, keep: string, t: string)
    requires IsByte(c) && '%' !in keep
    ensures Location.Decode(EscapeChar(c, keep) + t) == [c] + Location.Decode(t)
  {
    if Unreserved(c) || c in keep {
      Location.DecodePlain(c, t);
    } else {
      Location.DecodeEscape(HexChar(c as int / 16), HexChar(c as int % 16), t);
      assert c as int / 16 * 16 + c as int % 16 == c as int;
    }
  }

  lemma {:induction false} DecodeClean(t: string)
    requires '%' !in t
    ensures Location.Decode(t) == t
  {
    if t != "" {
      DecodeClean(t[1..]);
      assert t == [t[0]] + t[1..];
    }
  }

  // ---- Printing ----

  function Suffix(r: Route): string {
    match r.kind
    case Info => INFO
    case Tiles => TILES
    case Tile => TILE + Coords(r.scale, r.x, r.y)
  }

  function Coords(scale: int, x: int, y: int): string {
    ToString(scale) + [','] + (ToString(x) + [','] + ToString(y))
  }

  function Prefix(r: Route): string { if r.byContentId then BLOB else "" }

  /** format_remote_route. */
  function Format(r: Route): string
    requires Bytes(r.location)
  {
    ("/" + Prefix(r)) + (Escape(r.location, PATH_KEEP) + Suffix(r))
  }

  /** What the server hands to the parser. */
  function Received(r: Route): string { "/" + (Prefix(r) + r.location + Suffix(r)) }

  lemma NumberIsClean(n: int)
    ensures '%' !in ToString(n) && ',' !in ToString(n) && '/' !in ToString(n)
  {
    if n >= 0 { assert AllDigits(Dec(n)); } else { assert AllDigits(Dec(-n)); }
  }

  lemma SuffixIsClean(r: Route)
    ensures '%' !in Suffix(r)
  {
    NumberIsClean(r.scale);
    NumberIsClean(r.x);
    NumberIsClean(r.y);
  }

  lemma {:induction false} DecodeBefore(a: string, t: string)
    requires '%' !in a
    ensures Location.Decode(a + t) == a + Location.Decode(t)
  {
    if a == "" {
      assert a + t == t;
    } else {
      DecodeBefore(a[1..], t);
      Location.DecodePlain(a[0], a[1..] + t);
      assert a + t == [a[0]] + (a[1..] + t) && a == [a[0]] + a[1..];
    }
  }

  /** Percent-decoding a formatted route leaves prefix, location and suffix as they were. */
  lemma FormatIsReceived(r: Route)
    requires Bytes(r.location)
    ensures Location.Decode(Format(r)) == Received(r)
  {
    DecodeBefore("/" + Prefix(r), Escape(r.location, PATH_KEEP) + Suffix(r));
    DecodeEscaped(r.location, PATH_KEEP, Suffix(r));
    SuffixIsClean(r);
    DecodeClean(Suffix(r));
    Regroup("/", Prefix(r), r.location, Suffix(r));
  }

  lemma Regroup(a: string, b: string, c: string, d: string)
    ensures (a + b) + (c + d) == a + (b + c + d)
  {
  }

  // ---- Parsing ----

  predicate StartsWith(s: string, t: string) { |t| <= |s| && s[..|t|] == t }

  predicate EndsWith(s: string, t: string) { |t| <= |s| && s[|s| - |t|..] == t }

  predicate Matches(s: string, p: nat, t: string) { p + |t| <= |s| && s[p..p + |t|] == t }

  /** rfind: the last occurrence that starts at or before `p`. */
  function RFind(s: string, t: string, p: nat): (r: Option<nat>)
    ensures r.Some? ==> r.value <= p && Matches(s, r.value, t)
    ensures r.Some? ==> forall q :: r.value < q <= p ==> !Matches(s, q, t)
    ensures r.None? ==> forall q :: 0 <= q <= p ==> !Matches(s, q, t)
  {
    if Matches(s, p, t) then Some(p) else if p == 0 then None else RFind(s, t, p - 1)
  }

  /** std::from_chars of an int that must take the whole text. */
  function ParseInt(s: string): Option<int> {
    var neg := s != "" && s[0] == '-';
    var digits := if neg then s[1..] else s;
    if digits == "" || !AllDigits(digits) then None
    else
      var v: int := Value(digits);
      var n := if neg then -v else v;
      if -TWO31 <= n < TWO31 then Some(n) else None
  }

  function ParseCoords(s: string): Option<(int, int, int)> {
    var c1 := EpubLayout.IndexOf(s, ',');
    if c1 == |s| then None
    else
      var rest := s[c1 + 1..];
      var c2 := EpubLayout.IndexOf(rest, ',');
      if c2 == |rest| then None
      else
        var a, b, c := ParseInt(s[..c1]), ParseInt(rest[..c2]), ParseInt(rest[c2 + 1..]);
        if a.None? || b.None? || c.None? then None else Some((a.value, b.value, c.value))
  }

  /** The part of a path before its suffix. */
  function Body(kind: RouteKind, scale: int, x: int, y: int, path: string): Option<Route> {
    var blob := StartsWith(path, BLOB);
    var location := if blob then path[|BLOB|..] else path;
    if location == "" then None else Some(Route(kind, location, blob, scale, x, y))
  }

  function ParseTile(path: string): Option<Route> {
    var pos := RFind(path, TILE, |path|);
    if pos.None? then None
    else
      var c := ParseCoords(path[pos.value + |TILE|..]);
      if c.None? then None else Body(Tile, c.value.0, c.value.1, c.value.2, path[..pos.value])
  }

  /** parse_remote_route. */
  function Parse(path: string): Option<Route> {
    if path == "" || path[0] != '/' then None
    else
      var p := path[1..];
      if EndsWith(p, INFO) then Body(Info, 0, 0, 0, p[..|p| - |INFO|])
      else if EndsWith(p, TILES) then Body(Tiles, 0, 0, 0, p[..|p| - |TILES|])
      else ParseTile(p)
  }

  // ---- Round trip ----

  lemma NumberBack(n: int)
    requires -TWO31 <= n < TWO31
    ensures ParseInt(ToString(n)) == Some(n)
  {
    if n >= 0 {
      ValueOfDec(n);
      assert IsDigit(Dec(n)[0]);
    } else {
      ValueOfDec(-n);
      assert ToString(n)[1..] == Dec(-n);
    }
  }

  predicate Int32(n: int) { -TWO31 <= n < TWO31 }

  lemma CoordsBack(a: int, b: int, c: int)
    requires Int32(a) && Int32(b) && Int32(c)
    ensures ParseCoords(Coords(a, b, c)) == Some((a, b, c))
  {
    NumberIsClean(a);
    NumberIsClean(b);
    NumberBack(a);
    NumberBack(b);
    NumberBack(c);
    CommaSplits(ToString(a), ToString(b) + [','] + ToString(c));
    CommaSplits(ToString(b), ToString(c));
  }

  lemma CommaSplits(a: string, b: string)
    requires ',' !in a
    ensures var s := a + [','] + b;
      EpubLayout.IndexOf(s, ',') == |a| < |s| && s[..|a|] == a && s[|a| + 1..] == b
  {
    EpubLayout.IndexAfter(a, ',', b);
  }

  lemma NotAtEnd(a: string, t: string, w: string)
    requires t != "" && w != "" && t[|t| - 1] != w[|w| - 1]
    ensures !EndsWith(a + t, w)
  {
    var s := a + t;
    assert s[|s| - 1] == t[|t| - 1];
    assert |w| <= |s| ==> s[|s| - |w|..][|w| - 1] == s[|s| - 1];
  }

  lemma AtEnd(a: string, w: string)
    ensures EndsWith(a + w, w) && (a + w)[..|a + w| - |w|] == a
  {
    assert (a + w)[|a + w| - |w|..] == w;
  }

  lemma CoordsEnd(a: int, b: int, c: int)
    ensures var s := Coords(a, b, c); s != "" && IsDigit(s[|s| - 1]) && '/' !in s
  {
    NumberIsClean(a);
    NumberIsClean(b);
    NumberIsClean(c);
    var s := Coords(a, b, c);
    assert s[|s| - 1] == ToString(c)[|ToString(c)| - 1];
  }

  /** The last tile marker is the one that was printed, whatever the location contains. */
  lemma LastMarker(a: string, coords: string)
    requires '/' !in coords
    ensures RFind(a + TILE + coords, TILE, |a + TILE + coords|) == Some(|a|)
  {
    var s := a + TILE + coords;
    assert s[|a|..|a| + |TILE|] == TILE;
    assert Matches(s, |a|, TILE);
    var r := RFind(s, TILE, |s|).value;
    assert s[r..r + |TILE|][0] == s[r] && s[r..r + |TILE|][1] == s[r + 1];
    assert s[|a|..|a| + |TILE|][2] == s[|a| + 2];
    forall q | |a| + 2 <= q < |s| ensures s[q] != '/' {
      if q < |a| + |TILE| { assert s[q] == TILE[q - |a|]; } else { assert s[q] == coords[q - |a| - |TILE|]; }
    }
  }

  lemma TileParses(a: string, coords: string, c: (int, int, int))
    requires '/' !in coords && ParseCoords(coords) == Some(c)
    ensures ParseTile(a + TILE + coords) == Body(Tile, c.0, c.1, c.2, a)
  {
    LastMarker(a, coords);
    Pieces(a, TILE, coords);
  }

  lemma TileNotOther(a: string, coords: string)
    requires coords != "" && IsDigit(coords[|coords| - 1])
    ensures !EndsWith(a + TILE + coords, INFO) && !EndsWith(a + TILE + coords, TILES)
  {
    NotAtEnd(a + TILE, coords, INFO);
    NotAtEnd(a + TILE, coords, TILES);
  }

  lemma TileBack(r: Route, a: string)
    requires r.kind == Tile && Int32(r.scale) && Int32(r.x) && Int32(r.y)
    ensures ParseTile(a + Suffix(r)) == Body(Tile, r.scale, r.x, r.y, a)
    ensures !EndsWith(a + Suffix(r), INFO) && !EndsWith(a + Suffix(r), TILES)
  {
    var coords := Coords(r.scale, r.x, r.y);
    CoordsEnd(r.scale, r.x, r.y);
    CoordsBack(r.scale, r.x, r.y);
    Join(a, TILE, coords);
    TileParses(a, coords, (r.scale, r.x, r.y));
    TileNotOther(a, coords);
  }

  lemma Join(a: string, b: string, c: string)
    ensures a + (b + c) == a + b + c
  {
  }

  lemma Pieces(a: string, b: string, c: string)
    ensures (a + b + c)[..|a|] == a && (a + b + c)[|a| + |b|..] == c
  {
  }

  lemma InfoBack(a: string)
    ensures Parse("/" + (a + INFO)) == Body(Info, 0, 0, 0, a)
  {
    assert ("/" + (a + INFO))[1..] == a + INFO;
    AtEnd(a, INFO);
  }

  lemma TilesBack(a: string)
    ensures Parse("/" + (a + TILES)) == Body(Tiles, 0, 0, 0, a)
  {
    assert ("/" + (a + TILES))[1..] == a + TILES;
    AtEnd(a, TILES);
    NotAtEnd(a, TILES, INFO);
  }

  /** Parsing takes the printed suffix off again. */
  lemma SuffixBack(r: Route)
    requires Int32(r.scale) && Int32(r.x) && Int32(r.y)
    ensures var a := Prefix(r) + r.location;
      Parse(Received(r)) == if r.kind == Tile then Body(Tile, r.scale, r.x, r.y, a) else Body(r.kind, 0, 0, 0, a)
  {
    var a := Prefix(r) + r.location;
    if r.kind == Info {
      InfoBack(a);
    } else if r.kind == Tiles {
      TilesBack(a);
    } else {
      TileBack(r, a);
      assert ("/" + (a + Suffix(r)))[1..] == a + Suffix(r);
    }
  }

  lemma BodyBack(kind: RouteKind, s: int, x: int, y: int, r: Route)
    ensures Body(kind, s, x, y, Prefix(r) + r.location) ==
      if r.location == "" then None
      else if r.byContentId || !StartsWith(r.location, BLOB) then Some(Route(kind, r.location, r.byContentId, s, x, y))
      else if r.location == BLOB then None
      else Some(Route(kind, r.location[|BLOB|..], true, s, x, y))
  {
    var p := Prefix(r) + r.location;
    if r.byContentId {
      assert p[..|BLOB|] == BLOB && p[|BLOB|..] == r.location;
    } else {
      assert p == r.location;
      assert StartsWith(p, BLOB) && p[|BLOB|..] == "" ==> p == p[..|BLOB|] + p[|BLOB|..] == BLOB;
    }
  }

  /** A route survives formatting, percent-decoding and parsing exactly when its location is not
      empty, is not mistaken for a content id, and only a tile has coordinates. */
  lemma RoundTripIff(r: Route)
    requires Bytes(r.location) && Int32(r.scale) && Int32(r.x) && Int32(r.y)
    ensures Parse(Location.Decode(Format(r))) == Some(r)
      <==> r.location != "" && (r.byContentId || !StartsWith(r.location, BLOB))
           && (r.kind == Tile || (r.scale == 0 && r.x == 0 && r.y == 0))
  {
    FormatIsReceived(r);
    SuffixBack(r);
    if r.kind == Tile {
      BodyBack(Tile, r.scale, r.x, r.y, r);
    } else {
      BodyBack(r.kind, 0, 0, 0, r);
    }
  }

  lemma CoordsRange(s: string)
    ensures ParseCoords(s).Some? ==> var c := ParseCoords(s).value; Int32(c.0) && Int32(c.1) && Int32(c.2)
  {
  }

  /** What a parse returns: part of the path, never empty, never mistakable. */
  ghost predicate Parsed(path: string, r: Route) {
    && r.location != "" && (exists a, b :: 0 <= a <= b <= |path| && r.location == path[a..b])
    && (r.byContentId || !StartsWith(r.location, BLOB))
    && (r.kind == Tile || (r.scale == 0 && r.x == 0 && r.y == 0))
    && Int32(r.scale) && Int32(r.x) && Int32(r.y)
  }

  lemma BodyParsed(path: string, n: nat, kind: RouteKind, s: int, x: int, y: int)
    requires 1 <= n <= |path| && Int32(s) && Int32(x) && Int32(y) && (kind == Tile || (s == 0 && x == 0 && y == 0))
    ensures Body(kind, s, x, y, path[1..][..n - 1]).Some? ==>
      Parsed(path, Body(kind, s, x, y, path[1..][..n - 1]).value)
  {
    var p := path[1..][..n - 1];
    assert p == path[1..n];
    if StartsWith(p, BLOB) {
      assert p[|BLOB|..] == path[1 + |BLOB|..n];
    }
  }

  lemma ParseParsed(path: string)
    requires Parse(path).Some?
    ensures Parsed(path, Parse(path).value)
  {
    var p := path[1..];
    if EndsWith(p, INFO) {
      BodyParsed(path, |path| - |INFO|, Info, 0, 0, 0);
    } else if EndsWith(p, TILES) {
      BodyParsed(path, |path| - |TILES|, Tiles, 0, 0, 0);
    } else {
      var pos := RFind(p, TILE, |p|).value;
      var c := ParseCoords(p[pos + |TILE|..]).value;
      CoordsRange(p[pos + |TILE|..]);
      BodyParsed(path, pos + 1, Tile, c.0, c.1, c.2);
    }
  }

  /** So every parsed route can be formatted again and comes back. */
  lemma ParsedIsStable(path: string)
    requires Parse(path).Some? && Bytes(path)
    ensures var r := Parse(path).value; Bytes(r.location) && Parse(Location.Decode(Format(r))) == Some(r)
  {
    ParseParsed(path);
    RoundTripIff(Parse(path).value);
  }
}
