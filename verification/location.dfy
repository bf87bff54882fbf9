// Location URIs: scheme, base and the ordered pipes behind it (src/uri.cpp), over any good
// lexicon of markers.
module Location {
  import opened Wrappers
  import opened Decimals
  import opened Pipes
  import opened LexicalPath

  datatype Scheme = File | Http | Https | ContentSha256 | ContentSha1 | Unknown

  datatype Loc = Loc(scheme: Scheme, base: string, pipes: seq<Pipe>)

  // ---- Percent encoding of the base ----

  predicate EscapeAt(s: string, i: nat) {
    i + 2 < |s| && s[i] == '%' && HexNibble(s[i + 1]) >= 0 && HexNibble(s[i + 2]) >= 0
  }

  function Decode(s: string): string {
    if s == "" then ""
    else if EscapeAt(s, 0) then [(HexNibble(s[1]) * 16 + HexNibble(s[2])) as char] + Decode(s[3..])
    else [s[0]] + Decode(s[1..])
  }

  lemma DecodeUnfold(s: string, i: nat)
    requires i < |s|
    ensures Decode(s[i..])
      == if EscapeAt(s, i) then [(HexNibble(s[i + 1]) * 16 + HexNibble(s[i + 2])) as char] + Decode(s[i + 3..])
                              else [s[i]] + Decode(s[i + 1..])
  {
    var t := s[i..];
    assert t[0] == s[i] && t[1..] == s[i + 1..] && (EscapeAt(t, 0) <==> EscapeAt(s, i));
    assert EscapeAt(s, i) ==> t[1] == s[i + 1] && t[2] == s[i + 2] && t[3..] == s[i + 3..];
  }

  lemma Regroup(a: string, c: char, b: string)
    ensures a + ([c] + b) == (a + [c]) + b
  {
  }

  /** percent_decode_path. */
  method PercentDecode(rest: string) returns (path: string)
    ensures path == Decode(rest)
  {
    path := "";
    var i := 0;
    assert rest[0..] == rest;
    while i < |rest|
      invariant 0 <= i <= |rest| && Decode(rest) == path + Decode(rest[i..])
      decreases |rest| - i
    {
      DecodeUnfold(rest, i);
      if rest[i] == '%' && i + 2 < |rest| {
        var hi, lo := HexNibble(rest[i + 1]), HexNibble(rest[i + 2]);
        if hi >= 0 && lo >= 0 {
          Regroup(path, (hi * 16 + lo) as char, Decode(rest[i + 3..]));
          path := path + [(hi * 16 + lo) as char];
          i := i + 3;
          continue;
        }
      }
      Regroup(path, rest[i], Decode(rest[i + 1..]));
      path := path + [rest[i]];
      i := i + 1;
    }
  }

  /** The loop of file_uri_from_path: only spaces are escaped. */
  function Encode(path: string): string {
    if path == "" then "" else (if path[0] == ' ' then "%20" else [path[0]]) + Encode(path[1..])
  }

  ghost predicate NoEscape(s: string) { forall i: nat :: !EscapeAt(s, i) }

  lemma EncodeCons(c: char, rest: string)
    ensures Encode([c] + rest) == (if c == ' ' then "%20" else [c]) + Encode(rest)
  {
    assert ([c] + rest)[1..] == rest;
  }

  lemma DecodePlain(c: char, t: string)
    requires !EscapeAt([c] + t, 0)
    ensures Decode([c] + t) == [c] + Decode(t)
  {
    assert ([c] + t)[1..] == t;
  }

  lemma DecodeEscape(a: char, b: char, t: string)
    requires HexNibble(a) >= 0 && HexNibble(b) >= 0
    ensures Decode(['%', a, b] + t) == [(HexNibble(a) * 16 + HexNibble(b)) as char] + Decode(t)
  {
    var s := ['%', a, b] + t;
    assert EscapeAt(s, 0) && s[3..] == t;
  }

  lemma DecodeEscaped(a: char, b: char, t: string)
    requires HexNibble(a) >= 0 && HexNibble(b) >= 0
    ensures Decode(Encode(['%', a, b] + t)) == [(HexNibble(a) * 16 + HexNibble(b)) as char] + Decode(Encode(t))
  {
    assert ['%', a, b] + t == ['%'] + ([a] + ([b] + t));
    EncodeCons('%', [a] + ([b] + t));
    EncodeCons(a, [b] + t);
    EncodeCons(b, t);
    assert Encode(['%', a, b] + t) == ['%', a, b] + Encode(t);
    DecodeEscape(a, b, Encode(t));
  }

  lemma DecodeUnescaped(c: char, t: string)
    requires !EscapeAt([c] + t, 0)
    ensures Decode(Encode([c] + t)) == [c] + Decode(Encode(t))
  {
    EncodeCons(c, t);
    if c == ' ' {
      DecodeEscape('2', '0', Encode(t));
    } else {
      EncodedNotHex(t);
      DecodePlain(c, Encode(t));
    }
  }

  /** What decoding does at the first character of an encoded path. */
  lemma DecodeStep(b: string)
    requires b != ""
    ensures EscapeAt(b, 0) ==> |Decode(Encode(b))| == 1 + |Decode(Encode(b[3..]))|
    ensures !EscapeAt(b, 0) ==> Decode(Encode(b)) == [b[0]] + Decode(Encode(b[1..]))
  {
    if EscapeAt(b, 0) {
      assert b == ['%', b[1], b[2]] + b[3..];
      DecodeEscaped(b[1], b[2], b[3..]);
    } else {
      assert b == [b[0]] + b[1..];
      DecodeUnescaped(b[0], b[1..]);
    }
  }

  /** Encoding does not make hex digits out of other text. */
  lemma EncodedNotHex(b: string)
    ensures var s := Encode(b); |s| > 1 && HexNibble(s[0]) >= 0 && HexNibble(s[1]) >= 0 ==>
      |b| > 1 && s[0] == b[0] && s[1] == b[1]
  {
    if |b| > 0 {
      assert b == [b[0]] + b[1..];
      EncodeCons(b[0], b[1..]);
      if |b| > 1 {
        assert b[1..] == [b[1]] + b[2..];
        EncodeCons(b[1], b[2..]);
      }
    }
  }

  lemma {:induction false} DecodeShrinks(b: string)
    ensures |Decode(Encode(b))| <= |b|
    ensures |Decode(Encode(b))| == |b| ==> NoEscape(b)
    decreases |b|
  {
    if b != "" {
      DecodeStep(b);
      if EscapeAt(b, 0) {
        DecodeShrinks(b[3..]);
      } else {
        DecodeShrinks(b[1..]);
        if |Decode(Encode(b))| == |b| {
          forall i: nat ensures !EscapeAt(b, i) {
            if i > 0 { assert !EscapeAt(b[1..], i - 1); }
          }
        }
      }
    }
  }

  lemma {:induction false} DecodeEncode(b: string)
    requires NoEscape(b)
    ensures Decode(Encode(b)) == b
  {
    if b != "" {
      DecodeStep(b);
      assert !EscapeAt(b, 0);
      forall i: nat ensures !EscapeAt(b[1..], i) { assert !EscapeAt(b, i + 1); }
      DecodeEncode(b[1..]);
    }
  }

  // ---- Locations ----

  const SHA256_PREFIX: string := "sha256:"
  const SHA1_PREFIX: string := "sha1:"

  ghost predicate Contains(x: Lexicon, s: string, hit: Hit) { exists p :: At(s, p, x.tag(hit)) }

  /** The four finds that decide whether an https location is looked at for pipes. */
  ghost predicate Mentions(x: Lexicon, s: string) {
    Contains(x, s, HitArchive) || Contains(x, s, HitPage) || Contains(x, s, HitPoppler) || Contains(x, s, HitMupdf)
  }

  ghost function WithPipes(x: Lexicon, scheme: Scheme, base: string, rest: string): Option<Loc>
    requires Good(x)
  {
    if base == "" || ParsePipes(x, rest, 0).None? then None else Some(Loc(scheme, base, ParsePipes(x, rest, 0).value))
  }

  predicate StartsWith(s: string, t: string) { |t| <= |s| && s[..|t|] == t }

  /** parse_location. */
  ghost function Parse(x: Lexicon, uri: string): Option<Loc>
    requires Good(x)
  {
    if StartsWith(uri, "file://") then
      var rest := uri[7..];
      WithPipes(x, File, Decode(rest[..FirstMark(x, rest, 0)]), rest)
    else if StartsWith(uri, "https://") then
      var rest := uri[8..];
      if Mentions(x, rest) then WithPipes(x, Https, rest[..FirstMark(x, rest, 0)], rest)
      else if rest == "" then None else Some(Loc(Https, rest, []))
    else if StartsWith(uri, "http://") then
      var rest := uri[7..];
      WithPipes(x, Http, rest[..FirstMark(x, rest, 0)], rest)
    else if StartsWith(uri, SHA256_PREFIX) then Some(Loc(ContentSha256, uri, []))
    else if StartsWith(uri, SHA1_PREFIX) then Some(Loc(ContentSha1, uri, []))
    else None
  }

  /** format_location. */
  function Format(x: Lexicon, loc: Loc): string {
    match loc.scheme
    case File => "file://" + (Encode(Normalise(loc.base)) + PrintAll(x, loc.pipes))
    case Http => "http://" + (loc.base + PrintAll(x, loc.pipes))
    case Https => "https://" + (loc.base + PrintAll(x, loc.pipes))
    case Unknown => ""
    case _ => loc.base
  }

  /** Encoding keeps the slashes where they are apart. */
  lemma {:induction false} EncodedApart(path: string)
    requires Apart(path)
    ensures Apart(Encode(path))
    ensures path != "" && path[0] != '/' ==> Encode(path)[0] != '/'
    ensures path != "" ==> Encode(path) != ""
  {
    if path != "" {
      var tail := path[1..];
      forall i | 0 <= i < |tail| - 1 && tail[i] == '/' ensures tail[i + 1] != '/' {
        assert path[i + 1] == tail[i] && path[i + 1 + 1] == tail[i + 1];
      }
      EncodedApart(tail);
      var head, rest := if path[0] == ' ' then "%20" else [path[0]], Encode(tail);
      var s := head + rest;
      forall i | 0 <= i < |s| - 1 && s[i] == '/' ensures s[i + 1] != '/' {
        if i >= |head| {
          assert rest[i - |head|] == '/';
        } else {
          assert i == 0 && path[0] == '/' && tail != "" && path[0 + 1] == tail[0];
        }
      }
    }
  }

  lemma ApartIsMarkerFree(x: Lexicon, path: string)
    requires Good(x)
    requires Apart(path)
    ensures MarkerFree(x, Encode(path))
  {
    var s := Encode(path);
    EncodedApart(path);
    forall p: nat | p < |s| ensures !MarkAt(x, s, p) {
      if MarkAt(x, s, p) { MarkStart(x, s, p); }
    }
  }

  lemma DropPrefix(a: string, s: string)
    ensures StartsWith(a + s, a) && (a + s)[|a|..] == s
  {
  }

  lemma NotThatPrefix(s: string, t: string, k: nat)
    requires k < |t| && k < |s| && s[k] != t[k]
    ensures !StartsWith(s, t)
  {
    assert |t| <= |s| ==> s[..|t|][k] == s[k];
  }

  /** What a printed file location is read back as: its base normalised, then decoded. */
  lemma FileParses(x: Lexicon, loc: Loc)
    requires Good(x) && loc.scheme == File
    ensures var base := Decode(Encode(Normalise(loc.base)));
      && (AllWellFormed(x, loc.pipes) && base != "" ==> Parse(x, Format(x, loc)) == Some(loc.(base := base)))
      && (Parse(x, Format(x, loc)) == Some(loc) <==> base == loc.base && base != "" && AllWellFormed(x, loc.pipes))
  {
    var text := Encode(Normalise(loc.base));
    DropPrefix("file://", text + PrintAll(x, loc.pipes));
    NormalisedIsApart(loc.base);
    ApartIsMarkerFree(x, Normalise(loc.base));
    BaseAndPipes(x, text, loc.pipes);
  }

  /** A file location survives printing and parsing exactly when its base is not empty, is
      normalised and holds no percent escape, and its pipes are well formed: digits where
      numbers belong, canonical layouts, members without markers, an archive root only at the
      end, and no legacy kind. */
  lemma FileRoundTripIff(x: Lexicon, loc: Loc)
    requires Good(x) && loc.scheme == File
    ensures Parse(x, Format(x, loc)) == Some(loc)
      <==> loc.base != "" && Normalise(loc.base) == loc.base && NoEscape(loc.base) && AllWellFormed(x, loc.pipes)
  {
    FileParses(x, loc);
    BaseComesBack(loc.base);
  }

  /** Decoding and normalising only ever shorten, so a base comes back only if neither changes it. */
  lemma BaseComesBack(base: string)
    ensures Decode(Encode(Normalise(base))) == base <==> Normalise(base) == base && NoEscape(base)
  {
    NormaliseShrinks(base);
    DecodeShrinks(Normalise(base));
    if NoEscape(Normalise(base)) {
      DecodeEncode(Normalise(base));
    }
  }

  lemma HttpParses(x: Lexicon, rest: string)
    requires Good(x)
    ensures Parse(x, "http://" + rest) == WithPipes(x, Http, rest[..FirstMark(x, rest, 0)], rest)
  {
    var s := "http://" + rest;
    DropPrefix("http://", rest);
    NotThatPrefix(s, "file://", 0);
    NotThatPrefix(s, "https://", 4);
  }

  lemma HttpsParses(x: Lexicon, rest: string)
    requires Good(x)
    ensures Parse(x, "https://" + rest) ==
      if Mentions(x, rest) then WithPipes(x, Https, rest[..FirstMark(x, rest, 0)], rest)
      else if rest == "" then None else Some(Loc(Https, rest, []))
  {
    DropPrefix("https://", rest);
    NotThatPrefix("https://" + rest, "file://", 0);
  }

  /** An http location survives exactly when its base is not empty and holds no marker, and
      its pipes are well formed. */
  lemma HttpRoundTripIff(x: Lexicon, loc: Loc)
    requires Good(x)
    requires loc.scheme == Http
    ensures Parse(x, Format(x, loc)) == Some(loc)
      <==> loc.base != "" && MarkerFree(x, loc.base) && AllWellFormed(x, loc.pipes)
  {
    HttpParses(x, loc.base + PrintAll(x, loc.pipes));
    if MarkerFree(x, loc.base) {
      BaseAndPipes(x, loc.base, loc.pipes);
    } else {
      MarkedBase(x, loc.base, PrintAll(x, loc.pipes));
    }
  }

  lemma SameBase(base: string, t: string)
    requires base + t == base
    ensures t == ""
  {
    assert |base + t| == |base| + |t|;
  }

  /** Of an https location the pipes are only looked for when an archive or page marker is
      there: without one it survives only if it has no pipes at all. */
  lemma HttpsRoundTripIff(x: Lexicon, loc: Loc)
    requires Good(x)
    requires loc.scheme == Https
    ensures Parse(x, Format(x, loc)) == Some(loc)
      <==> loc.base != "" && if Mentions(x, loc.base + PrintAll(x, loc.pipes))
                             then MarkerFree(x, loc.base) && AllWellFormed(x, loc.pipes) else loc.pipes == []
  {
    HttpsParses(x, loc.base + PrintAll(x, loc.pipes));
    PrintsSomething(x, loc.pipes);
    if !Mentions(x, loc.base + PrintAll(x, loc.pipes)) {
      if loc.base + PrintAll(x, loc.pipes) == loc.base { SameBase(loc.base, PrintAll(x, loc.pipes)); }
      if loc.pipes == [] { assert loc.base + "" == loc.base; }
    } else if MarkerFree(x, loc.base) {
      BaseAndPipes(x, loc.base, loc.pipes);
    } else {
      MarkedBase(x, loc.base, PrintAll(x, loc.pipes));
    }
  }

  /** The pipes that are lost end up in the base. */
  lemma HttpsPipesAreLost(x: Lexicon, loc: Loc)
    requires Good(x) && loc.scheme == Https && loc.base != "" && !Mentions(x, loc.base + PrintAll(x, loc.pipes))
    ensures Parse(x, Format(x, loc)) == Some(Loc(Https, loc.base + PrintAll(x, loc.pipes), []))
  {
    HttpsParses(x, loc.base + PrintAll(x, loc.pipes));
  }

  /** So an embedded image of an https document is read back as one long base. */
  lemma HttpsImageIsLost(x: Lexicon, base: string, digits: string)
    requires Good(x) && MarkerFree(x, base) && base != "" && '/' !in digits
    ensures var loc := Loc(Https, base, [Pipe(PdfImage, digits)]);
      Parse(x, Format(x, loc)) == Some(Loc(Https, base + PrintAll(x, loc.pipes), []))
  {
    var ps := [Pipe(PdfImage, digits)];
    var rest := base + PrintAll(x, ps);
    AtWhole(rest);
    AtConcat(rest, 0, base, PrintAll(x, ps));
    PrintedAt(x, rest, |base|, ps);
    forall p, hit: Hit | At(rest, p, x.tag(hit)) ensures hit == HitImage {
      OnlyImage(x, rest, base, digits, p, hit);
    }
    HttpsPipesAreLost(x, Loc(Https, base, ps));
  }

  lemma OnlyImage(x: Lexicon, s: string, base: string, digits: string, p: int, hit: Hit)
    requires Good(x) && MarkerFree(x, base) && '/' !in digits && At(s, 0, base)
    requires var tag := x.tag(HitImage);
      At(s, |base|, tag) && At(s, |base| + |tag|, digits) && |base| + |tag| + |digits| == |s|
    requires At(s, p, x.tag(hit))
    ensures hit == HitImage
  {
    var tag := x.tag(HitImage);
    MarkerIs(x, s, |base|, HitImage);
    MarkerIs(x, s, p, hit);
    MarkStart(x, s, p);
    if p < |base| {
      NoMarkInside(x, s, 0, base, p);
    } else if p > |base| {
      ImageTail(x, s, |base|, digits, p);
    }
  }

  /** Behind the start of an image pipe there is no further double slash. */
  lemma ImageTail(x: Lexicon, s: string, n: nat, digits: string, p: nat)
    requires Good(x) && '/' !in digits && n < p && p + 1 < |s|
    requires var tag := x.tag(HitImage); At(s, n, tag) && At(s, n + |tag|, digits) && n + |tag| + |digits| == |s|
    ensures s[p] != '/' || s[p + 1] != '/'
  {
    var tag := x.tag(HitImage);
    var k := p - n;
    if k + 1 < |tag| {
      assert s[n + (k + 1)] == Ch(tag, k + 1);
    } else if k < |tag| {
      assert s[n + k] == Ch(tag, k);
    } else {
      assert s[n + |tag| + (k - |tag|)] == Ch(digits, k - |tag|);
    }
  }

  /** A content id survives exactly when it has the prefix of its scheme and no pipes. */
  lemma ContentRoundTripIff(x: Lexicon, loc: Loc)
    requires Good(x)
    requires loc.scheme == ContentSha256 || loc.scheme == ContentSha1
    ensures Parse(x, Format(x, loc)) == Some(loc)
      <==> loc.pipes == [] && StartsWith(loc.base, if loc.scheme == ContentSha256 then SHA256_PREFIX else SHA1_PREFIX)
  {
    var s := loc.base;
    if StartsWith(s, SHA256_PREFIX) || StartsWith(s, SHA1_PREFIX) {
      PrefixChars(s);
      NotThatPrefix(s, "file://", 0);
      NotThatPrefix(s, "https://", 0);
      NotThatPrefix(s, "http://", 0);
    }
    if StartsWith(s, SHA256_PREFIX) {
      NotThatPrefix(s, SHA1_PREFIX, 3);
    }
  }

  lemma PrefixChars(s: string)
    requires StartsWith(s, SHA256_PREFIX) || StartsWith(s, SHA1_PREFIX)
    ensures |s| > 3 && s[0] == 's' && (StartsWith(s, SHA256_PREFIX) ==> s[3] == '2')
  {
    assert StartsWith(s, SHA256_PREFIX) ==> s[..7][0] == s[0] && s[..7][3] == s[3];
    assert StartsWith(s, SHA1_PREFIX) ==> s[..5][0] == s[0];
  }

  lemma MentionsWide(x: Lexicon, s: string, p: nat, hit: Hit)
    requires Wide(hit) && At(s, p, x.tag(hit))
    ensures Mentions(x, s)
  {
    assert Contains(x, s, hit);
  }

  lemma MentionIsKeptAt(x: Lexicon, rest: string, base: string, p: nat, hit: Hit)
    requires Good(x) && Wide(hit) && At(rest, p, x.tag(hit)) && ParsePipes(x, rest, 0).Some?
    ensures Mentions(x, base + PrintAll(x, ParsePipes(x, rest, 0).value))
  {
    MarkerIs(x, rest, p, hit);
    WideIsParsed(x, rest, 0, p);
    var ps := ParsePipes(x, rest, 0).value;
    var q, again := WideIsPrinted(x, ps);
    AtBehind(base, PrintAll(x, ps), q, x.tag(again));
    MentionsWide(x, base + PrintAll(x, ps), |base| + q, again);
  }

  /** Pipes that were parsed because a marker asked for them print such a marker again. */
  lemma MentionIsKept(x: Lexicon, rest: string, base: string)
    requires Good(x) && Mentions(x, rest) && ParsePipes(x, rest, 0).Some?
    ensures Mentions(x, base + PrintAll(x, ParsePipes(x, rest, 0).value))
  {
    forall p: nat, hit | Wide(hit) && At(rest, p, x.tag(hit))
      ensures Mentions(x, base + PrintAll(x, ParsePipes(x, rest, 0).value))
    {
      MentionIsKeptAt(x, rest, base, p, hit);
    }
  }

  lemma HttpsIsStable(x: Lexicon, rest: string)
    requires Good(x) && Parse(x, "https://" + rest).Some?
    ensures var loc := Parse(x, "https://" + rest).value;
      loc.scheme == Https && Parse(x, Format(x, loc)) == Some(loc)
  {
    HttpsParses(x, rest);
    var loc := Parse(x, "https://" + rest).value;
    if Mentions(x, rest) {
      MentionIsKept(x, rest, loc.base);
      ParsedWellFormed(x, rest, 0);
      SliceMarkerFree(x, rest, 0, FirstMark(x, rest, 0));
      assert rest[0..FirstMark(x, rest, 0)] == rest[..FirstMark(x, rest, 0)];
    } else {
      assert rest + "" == rest;
    }
    HttpsRoundTripIff(x, loc);
  }

  /** A parsed location, printed, parses to itself, but for a file base that came out of the
      decoding unnormalised or with an escape in it. */
  lemma ParsedIsStable(x: Lexicon, uri: string)
    requires Good(x) && Parse(x, uri).Some?
    ensures var loc := Parse(x, uri).value;
      (Parse(x, Format(x, loc)) == Some(loc))
      <==> (loc.scheme == File ==> Normalise(loc.base) == loc.base && NoEscape(loc.base))
  {
    var loc := Parse(x, uri).value;
    if loc.scheme == File {
      FileIsStableIff(x, uri);
    } else if loc.scheme == Https {
      assert uri == "https://" + uri[8..];
      HttpsIsStable(x, uri[8..]);
    } else if loc.scheme == Http {
      HttpIsStable(x, uri);
    } else {
      ContentRoundTripIff(x, loc);
    }
  }

  lemma FileIsStableIff(x: Lexicon, uri: string)
    requires Good(x) && Parse(x, uri).Some? && Parse(x, uri).value.scheme == File
    ensures var loc := Parse(x, uri).value;
      (Parse(x, Format(x, loc)) == Some(loc)) <==> Normalise(loc.base) == loc.base && NoEscape(loc.base)
  {
    FileIsParsed(x, uri);
    FileRoundTripIff(x, Parse(x, uri).value);
  }

  lemma FileIsParsed(x: Lexicon, uri: string)
    requires Good(x) && Parse(x, uri).Some? && Parse(x, uri).value.scheme == File
    ensures Parse(x, uri).value.base != "" && AllWellFormed(x, Parse(x, uri).value.pipes)
  {
    ParsedWellFormed(x, uri[7..], 0);
  }

  lemma HttpIsStable(x: Lexicon, uri: string)
    requires Good(x) && Parse(x, uri).Some? && Parse(x, uri).value.scheme == Http
    ensures Parse(x, Format(x, Parse(x, uri).value)) == Parse(x, uri)
  {
    ParsedWellFormed(x, uri[7..], 0);
    SliceMarkerFree(x, uri[7..], 0, FirstMark(x, uri[7..], 0));
    assert uri[7..][0..FirstMark(x, uri[7..], 0)] == uri[7..][..FirstMark(x, uri[7..], 0)];
    HttpRoundTripIff(x, Parse(x, uri).value);
  }
}
