// The location URIs of the repository: the real markers and layout parameters, and what
// printing and parsing a location promises (src/uri.cpp).
module Uri {
  import opened Wrappers
  import opened Pipes
  import opened Location
  import opened LexicalPath
  import EpubLayout

  function Tag(hit: Hit): string {
    match hit
    case HitArchive => "//archive"
    case HitEpub => "//epub:"
    case HitPage => "//page:"
    case HitPoppler => "//poppler-page:"
    case HitMupdf => "//mupdf-page:"
    case HitImages => "//pdfimages"
    case HitImage => "//pdfimage:"
  }

  function Canonical(params: string): string { EpubLayout.Format(EpubLayout.Parse(params)) }

  /** The source's markers and layout parameters. */
  function Std(): Lexicon { Lexicon((hit: Hit) => Tag(hit), (v: string) => Canonical(v)) }

  lemma TagsAreTagLike(hit: Hit)
    ensures TagLike(Tag(hit))
  {
  }

  /** A position where two markers differ. */
  function Differ(a: Hit, b: Hit): (d: nat)
    requires a != b
    ensures d < |Tag(a)| && d < |Tag(b)| && Tag(a)[d] != Tag(b)[d]
  {
    if Tag(a)[2] != Tag(b)[2] then 2 else if Tag(a)[3] != Tag(b)[3] then 3 else 10
  }

  /** No marker begins another one, and printing layout parameters is idempotent. */
  lemma StdIsGood()
    ensures Good(Std())
  {
    var x := Std();
    forall h ensures TagLike(x.tag(h)) { TagsAreTagLike(h); }
    forall a, b | a != b ensures Unlike(x.tag(a), x.tag(b)) {
      var d := Differ(a, b);
      assert Ch(x.tag(a), d) != Ch(x.tag(b), d);
    }
    forall v ensures '/' !in x.canon(v) && x.canon(x.canon(v)) == x.canon(v) {
      EpubLayout.NoSlash(EpubLayout.Parse(v));
      EpubLayout.Canonicalisation(v);
    }
  }

  /** parse_location and format_location. */
  ghost function ParseLocation(uri: string): Option<Loc> {
    StdIsGood();
    Parse(Std(), uri)
  }

  function FormatLocation(loc: Loc): string { Format(Std(), loc) }

  /** File locations: exactly those with a normalised base without an escape, and with well
      formed pipes, survive printing and parsing. */
  lemma FileRoundTrip(loc: Loc)
    requires loc.scheme == File
    ensures ParseLocation(FormatLocation(loc)) == Some(loc)
      <==> loc.base != "" && Normalise(loc.base) == loc.base && NoEscape(loc.base) && AllWellFormed(Std(), loc.pipes)
  {
    StdIsGood();
    FileRoundTripIff(Std(), loc);
  }

  lemma HttpRoundTrip(loc: Loc)
    requires loc.scheme == Http
    ensures ParseLocation(FormatLocation(loc)) == Some(loc)
      <==> loc.base != "" && MarkerFree(Std(), loc.base) && AllWellFormed(Std(), loc.pipes)
  {
    StdIsGood();
    HttpRoundTripIff(Std(), loc);
  }

  /** Https locations: pipes are only looked for behind an archive or page marker. */
  lemma HttpsRoundTrip(loc: Loc)
    requires loc.scheme == Https
    ensures ParseLocation(FormatLocation(loc)) == Some(loc)
      <==> loc.base != "" && if Mentions(Std(), loc.base + PrintAll(Std(), loc.pipes))
                             then MarkerFree(Std(), loc.base) && AllWellFormed(Std(), loc.pipes) else loc.pipes == []
  {
    StdIsGood();
    HttpsRoundTripIff(Std(), loc);
  }

  /** So an embedded image of an https document is read back as one long base. */
  lemma HttpsImageBecomesBase(base: string, digits: string)
    requires MarkerFree(Std(), base) && base != "" && '/' !in digits
    ensures var loc := Loc(Https, base, [Pipe(PdfImage, digits)]);
      ParseLocation(FormatLocation(loc)) == Some(Loc(Https, base + PrintAll(Std(), loc.pipes), []))
  {
    StdIsGood();
    HttpsImageIsLost(Std(), base, digits);
  }

  /** What a parse returns is printed to something that parses to it again, exactly unless its
      file base came out of the decoding unnormalised or with an escape in it. */
  lemma ParsedRoundTrip(uri: string)
    requires ParseLocation(uri).Some?
    ensures var loc := ParseLocation(uri).value;
      (ParseLocation(FormatLocation(loc)) == Some(loc))
      <==> (loc.scheme == File ==> Normalise(loc.base) == loc.base && NoEscape(loc.base))
  {
    StdIsGood();
    ParsedIsStable(Std(), uri);
  }

  /** Bases that do not come back, such as /a/./b: the dot component is normalised away. */
  lemma DotIsNormalisedAway(a: string, b: string)
    requires Plain(a) && Plain(b) && NoEscape("/" + a + "/" + b)
    ensures ParseLocation(FormatLocation(Loc(File, "/" + a + "/" + "." + "/" + b, [])))
         == Some(Loc(File, "/" + a + "/" + b, []))
  {
    StdIsGood();
    DotGoes(a, b);
    DecodeEncode("/" + a + "/" + b);
    FileParses(Std(), Loc(File, "/" + a + "/" + "." + "/" + b, []));
  }
}
