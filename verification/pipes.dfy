// Pipes behind a location: markers, the pipe parser and the pipe printer (src/uri.cpp). The
// text of the markers and the form of layout parameters are a parameter here; module Location
// supplies the real ones.
module Pipes {
  import opened Wrappers
  import opened Decimals

  datatype PipeKind =
    ArchiveRoot | ArchiveMember | EpubPipe | PdfPage | PdfPagePoppler | PdfPageMupdf | PdfImage | PdfImages

  datatype Pipe = Pipe(kind: PipeKind, value: string)

  datatype Hit = HitArchive | HitEpub | HitPage | HitPoppler | HitMupdf | HitImages | HitImage

  /** How markers are spelled, and the canonical form of layout parameters. */
  datatype Lexicon = Lexicon(tag: Hit -> string, canon: string -> string)

  function Ch(t: string, k: nat): char
    requires k < |t|
  {
    t[k]
  }

  /** Two slashes, then at least five characters that are not slashes. */
  ghost predicate TagLike(t: string) {
    && 7 <= |t| && Ch(t, 0) == Ch(t, 1) == '/'
    && forall k: nat {:trigger Ch(t, k)} :: 2 <= k < |t| ==> Ch(t, k) != '/'
  }

  ghost predicate Unlike(s: string, t: string) {
    exists k: nat :: k < |s| && k < |t| && Ch(s, k) != Ch(t, k)
  }

  ghost predicate Good(x: Lexicon) {
    && (forall h {:trigger x.tag(h)} :: TagLike(x.tag(h)))
    && (forall a, b {:trigger Unlike(x.tag(a), x.tag(b))} :: a != b ==> Unlike(x.tag(a), x.tag(b)))
    && (forall v {:trigger x.canon(v)} :: '/' !in x.canon(v))
    && (forall v {:trigger x.canon(x.canon(v))} :: x.canon(x.canon(v)) == x.canon(v))
  }

  // ---- Markers ----

  /** A string occurs at a position of another one. */
  ghost predicate At(s: string, p: int, t: string) {
    0 <= p && p + |t| <= |s| && forall k: nat {:trigger Ch(t, k)} :: k < |t| ==> s[p + k] == Ch(t, k)
  }

  ghost predicate MarkAt(x: Lexicon, s: string, p: int) { exists hit: Hit :: At(s, p, x.tag(hit)) }

  /** The marker at a position; by OneMarker there is only one. */
  ghost function MarkerAt(x: Lexicon, s: string, p: int): (hit: Hit)
    requires MarkAt(x, s, p)
    ensures At(s, p, x.tag(hit))
  {
    var hit: Hit :| At(s, p, x.tag(hit));
    hit
  }

  ghost predicate IsFirstMark(x: Lexicon, s: string, from: nat, k: nat) {
    from <= k <= |s| && (k < |s| ==> MarkAt(x, s, k)) && forall p :: from <= p < k ==> !MarkAt(x, s, p)
  }

  lemma {:induction false} FirstMarkExists(x: Lexicon, s: string, from: nat) returns (k: nat)
    requires from <= |s|
    ensures IsFirstMark(x, s, from, k)
    decreases |s| - from
  {
    if from == |s| || MarkAt(x, s, from) {
      k := from;
    } else {
      k := FirstMarkExists(x, s, from + 1);
    }
  }

  /** Where the first marker from `from` on starts, or the length. */
  ghost function FirstMark(x: Lexicon, s: string, from: nat): (k: nat)
    requires from <= |s|
    ensures IsFirstMark(x, s, from, k)
  {
    assert exists k :: IsFirstMark(x, s, from, k) by { var k := FirstMarkExists(x, s, from); }
    var k: nat :| IsFirstMark(x, s, from, k);
    k
  }

  ghost predicate MarkerFree(x: Lexicon, s: string) { forall p :: 0 <= p < |s| ==> !MarkAt(x, s, p) }

  lemma OneMarker(x: Lexicon, s: string, p: nat, a: Hit, b: Hit)
    requires Good(x)
    requires At(s, p, x.tag(a)) && At(s, p, x.tag(b))
    ensures a == b
  {
    var s1, s2 := x.tag(a), x.tag(b);
    assert a != b ==> Unlike(s1, s2);
  }

  lemma MarkerIs(x: Lexicon, s: string, p: nat, hit: Hit)
    requires Good(x)
    requires At(s, p, x.tag(hit))
    ensures MarkAt(x, s, p) && MarkerAt(x, s, p) == hit
  {
    OneMarker(x, s, p, hit, MarkerAt(x, s, p));
  }

  lemma MarkStart(x: Lexicon, s: string, p: nat)
    requires Good(x)
    requires MarkAt(x, s, p)
    ensures p + 2 < |s| && s[p] == '/' && s[p + 1] == '/' && s[p + 2] != '/'
  {
    var tag := x.tag(MarkerAt(x, s, p));
    assert Ch(tag, 0) == '/' && Ch(tag, 1) == '/' && Ch(tag, 2) != '/';
  }

  lemma AtConcat(s: string, p: nat, a: string, b: string)
    ensures At(s, p, a + b) <==> At(s, p, a) && At(s, p + |a|, b)
  {
    AtParts(s, p, a, b);
    AtJoin(s, p, a, b);
  }

  lemma AtParts(s: string, p: nat, a: string, b: string)
    ensures At(s, p, a + b) ==> At(s, p, a) && At(s, p + |a|, b)
  {
    if At(s, p, a + b) {
      forall k: nat | k < |a| ensures s[p + k] == Ch(a, k) { assert Ch(a + b, k) == Ch(a, k); }
      forall k: nat | k < |b| ensures s[p + |a| + k] == Ch(b, k) { assert Ch(a + b, |a| + k) == Ch(b, k); }
    }
  }

  lemma AtJoin(s: string, p: nat, a: string, b: string)
    ensures At(s, p, a) && At(s, p + |a|, b) ==> At(s, p, a + b)
  {
    if At(s, p, a) && At(s, p + |a|, b) {
      forall k: nat | k < |a + b| ensures s[p + k] == Ch(a + b, k) {
        if k < |a| { assert Ch(a + b, k) == Ch(a, k); } else { assert Ch(a + b, k) == Ch(b, k - |a|); }
      }
    }
  }

  lemma AtSlice(s: string, p: nat, t: string)
    requires At(s, p, t)
    ensures s[p..p + |t|] == t
  {
    forall k: nat | k < |t| ensures s[p..p + |t|][k] == t[k] { assert s[p + k] == Ch(t, k); }
  }

  lemma AtWithin(s: string, a: nat, v: string, p: nat, t: string)
    requires At(s, a, v) && At(s, p, t) && a <= p && p + |t| <= a + |v|
    ensures At(v, p - a, t)
  {
    forall k: nat | k < |t| ensures v[p - a + k] == Ch(t, k) {
      assert s[a + (p - a + k)] == Ch(v, p - a + k);
    }
  }

  /** No marker starts inside text without markers, not even one that reaches into the marker
      behind that text. */
  lemma NoMarkInside(x: Lexicon, s: string, a: nat, v: string, p: nat)
    requires Good(x)
    requires At(s, a, v) && MarkerFree(x, v) && a <= p < a + |v|
    requires a + |v| == |s| || MarkAt(x, s, a + |v|)
    ensures !MarkAt(x, s, p)
  {
    forall hit: Hit ensures !At(s, p, x.tag(hit)) { NoTagInside(x, s, a, v, p, hit); }
  }

  lemma NoTagInside(x: Lexicon, s: string, a: nat, v: string, p: nat, hit: Hit)
    requires Good(x)
    requires At(s, a, v) && MarkerFree(x, v) && a <= p < a + |v|
    requires a + |v| == |s| || MarkAt(x, s, a + |v|)
    ensures !At(s, p, x.tag(hit))
  {
    var tag, b := x.tag(hit), a + |v|;
    if b < |s| { MarkStart(x, s, b); }
    if p + |tag| <= b {
      if At(s, p, tag) {
        AtWithin(s, a, v, p, tag);
        assert MarkAt(x, v, p - a);
      }
    } else {
      assert Ch(tag, if b - p == 1 then 2 else b - p) != '/';
    }
  }

  lemma FirstMarkAfter(x: Lexicon, s: string, a: nat, v: string)
    requires Good(x)
    requires At(s, a, v) && MarkerFree(x, v) && (a + |v| == |s| || MarkAt(x, s, a + |v|))
    ensures FirstMark(x, s, a) == a + |v|
  {
    var k := FirstMark(x, s, a);
    if k < a + |v| {
      NoMarkInside(x, s, a, v, k);
    }
  }

  lemma SliceMarkerFree(x: Lexicon, s: string, a: nat, b: nat)
    requires Good(x)
    requires a <= b <= |s| && forall p :: a <= p < b ==> !MarkAt(x, s, p)
    ensures MarkerFree(x, s[a..b])
  {
    var v := s[a..b];
    forall p | 0 <= p < |v| ensures !MarkAt(x, v, p) {
      if MarkAt(x, v, p) {
        AtOfSlice(s, a, b, p, x.tag(MarkerAt(x, v, p)));
        assert MarkAt(x, s, a + p);
      }
    }
  }

  lemma AtOfSlice(s: string, a: nat, b: nat, p: nat, t: string)
    requires a <= b <= |s| && At(s[a..b], p, t)
    ensures At(s, a + p, t)
  {
    forall k: nat | k < |t| ensures s[a + p + k] == Ch(t, k) { assert s[a..b][p + k] == s[a + (p + k)] == Ch(t, k); }
  }

  lemma SlashlessIsMarkerFree(x: Lexicon, v: string)
    requires Good(x)
    requires '/' !in v
    ensures MarkerFree(x, v)
  {
    forall p: nat | p < |v| ensures !MarkAt(x, v, p) {
      if MarkAt(x, v, p) { MarkStart(x, v, p); }
    }
  }

  // ---- Finding markers as the source does ----

  ghost predicate FirstOf(s: string, tag: string, from: nat, k: nat) {
    && from <= k <= |s| && (k < |s| ==> At(s, k, tag))
    && forall i {:trigger At(s, i, tag)} :: from <= i < k ==> !At(s, i, tag)
  }

  method Matches(s: string, p: nat, tag: string) returns (r: bool)
    ensures r <==> At(s, p, tag)
  {
    if p + |tag| > |s| {
      return false;
    }
    for k := 0 to |tag|
      invariant forall j: nat {:trigger Ch(tag, j)} :: j < k ==> s[p + j] == Ch(tag, j)
    {
      if s[p + k] != Ch(tag, k) {
        return false;
      }
    }
    return true;
  }

  method Find(s: string, tag: string, from: nat) returns (k: nat)
    requires from <= |s|
    ensures FirstOf(s, tag, from, k)
  {
    k := from;
    while k < |s|
      invariant from <= k <= |s| && forall i {:trigger At(s, i, tag)} :: from <= i < k ==> !At(s, i, tag)
    {
      var here := Matches(s, k, tag);
      if here {
        return;
      }
      k := k + 1;
    }
  }

  /** find_first_pipe: the least of the seven finds. `hit` keeps its old value when there is none. */
  method FindFirstPipe(x: Lexicon, rest: string, from: nat, hit0: Hit) returns (next: nat, hit: Hit)
    requires Good(x)
    requires from <= |rest|
    ensures next == FirstMark(x, rest, from)
    ensures if next < |rest| then MarkerAt(x, rest, next) == hit else hit == hit0
  {
    var order := [HitArchive, HitEpub, HitPage, HitPoppler, HitMupdf, HitImages, HitImage];
    next, hit := |rest|, hit0;
    for q := 0 to |order|
      invariant from <= next <= |rest|
      invariant if next < |rest| then At(rest, next, x.tag(hit)) else hit == hit0
      invariant forall i, p {:trigger At(rest, i, x.tag(order[p]))} :: from <= i < next && 0 <= p < q ==>
        !At(rest, i, x.tag(order[p]))
    {
      var pos := Find(rest, x.tag(order[q]), from);
      if pos < |rest| && pos < next {
        next, hit := pos, order[q];
      }
    }
    forall i | from <= i < next ensures !MarkAt(x, rest, i) {
      forall h: Hit ensures !At(rest, i, x.tag(h)) {
        var p := match h case HitArchive => 0 case HitEpub => 1 case HitPage => 2 case HitPoppler => 3
                         case HitMupdf => 4 case HitImages => 5 case HitImage => 6;
        assert order[p] == h;
      }
    }
    if next < |rest| { MarkerIs(x, rest, next, hit); }
  }

  // ---- Parsing pipes ----

  function DigitEnd(s: string, from: nat): (n: nat)
    requires from <= |s|
    ensures from <= n <= |s| && (n < |s| ==> !IsDigit(s[n])) && forall k :: from <= k < n ==> IsDigit(s[k])
    decreases |s| - from
  {
    if from == |s| || !IsDigit(s[from]) then from else DigitEnd(s, from + 1)
  }

  function PageKind(hit: Hit): PipeKind {
    if hit.HitImage? then PdfImage else if hit.HitMupdf? then PdfPageMupdf else PdfPage
  }

  ghost function LayoutAt(x: Lexicon, s: string, a: nat): (Pipe, nat)
    requires a <= |s|
  {
    (Pipe(EpubPipe, x.canon(s[a..FirstMark(x, s, a)])), FirstMark(x, s, a))
  }

  ghost function ArchiveAt(x: Lexicon, s: string, a: nat): (r: Option<(Pipe, nat)>)
    requires a <= |s|
    ensures r.Some? ==> a <= r.value.1 <= |s|
  {
    if a == |s| then Some((Pipe(ArchiveRoot, ""), a))
    else if s[a] != ':' then None
    else Some((Pipe(ArchiveMember, s[a + 1..FirstMark(x, s, a + 1)]), FirstMark(x, s, a + 1)))
  }

  ghost function NumberAt(s: string, kind: PipeKind, a: nat): (r: Option<(Pipe, nat)>)
    requires a <= |s|
    ensures r.Some? ==> a <= r.value.1 <= |s|
  {
    if DigitEnd(s, a) == a then None else Some((Pipe(kind, s[a..DigitEnd(s, a)]), DigitEnd(s, a)))
  }

  /** The pipe whose payload starts at `a`, and where it ends. */
  ghost function OnePipe(x: Lexicon, s: string, hit: Hit, a: nat): (r: Option<(Pipe, nat)>)
    requires a <= |s|
    ensures r.Some? ==> a <= r.value.1 <= |s|
  {
    if hit.HitImages? then Some((Pipe(PdfImages, ""), a))
    else if hit.HitEpub? then Some(LayoutAt(x, s, a))
    else if hit.HitArchive? then ArchiveAt(x, s, a)
    else NumberAt(s, PageKind(hit), a)
  }

  function Prepend(p: Pipe, ps: Option<seq<Pipe>>): Option<seq<Pipe>> {
    if ps.None? then None else Some([p] + ps.value)
  }

  /** parse_pipes from a position: every marker must open a valid pipe; text before one is skipped. */
  ghost function ParsePipes(x: Lexicon, s: string, i: nat): Option<seq<Pipe>>
    requires Good(x) && i <= |s|
    decreases |s| - i
  {
    var k := FirstMark(x, s, i);
    if k == |s| then Some([])
    else
      var hit := MarkerAt(x, s, k);
      var p := OnePipe(x, s, hit, k + |x.tag(hit)|);
      if p.None? then None else Prepend(p.value.0, ParsePipes(x, s, p.value.1))
  }

  // ---- Printing pipes ----

  function HitOf(k: PipeKind): Hit {
    match k
    case ArchiveRoot => HitArchive
    case ArchiveMember => HitArchive
    case PdfPage => HitPage
    case PdfPagePoppler => HitPage
    case PdfPageMupdf => HitMupdf
    case EpubPipe => HitEpub
    case PdfImage => HitImage
    case PdfImages => HitImages
  }

  /** What a printed pipe says after its marker. */
  function Payload(x: Lexicon, p: Pipe): string {
    match p.kind
    case ArchiveRoot => ""
    case PdfImages => ""
    case ArchiveMember => ":" + p.value
    case EpubPipe => x.canon(p.value)
    case _ => p.value
  }

  /** How format_location prints a pipe; the legacy page kind is printed as a plain page. */
  function Print(x: Lexicon, p: Pipe): string { x.tag(HitOf(p.kind)) + Payload(x, p) }

  function PrintAll(x: Lexicon, ps: seq<Pipe>): string {
    if ps == [] then "" else Print(x, ps[0]) + PrintAll(x, ps[1..])
  }

  /** Pipes that a parse can return. */
  ghost predicate WellFormed(x: Lexicon, p: Pipe) {
    match p.kind
    case ArchiveRoot => p.value == ""
    case PdfImages => p.value == ""
    case ArchiveMember => MarkerFree(x, p.value)
    case EpubPipe => x.canon(p.value) == p.value
    case PdfPagePoppler => false
    case _ => p.value != "" && AllDigits(p.value)
  }

  ghost predicate AllWellFormed(x: Lexicon, ps: seq<Pipe>) {
    && (forall i :: 0 <= i < |ps| ==> WellFormed(x, ps[i]))
    && forall i :: 0 <= i < |ps| - 1 ==> ps[i].kind != ArchiveRoot
  }

  /** Printed pipes at the end of a string: the first one's marker, payload, and the rest. */
  lemma PrintedAt(x: Lexicon, s: string, j: nat, ps: seq<Pipe>)
    requires Good(x)
    requires ps != [] && At(s, j, PrintAll(x, ps)) && j + |PrintAll(x, ps)| == |s|
    ensures var tag, load := x.tag(HitOf(ps[0].kind)), Payload(x, ps[0]); var b := j + |tag| + |load|;
      && At(s, j, tag) && At(s, j + |tag|, load) && At(s, b, PrintAll(x, ps[1..])) && b + |PrintAll(x, ps[1..])| == |s|
      && MarkAt(x, s, j) && MarkerAt(x, s, j) == HitOf(ps[0].kind)
  {
    AtThree(s, j, x.tag(HitOf(ps[0].kind)), Payload(x, ps[0]), PrintAll(x, ps[1..]));
    MarkerIs(x, s, j, HitOf(ps[0].kind));
  }

  lemma AtThree(s: string, j: nat, a: string, b: string, c: string)
    requires At(s, j, a + b + c) && j + |a + b + c| == |s|
    ensures At(s, j, a) && At(s, j + |a|, b) && At(s, j + |a| + |b|, c) && j + |a| + |b| + |c| == |s|
  {
    AtConcat(s, j, a + b, c);
    AtConcat(s, j, a, b);
  }

  lemma PrintedMark(x: Lexicon, s: string, j: nat, ps: seq<Pipe>)
    requires Good(x)
    requires At(s, j, PrintAll(x, ps)) && j + |PrintAll(x, ps)| == |s|
    ensures j == |s| <==> ps == []
    ensures j == |s| || MarkAt(x, s, j)
  {
    if ps != [] { PrintedAt(x, s, j, ps); }
  }

  lemma DigitEndIs(s: string, a: nat, v: string)
    requires At(s, a, v) && AllDigits(v) && (a + |v| == |s| || s[a + |v|] == '/')
    ensures DigitEnd(s, a) == a + |v|
  {
    forall k | a <= k < a + |v| ensures IsDigit(s[k]) { assert s[a + (k - a)] == Ch(v, k - a); }
  }

  lemma MemberBack(x: Lexicon, s: string, a: nat, v: string)
    requires Good(x)
    requires At(s, a, ":") && At(s, a + 1, v) && MarkerFree(x, v)
    requires var b := a + 1 + |v|; b == |s| || MarkAt(x, s, b)
    ensures ArchiveAt(x, s, a) == Some((Pipe(ArchiveMember, v), a + 1 + |v|))
  {
    assert s[a + 0] == Ch(":", 0);
    FirstMarkAfter(x, s, a + 1, v);
    AtSlice(s, a + 1, v);
  }

  lemma DigitsBack(x: Lexicon, s: string, a: nat, kind: PipeKind, v: string)
    requires Good(x)
    requires At(s, a, v) && AllDigits(v) && v != "" && (a + |v| == |s| || MarkAt(x, s, a + |v|))
    ensures NumberAt(s, kind, a) == Some((Pipe(kind, v), a + |v|))
  {
    if a + |v| < |s| { MarkStart(x, s, a + |v|); }
    DigitEndIs(s, a, v);
    AtSlice(s, a, v);
  }

  lemma LayoutBack(x: Lexicon, s: string, a: nat, v: string)
    requires Good(x)
    requires At(s, a, v) && x.canon(v) == v && (a + |v| == |s| || MarkAt(x, s, a + |v|))
    ensures LayoutAt(x, s, a) == (Pipe(EpubPipe, v), a + |v|)
  {
    SlashlessIsMarkerFree(x, v);
    FirstMarkAfter(x, s, a, v);
    AtSlice(s, a, v);
  }

  /** One printed pipe is taken off again. */
  lemma OnePipeBack(x: Lexicon, s: string, a: nat, p: Pipe)
    requires Good(x)
    requires WellFormed(x, p) && At(s, a, Payload(x, p)) && (p.kind == ArchiveRoot ==> a == |s|)
    requires var b := a + |Payload(x, p)|; b == |s| || MarkAt(x, s, b)
    ensures OnePipe(x, s, HitOf(p.kind), a) == Some((p, a + |Payload(x, p)|))
  {
    if p.kind == ArchiveMember {
      AtConcat(s, a, ":", p.value);
      MemberBack(x, s, a, p.value);
    } else if p.kind == EpubPipe {
      LayoutBack(x, s, a, p.value);
    } else if p.kind != ArchiveRoot && p.kind != PdfImages {
      DigitsBack(x, s, a, p.kind, p.value);
    }
  }

  lemma ParseEnd(x: Lexicon, s: string, i: nat)
    requires Good(x)
    requires i <= |s| && FirstMark(x, s, i) == |s|
    ensures ParsePipes(x, s, i) == Some([])
  {
  }

  lemma ParseStep(x: Lexicon, s: string, i: nat, j: nat, hit: Hit, p: Pipe, b: nat)
    requires Good(x)
    requires i <= j < |s| && FirstMark(x, s, i) == j && MarkerAt(x, s, j) == hit
    requires j + |x.tag(hit)| <= |s| && OnePipe(x, s, hit, j + |x.tag(hit)|) == Some((p, b))
    ensures ParsePipes(x, s, i) == Prepend(p, ParsePipes(x, s, b))
  {
  }

  lemma TailWellFormed(x: Lexicon, ps: seq<Pipe>)
    requires Good(x)
    requires ps != [] && AllWellFormed(x, ps)
    ensures WellFormed(x, ps[0]) && AllWellFormed(x, ps[1..]) && (ps[0].kind == ArchiveRoot ==> ps[1..] == [])
  {
  }

  /** Where the text after the first printed pipe starts. */
  function PipeEnd(x: Lexicon, j: nat, p: Pipe): nat { j + |x.tag(HitOf(p.kind))| + |Payload(x, p)| }

  lemma PrintedStep(x: Lexicon, s: string, i: nat, j: nat, ps: seq<Pipe>)
    requires Good(x) && ps != [] && WellFormed(x, ps[0]) && (ps[0].kind == ArchiveRoot ==> ps[1..] == [])
    requires i <= j < |s| && FirstMark(x, s, i) == j
    requires At(s, j, PrintAll(x, ps)) && j + |PrintAll(x, ps)| == |s|
    ensures var b := PipeEnd(x, j, ps[0]);
      && b <= |s| && At(s, b, PrintAll(x, ps[1..])) && b + |PrintAll(x, ps[1..])| == |s|
      && FirstMark(x, s, b) == b
      && ParsePipes(x, s, i) == Prepend(ps[0], ParsePipes(x, s, b))
  {
    var hit := HitOf(ps[0].kind);
    var b := PipeEnd(x, j, ps[0]);
    PrintedAt(x, s, j, ps);
    PrintedMark(x, s, b, ps[1..]);
    OnePipeBack(x, s, j + |x.tag(hit)|, ps[0]);
    ParseStep(x, s, i, j, hit, ps[0], b);
  }

  /** Printed pipes parse back, in order, behind any text without markers. */
  lemma {:induction false} PipesRoundTrip(x: Lexicon, s: string, i: nat, j: nat, ps: seq<Pipe>)
    requires Good(x) && i <= j <= |s| && FirstMark(x, s, i) == j && AllWellFormed(x, ps)
    requires At(s, j, PrintAll(x, ps)) && j + |PrintAll(x, ps)| == |s|
    ensures ParsePipes(x, s, i) == Some(ps)
    decreases |ps|
  {
    if ps == [] {
      ParseEnd(x, s, i);
    } else {
      var first, rest := ps[0], ps[1..];
      var e := PipeEnd(x, j, first);
      TailWellFormed(x, ps);
      PrintedMark(x, s, j, ps);
      PrintedStep(x, s, i, j, ps);
      PipesRoundTrip(x, s, e, e, rest);
      assert ps == [first] + rest;
    }
  }

  // ---- What a parse returns ----

  lemma OnePipeWellFormed(x: Lexicon, s: string, hit: Hit, a: nat)
    requires Good(x)
    requires a <= |s| && OnePipe(x, s, hit, a).Some?
    ensures WellFormed(x, OnePipe(x, s, hit, a).value.0)
    ensures OnePipe(x, s, hit, a).value.0.kind == ArchiveRoot ==> OnePipe(x, s, hit, a).value.1 == |s|
  {
    if hit.HitArchive? && a < |s| {
      SliceMarkerFree(x, s, a + 1, FirstMark(x, s, a + 1));
    }
  }

  lemma {:induction false} ParsedWellFormed(x: Lexicon, s: string, i: nat)
    requires Good(x)
    requires i <= |s| && ParsePipes(x, s, i).Some?
    ensures AllWellFormed(x, ParsePipes(x, s, i).value)
    decreases |s| - i
  {
    var k := FirstMark(x, s, i);
    if k < |s| {
      var hit := MarkerAt(x, s, k);
      var a := k + |x.tag(hit)|;
      OnePipeWellFormed(x, s, hit, a);
      var p := OnePipe(x, s, hit, a).value;
      ParsedWellFormed(x, s, p.1);
      if p.0.kind == ArchiveRoot {
        assert ParsePipes(x, s, p.1) == Some([]);
      }
    }
  }

  // ---- The loop of parse_pipes ----

  /** The rest of the loop appends to what it already has. */
  function Joined(out: seq<Pipe>, more: Option<seq<Pipe>>): Option<seq<Pipe>> {
    if more.None? then None else Some(out + more.value)
  }

  method ReadDigits(rest: string, from: nat) returns (n: nat)
    requires from <= |rest|
    ensures n == DigitEnd(rest, from)
  {
    n := from;
    while n < |rest| && '0' <= rest[n] <= '9'
      invariant from <= n <= |rest| && DigitEnd(rest, from) == DigitEnd(rest, n)
    {
      n := n + 1;
    }
  }

  method ReadPipe(x: Lexicon, rest: string, hit: Hit, a: nat) returns (r: Option<(Pipe, nat)>)
    requires Good(x)
    requires a <= |rest|
    ensures r == OnePipe(x, rest, hit, a)
  {
    match hit {
      case HitImages => return Some((Pipe(PdfImages, ""), a));
      case HitEpub =>
        var end, dummy := FindFirstPipe(x, rest, a, HitArchive);
        return Some((Pipe(EpubPipe, x.canon(rest[a..end])), end));
      case HitArchive =>
        if a == |rest| {
          return Some((Pipe(ArchiveRoot, ""), a));
        }
        if rest[a] != ':' {
          return None;
        }
        var end, dummy := FindFirstPipe(x, rest, a + 1, HitArchive);
        return Some((Pipe(ArchiveMember, rest[a + 1..end]), end));
      case _ =>
        var end := ReadDigits(rest, a);
        if end == a {
          return None;
        }
        return Some((Pipe(PageKind(hit), rest[a..end]), end));
    }
  }

  /** parse_pipes: an index walks over the string, pipes are appended to a vector. */
  method ReadPipes(x: Lexicon, rest: string) returns (r: Option<seq<Pipe>>)
    requires Good(x)
    ensures r == ParsePipes(x, rest, 0)
  {
    var out: seq<Pipe> := [];
    var i := 0;
    JoinNothing(ParsePipes(x, rest, 0));
    while i < |rest|
      invariant i <= |rest| && ParsePipes(x, rest, 0) == Joined(out, ParsePipes(x, rest, i))
      decreases |rest| - i
    {
      var next, hit := FindFirstPipe(x, rest, i, HitArchive);
      if next == |rest| {
        JoinNone(out, x, rest, i);
        return Some(out);
      }
      var p := ReadPipe(x, rest, hit, next + |x.tag(hit)|);
      if p.None? {
        ParseFails(x, rest, i, next, hit);
        return None;
      }
      JoinStep(out, x, rest, i, next, hit, p.value.0, p.value.1);
      out := out + [p.value.0];
      i := p.value.1;
    }
    JoinNone(out, x, rest, i);
    return Some(out);
  }

  lemma ParseFails(x: Lexicon, s: string, i: nat, j: nat, hit: Hit)
    requires Good(x) && i <= j < |s| && FirstMark(x, s, i) == j && MarkerAt(x, s, j) == hit
    requires j + |x.tag(hit)| <= |s| && OnePipe(x, s, hit, j + |x.tag(hit)|) == None
    ensures ParsePipes(x, s, i) == None
  {
  }

  lemma JoinNone(out: seq<Pipe>, x: Lexicon, s: string, i: nat)
    requires Good(x) && i <= |s| && FirstMark(x, s, i) == |s|
    ensures Joined(out, ParsePipes(x, s, i)) == Some(out)
  {
    ParseEnd(x, s, i);
    assert out + [] == out;
  }

  lemma JoinStep(out: seq<Pipe>, x: Lexicon, s: string, i: nat, j: nat, hit: Hit, p: Pipe, b: nat)
    requires Good(x) && i <= j < |s| && FirstMark(x, s, i) == j && MarkerAt(x, s, j) == hit
    requires j + |x.tag(hit)| <= |s| && OnePipe(x, s, hit, j + |x.tag(hit)|) == Some((p, b))
    ensures Joined(out, ParsePipes(x, s, i)) == Joined(out + [p], ParsePipes(x, s, b))
  {
    ParseStep(x, s, i, j, hit, p, b);
    PrependJoins(out, p, ParsePipes(x, s, b));
  }

  lemma JoinNothing(more: Option<seq<Pipe>>)
    ensures Joined([], more) == more
  {
    if more.Some? {
      assert [] + more.value == more.value;
    }
  }

  lemma PrependJoins(out: seq<Pipe>, p: Pipe, more: Option<seq<Pipe>>)
    ensures Joined(out, Prepend(p, more)) == Joined(out + [p], more)
  {
    if more.Some? {
      assert out + ([p] + more.value) == out + [p] + more.value;
    }
  }

  // ---- Pipes behind a base ----

  /** Base and pipes come apart again where they were joined. */
  lemma BaseAndPipes(x: Lexicon, base: string, ps: seq<Pipe>)
    requires Good(x)
    requires MarkerFree(x, base)
    ensures var rest := base + PrintAll(x, ps);
      && rest[..FirstMark(x, rest, 0)] == base
      && (ParsePipes(x, rest, 0) == Some(ps) <==> AllWellFormed(x, ps))
  {
    var rest := base + PrintAll(x, ps);
    AtWhole(rest);
    AtConcat(rest, 0, base, PrintAll(x, ps));
    PrintedMark(x, rest, |base|, ps);
    FirstMarkAfter(x, rest, 0, base);
    if AllWellFormed(x, ps) {
      PipesRoundTrip(x, rest, 0, |base|, ps);
    } else if ParsePipes(x, rest, 0).Some? {
      ParsedWellFormed(x, rest, 0);
    }
  }

  lemma AtWhole(s: string)
    ensures At(s, 0, s)
  {
  }

  lemma MarkedBase(x: Lexicon, base: string, t: string)
    requires Good(x)
    requires !MarkerFree(x, base)
    ensures FirstMark(x, base + t, 0) < |base|
  {
    var s := base + t;
    var p :| 0 <= p < |base| && MarkAt(x, base, p);
    var tag := x.tag(MarkerAt(x, base, p));
    forall k: nat | k < |tag| ensures s[p + k] == Ch(tag, k) { assert s[p + k] == base[p + k] == Ch(tag, k); }
    assert At(s, p, tag);
    assert MarkAt(x, s, p);
  }

  lemma PrintsSomething(x: Lexicon, ps: seq<Pipe>)
    requires Good(x)
    ensures PrintAll(x, ps) == "" <==> ps == []
  {
    if ps != [] { assert TagLike(x.tag(HitOf(ps[0].kind))); }
  }

  // ---- Markers that make an https location have pipes ----

  /** The markers of archives and pages. */
  predicate Wide(hit: Hit) { hit.HitArchive? || hit.HitPage? || hit.HitPoppler? || hit.HitMupdf? }

  ghost predicate HasWide(ps: seq<Pipe>) { exists k :: 0 <= k < |ps| && Wide(HitOf(ps[k].kind)) }

  /** A later marker is never inside the pipe before it. */
  lemma NextMark(x: Lexicon, s: string, k: nat, p: nat)
    requires Good(x) && MarkAt(x, s, k) && MarkAt(x, s, p) && k < p
    requires k + |x.tag(MarkerAt(x, s, k))| <= |s|
    requires OnePipe(x, s, MarkerAt(x, s, k), k + |x.tag(MarkerAt(x, s, k))|).Some?
    ensures OnePipe(x, s, MarkerAt(x, s, k), k + |x.tag(MarkerAt(x, s, k))|).value.1 <= p
  {
    var hit := MarkerAt(x, s, k);
    BehindTag(x, s, k, hit, p);
    MarkStart(x, s, p);
    var a := k + |x.tag(hit)|;
    if hit.HitEpub? {
      assert !(p < FirstMark(x, s, a));
    } else if hit.HitArchive? {
      assert a < |s| && s[a] == ':';
      assert !(p < FirstMark(x, s, a + 1));
    }
  }

  lemma BehindTag(x: Lexicon, s: string, k: nat, hit: Hit, p: nat)
    requires Good(x) && At(s, k, x.tag(hit)) && MarkAt(x, s, p) && k < p
    ensures p >= k + |x.tag(hit)|
  {
    TagRest(x, s, k, hit);
    MarkStart(x, s, p);
  }

  lemma TagRest(x: Lexicon, s: string, k: nat, hit: Hit)
    requires Good(x) && At(s, k, x.tag(hit))
    ensures forall q {:trigger s[q]} :: k + 2 <= q < k + |x.tag(hit)| ==> s[q] != '/'
  {
    var tag := x.tag(hit);
    forall q {:trigger s[q]} | k + 2 <= q < k + |tag| ensures s[q] != '/' {
      assert s[k + (q - k)] == Ch(tag, q - k);
    }
  }

  /** An archive or page marker anywhere behind the start becomes an archive or page pipe. */
  lemma {:induction false} WideIsParsed(x: Lexicon, s: string, i: nat, p: nat)
    requires Good(x) && i <= p && i <= |s| && MarkAt(x, s, p) && Wide(MarkerAt(x, s, p)) && ParsePipes(x, s, i).Some?
    ensures HasWide(ParsePipes(x, s, i).value)
    decreases |s| - i
  {
    MarkStart(x, s, p);
    var k := FirstMark(x, s, i);
    assert !(p < k);
    var hit := MarkerAt(x, s, k);
    var first := OnePipe(x, s, hit, k + |x.tag(hit)|).value;
    var ps := ParsePipes(x, s, i).value;
    if k == p {
      assert ps[0] == first.0;
    } else {
      NextMark(x, s, k, p);
      WideIsParsed(x, s, first.1, p);
      var rest := ParsePipes(x, s, first.1).value;
      var j :| 0 <= j < |rest| && Wide(HitOf(rest[j].kind));
      assert ps == [first.0] + rest && ps[j + 1] == rest[j];
    }
  }

  lemma AtBehind(a: string, t: string, p: nat, tag: string)
    requires At(t, p, tag)
    ensures At(a + t, |a| + p, tag)
  {
    forall k: nat | k < |tag| ensures (a + t)[|a| + p + k] == Ch(tag, k) {
      assert t[p + k] == Ch(tag, k);
    }
  }

  /** And such a pipe is printed with such a marker. */
  lemma {:induction false} WideIsPrinted(x: Lexicon, ps: seq<Pipe>) returns (p: nat, hit: Hit)
    requires HasWide(ps)
    ensures Wide(hit) && At(PrintAll(x, ps), p, x.tag(hit))
  {
    if Wide(HitOf(ps[0].kind)) {
      p, hit := 0, HitOf(ps[0].kind);
      AtWhole(PrintAll(x, ps));
      AtConcat(PrintAll(x, ps), 0, Print(x, ps[0]), PrintAll(x, ps[1..]));
      AtConcat(PrintAll(x, ps), 0, x.tag(hit), Payload(x, ps[0]));
    } else {
      var j :| 0 <= j < |ps| && Wide(HitOf(ps[j].kind));
      assert ps[1..][j - 1] == ps[j];
      p, hit := WideIsPrinted(x, ps[1..]);
      AtBehind(Print(x, ps[0]), PrintAll(x, ps[1..]), p, x.tag(hit));
      p := |Print(x, ps[0])| + p;
    }
  }
}
