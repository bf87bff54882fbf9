// EPUB layout parameters: the canonical printer and the tolerant parser (src/uri.cpp).
module EpubLayout {
  import opened Wrappers
  import opened Decimals

  const DEFAULT_WIDTH := 900
  const DEFAULT_HEIGHT := 1350
  const DEFAULT_FONT_SIZE := 15
  const DEFAULT_LINE_HEIGHT := 140

  datatype Align = AlignPublisher | Left | Right | Center | Justify
  datatype Font = FontPublisher | Serif | Sans | Mono
  datatype Theme = Day | Sepia | Night

  datatype Layout = Layout(w: int, h: int, fs: int, mt: int, mr: int, mb: int, ml: int, lh: int,
                           cols: int, cgap: int, align: Align, font: Font, theme: Theme, css: bool)

  function Default(): Layout {
    Layout(DEFAULT_WIDTH, DEFAULT_HEIGHT, DEFAULT_FONT_SIZE, 0, 0, 0, 0, DEFAULT_LINE_HEIGHT, 1, 0,
           AlignPublisher, FontPublisher, Day, true)
  }

  // ---- Printing ----

  function AlignToken(a: Align): string {
    match a case Left => "left" case Right => "right" case Center => "center" case Justify => "justify"
            case AlignPublisher => "publisher"
  }

  function FontToken(f: Font): string {
    match f case Serif => "serif" case Sans => "sans" case Mono => "mono" case FontPublisher => "publisher"
  }

  function ThemeToken(t: Theme): string {
    match t case Sepia => "sepia" case Night => "night" case Day => "day"
  }

  function AtLeast(x: int, low: int, otherwise: int): int { if x < low then otherwise else x }

  /** The values that format_epub_layout_params prints instead of impossible ones. */
  function Repaired(l: Layout): Layout {
    Layout(AtLeast(l.w, 1, DEFAULT_WIDTH), AtLeast(l.h, 1, DEFAULT_HEIGHT), AtLeast(l.fs, 1, DEFAULT_FONT_SIZE),
           AtLeast(l.mt, 0, 0), AtLeast(l.mr, 0, 0), AtLeast(l.mb, 0, 0), AtLeast(l.ml, 0, 0),
           AtLeast(l.lh, 0, 0), AtLeast(l.cols, 1, 1), AtLeast(l.cgap, 0, 0), l.align, l.font, l.theme, l.css)
  }

  predicate HasMargin(l: Layout) { l.mt > 0 || l.mr > 0 || l.mb > 0 || l.ml > 0 }

  /** One more parameter, with its comma. */
  function Item(key: string, v: string): string { "," + (key + "=" + v) }

  function MarginPart(l: Layout): string {
    if HasMargin(l) then Item("mt", ToString(l.mt)) + Item("mr", ToString(l.mr))
                         + Item("mb", ToString(l.mb)) + Item("ml", ToString(l.ml)) else ""
  }

  function LinePart(l: Layout): string { if l.lh > 0 then Item("lh", ToString(l.lh)) else "" }

  function ColumnPart(l: Layout): string {
    if l.cols <= 1 then ""
    else Item("cols", ToString(l.cols)) + if l.cgap > 0 then Item("cgap", ToString(l.cgap)) else ""
  }

  function AlignPart(l: Layout): string { if l.align != AlignPublisher then Item("align", AlignToken(l.align)) else "" }

  function FontPart(l: Layout): string { if l.font != FontPublisher then Item("ff", FontToken(l.font)) else "" }

  function ThemePart(l: Layout): string { if l.theme != Day then Item("theme", ThemeToken(l.theme)) else "" }

  function CssPart(l: Layout): string { if !l.css then Item("pubcss", "0") else "" }

  /** format_epub_layout_params: the canonical key order. */
  function Format(layout: Layout): string {
    var l := Repaired(layout);
    ("w" + "=" + ToString(l.w)) + Item("h", ToString(l.h)) + Item("fs", ToString(l.fs))
    + MarginPart(l) + LinePart(l) + ColumnPart(l) + AlignPart(l) + FontPart(l) + ThemePart(l) + CssPart(l)
  }

  // ---- Parsing ----

  function AlignOf(v: string): Align {
    if v == "left" then Left else if v == "right" then Right
    else if v == "center" || v == "centre" then Center else if v == "justify" then Justify else AlignPublisher
  }

  function FontOf(v: string): Font {
    if v == "serif" then Serif else if v == "sans" || v == "sans-serif" then Sans
    else if v == "mono" || v == "monospace" then Mono else FontPublisher
  }

  function ThemeOf(v: string): Theme {
    if v == "sepia" then Sepia else if v == "night" || v == "dark" then Night else Day
  }

  /** as_int: digits only, accumulated in an int. */
  function AsInt(v: string): Option<int> {
    if v == "" || !AllDigits(v) then None else Some(Wrapped(v))
  }

  function Number(v: string): int {
    if AsInt(v).Some? then AsInt(v).value else -1
  }

  /** One key with its value; a key that is unknown or has a bad value changes nothing. */
  function SetField(l: Layout, key: string, v: string): Layout {
    var n := Number(v);
    if key == "w" && n >= 1 then l.(w := n)
    else if key == "h" && n >= 1 then l.(h := n)
    else if key == "fs" && n >= 1 then l.(fs := n)
    else if key == "mt" && n >= 0 then l.(mt := n)
    else if key == "mr" && n >= 0 then l.(mr := n)
    else if key == "mb" && n >= 0 then l.(mb := n)
    else if key == "ml" && n >= 0 then l.(ml := n)
    else if key == "lh" && 50 <= n <= 400 then l.(lh := n)
    else if (key == "cols" || key == "columns") && 1 <= n <= 6 then l.(cols := n)
    else if (key == "cgap" || key == "colgap") && n >= 0 then l.(cgap := n)
    else if key == "align" then l.(align := AlignOf(v))
    else if key == "ff" then l.(font := FontOf(v))
    else if key == "theme" then l.(theme := ThemeOf(v))
    else if key == "pubcss" && AsInt(v).Some? then l.(css := n != 0)
    else l
  }

  function IndexOf(s: string, c: char): (k: nat)
    ensures k <= |s| && (k < |s| ==> s[k] == c)
    ensures forall i :: 0 <= i < k ==> s[i] != c
  {
    if s == "" || s[0] == c then 0 else 1 + IndexOf(s[1..], c)
  }

  function SkipSeparators(s: string): (r: string)
    ensures |r| <= |s| && (r != "" ==> r[0] != ',' && r[0] != ' ')
  {
    if s != "" && (s[0] == ',' || s[0] == ' ') then SkipSeparators(s[1..]) else s
  }

  function TrimLeft(s: string): string {
    if s != "" && s[0] == ' ' then TrimLeft(s[1..]) else s
  }

  function TrimRight(s: string): string {
    if s != "" && s[|s| - 1] == ' ' then TrimRight(s[..|s| - 1]) else s
  }

  function Trim(s: string): string { TrimRight(TrimLeft(s)) }

  /** One round of the parse loop: a key, its trimmed value, and what is left. The key runs to
      the next '=' even across commas; without one, or at the end, parsing is over. */
  datatype Chunk = Chunk(key: string, v: string, rest: string)

  function NextChunk(s: string): (c: Option<Chunk>)
    ensures c.Some? ==> |c.value.rest| < |s|
  {
    var t := SkipSeparators(s);
    var eq := IndexOf(t, '=');
    if t == "" || eq == |t| then None
    else
      var rest := t[eq + 1..];
      var end := IndexOf(rest, ',');
      Some(Chunk(t[..eq], Trim(rest[..end]), rest[end..]))
  }

  /** What the parse loop makes of the rest of its input. */
  function ParseFrom(s: string, l: Layout): Layout
    decreases |s|
  {
    var c := NextChunk(s);
    if c.None? then l else ParseFrom(c.value.rest, SetField(l, c.value.key, c.value.v))
  }

  function Parse(params: string): Layout { ParseFrom(params, Default()) }

  // ---- The parser as the source runs it ----

  /** find: the first position from `from` on, or the length. */
  method FindChar(s: string, c: char, from: nat) returns (k: nat)
    requires from <= |s|
    ensures FirstAt(s, c, from, k)
  {
    k := from;
    while k < |s| && s[k] != c
      invariant from <= k <= |s| && forall i :: from <= i < k ==> s[i] != c
    {
      k := k + 1;
    }
  }

  ghost predicate FirstAt(s: string, c: char, from: nat, k: nat) {
    from <= k <= |s| && (k < |s| ==> s[k] == c) && forall i :: from <= i < k ==> s[i] != c
  }

  lemma FirstIsIndex(s: string, c: char, from: nat, k: nat)
    requires FirstAt(s, c, from, k)
    ensures IndexOf(s[from..], c) == k - from
  {
    var t := s[from..];
    assert forall m :: 0 <= m < |t| ==> t[m] == s[from + m];
  }

  method TrimSpaces(s: string) returns (v: string)
    ensures v == Trim(s)
  {
    v := s;
    while v != "" && v[0] == ' '
      invariant TrimLeft(v) == TrimLeft(s)
      decreases |v|
    {
      v := v[1..];
    }
    while v != "" && v[|v| - 1] == ' '
      invariant TrimRight(v) == Trim(s)
      decreases |v|
    {
      v := v[..|v| - 1];
    }
  }

  method ReadInt(v: string) returns (r: Option<int>)
    ensures r == AsInt(v)
  {
    if v == "" {
      return None;
    }
    var n := 0;
    for k := 0 to |v|
      invariant AllDigits(v[..k]) && n == Wrapped(v[..k])
    {
      if v[k] < '0' || v[k] > '9' {
        assert !IsDigit(v[k]);
        return None;
      }
      assert v[..k + 1][..k] == v[..k];
      n := Wrap32(n * 10 + DigitOf(v[k]));
    }
    assert v[..|v|] == v;
    return Some(n);
  }

  method SkipTo(params: string, from: nat) returns (i: nat)
    requires from <= |params|
    ensures from <= i <= |params| && params[i..] == SkipSeparators(params[from..])
  {
    i := from;
    while i < |params| && (params[i] == ',' || params[i] == ' ')
      invariant from <= i <= |params|
      invariant SkipSeparators(params[i..]) == SkipSeparators(params[from..])
    {
      assert params[i..][0] == params[i] && params[i..][1..] == params[i + 1..];
      i := i + 1;
    }
    if i < |params| {
      assert params[i..][0] == params[i];
    }
  }

  lemma ChunkOf(s: string, t: string, eq: nat, rest: string, end: nat, key: string, v: string, tail: string)
    requires t == SkipSeparators(s) && t != "" && eq == IndexOf(t, '=') < |t|
    requires rest == t[eq + 1..] && end == IndexOf(rest, ',')
    requires key == t[..eq] && v == rest[..end] && tail == rest[end..]
    ensures NextChunk(s) == Some(Chunk(key, Trim(v), tail))
  {
  }

  lemma RoundSlices(params: string, i: nat, eq: nat, vend: nat)
    requires i <= eq < |params| && FirstAt(params, '=', i, eq) && FirstAt(params, ',', eq + 1, vend)
    ensures IndexOf(params[i..], '=') == eq - i && IndexOf(params[eq + 1..], ',') == vend - eq - 1
    ensures params[i..][..eq - i] == params[i..eq] && params[i..][eq - i + 1..] == params[eq + 1..]
    ensures params[eq + 1..][..vend - eq - 1] == params[eq + 1..vend]
      && params[eq + 1..][vend - eq - 1..] == params[vend..]
  {
    FirstIsIndex(params, '=', i, eq);
    FirstIsIndex(params, ',', eq + 1, vend);
    SliceOfRest(params, i, eq);
    SliceOfRest(params, i, eq + 1);
    SliceOfRest(params, eq + 1, vend);
  }

  /** One round of the loop, as the specification sees it. */
  lemma ParseRound(params: string, from: nat, i: nat, eq: nat, vend: nat)
    requires from <= i < |params| && params[i..] == SkipSeparators(params[from..])
    requires FirstAt(params, '=', i, eq) && eq < |params| && FirstAt(params, ',', eq + 1, vend)
    ensures NextChunk(params[from..]) == Some(Chunk(params[i..eq], Trim(params[eq + 1..vend]), params[vend..]))
  {
    RoundSlices(params, i, eq, vend);
    ChunkOf(params[from..], params[i..], eq - i, params[eq + 1..], vend - eq - 1,
            params[i..eq], params[eq + 1..vend], params[vend..]);
  }

  lemma NoChunk(params: string, from: nat, i: nat)
    requires from <= i <= |params| && params[i..] == SkipSeparators(params[from..])
    requires i == |params| || FirstAt(params, '=', i, |params|)
    ensures NextChunk(params[from..]) == None
  {
    if i < |params| {
      FirstIsIndex(params, '=', i, |params|);
    }
  }

  lemma SliceOfRest(s: string, a: nat, b: nat)
    requires a <= b <= |s|
    ensures s[a..][..b - a] == s[a..b] && s[a..][b - a..] == s[b..]
  {
  }

  /** parse_epub_layout_params. */
  method ParseParams(params: string) returns (l: Layout)
    ensures l == Parse(params)
  {
    l := Default();
    var i := 0;
    assert params[0..] == params;
    while i < |params|
      invariant 0 <= i <= |params|
      invariant ParseFrom(params[i..], l) == Parse(params)
      decreases |params| - i
    {
      ghost var from := i;
      i := SkipTo(params, i);
      if i >= |params| {
        NoChunk(params, from, i);
        return;
      }
      var eq := FindChar(params, '=', i);
      if eq == |params| {
        NoChunk(params, from, i);
        return;
      }
      var vend := FindChar(params, ',', eq + 1);
      ParseRound(params, from, i, eq, vend);
      var v := TrimSpaces(params[eq + 1..vend]);
      var n := ReadInt(v);
      l := StoreField(l, params[i..eq], v, n);
      i := vend;
    }
  }

  /** The chain of key tests. */
  method StoreField(l: Layout, key: string, v: string, read: Option<int>) returns (r: Layout)
    requires read == AsInt(v)
    ensures r == SetField(l, key, v)
  {
    var ok := read.Some?;
    var n := if ok then read.value else 0;
    r := l;
    if key == "w" && ok && n >= 1 { r := l.(w := n); }
    else if key == "h" && ok && n >= 1 { r := l.(h := n); }
    else if key == "fs" && ok && n >= 1 { r := l.(fs := n); }
    else if key == "mt" && ok && n >= 0 { r := l.(mt := n); }
    else if key == "mr" && ok && n >= 0 { r := l.(mr := n); }
    else if key == "mb" && ok && n >= 0 { r := l.(mb := n); }
    else if key == "ml" && ok && n >= 0 { r := l.(ml := n); }
    else if key == "lh" && ok && n >= 50 && n <= 400 { r := l.(lh := n); }
    else if (key == "cols" || key == "columns") && ok && n >= 1 && n <= 6 { r := l.(cols := n); }
    else if (key == "cgap" || key == "colgap") && ok && n >= 0 { r := l.(cgap := n); }
    else if key == "align" { r := l.(align := AlignOf(v)); }
    else if key == "ff" { r := l.(font := FontOf(v)); }
    else if key == "theme" { r := l.(theme := ThemeOf(v)); }
    else if key == "pubcss" && ok { r := l.(css := n != 0); }
  }

  // ---- Fields ----

  datatype Field = Field(key: string, v: string)

  function Text(f: Field): string { f.key + "=" + f.v }

  function Render(fs: seq<Field>): string {
    if fs == [] then "" else if |fs| == 1 then Text(fs[0]) else Text(fs[0]) + "," + Render(fs[1..])
  }

  function SetAll(l: Layout, fs: seq<Field>): Layout
    decreases |fs|
  {
    if fs == [] then l else SetAll(SetField(l, fs[0].key, fs[0].v), fs[1..])
  }

  /** A field that the parser splits at the right places. */
  predicate Clean(f: Field) {
    && f.key != "" && '=' !in f.key && f.key[0] != ',' && f.key[0] != ' '
    && ',' !in f.v && (f.v != "" ==> f.v[0] != ' ' && f.v[|f.v| - 1] != ' ')
  }

  lemma {:induction false} IndexAfter(a: string, c: char, b: string)
    requires c !in a
    ensures IndexOf(a + [c] + b, c) == |a|
  {
    if a == "" {
      assert (a + [c] + b)[0] == c;
    } else {
      IndexAfter(a[1..], c, b);
      assert (a + [c] + b)[1..] == a[1..] + [c] + b;
    }
  }

  lemma IndexAbsent(a: string, c: char)
    requires c !in a
    ensures IndexOf(a, c) == |a|
  {
  }

  lemma FieldSplits(f: Field, rest: string)
    requires Clean(f) && (rest == "" || rest[0] == ',')
    ensures var s := Text(f) + rest;
      && s != "" && SkipSeparators(s) == s && IndexOf(s, '=') == |f.key| < |s|
      && s[..|f.key|] == f.key && s[|f.key| + 1..] == f.v + rest
  {
    var s := Text(f) + rest;
    assert s == f.key + ['='] + (f.v + rest);
    assert s[0] == f.key[0];
    IndexAfter(f.key, '=', f.v + rest);
  }

  lemma ValueSplits(v: string, rest: string)
    requires ',' !in v && (rest == "" || rest[0] == ',')
    ensures IndexOf(v + rest, ',') == |v| && (v + rest)[..|v|] == v && (v + rest)[|v|..] == rest
  {
    if rest == "" {
      assert v + rest == v;
      IndexAbsent(v, ',');
    } else {
      assert v + rest == v + [','] + rest[1..];
      IndexAfter(v, ',', rest[1..]);
    }
  }

  /** Parsing one rendered field and whatever follows its comma. */
  lemma ParseField(f: Field, rest: string, l: Layout)
    requires Clean(f) && (rest == "" || rest[0] == ',')
    ensures ParseFrom(Text(f) + rest, l) == ParseFrom(rest, SetField(l, f.key, f.v))
  {
    FieldSplits(f, rest);
    ValueSplits(f.v, rest);
    assert Trim(f.v) == f.v;
    assert NextChunk(Text(f) + rest) == Some(Chunk(f.key, f.v, rest));
  }

  lemma SkipComma(s: string, l: Layout)
    ensures ParseFrom("," + s, l) == ParseFrom(s, l)
  {
    assert ("," + s)[0] == ',' && ("," + s)[1..] == s;
    assert NextChunk("," + s) == NextChunk(s);
  }

  /** The parser takes rendered fields apart again, in order. */
  lemma {:induction false} ParseRender(fs: seq<Field>, l: Layout)
    requires forall k :: 0 <= k < |fs| ==> Clean(fs[k])
    ensures ParseFrom(Render(fs), l) == SetAll(l, fs)
    decreases |fs|
  {
    if |fs| > 0 {
      var l1 := SetField(l, fs[0].key, fs[0].v);
      var more := Render(fs[1..]);
      ParseRender(fs[1..], l1);
      if |fs| == 1 {
        assert Render(fs) == Text(fs[0]) + "";
        ParseField(fs[0], "", l);
      } else {
        assert Render(fs) == Text(fs[0]) + ("," + more);
        ParseField(fs[0], "," + more, l);
        SkipComma(more, l1);
      }
    }
  }

  // ---- Format as fields ----

  function WidthField(l: Layout): Field { Field("w", ToString(l.w)) }

  function SizeFields(l: Layout): seq<Field> { [Field("h", ToString(l.h)), Field("fs", ToString(l.fs))] }

  function MarginFields(l: Layout): seq<Field> {
    if HasMargin(l) then [Field("mt", ToString(l.mt)), Field("mr", ToString(l.mr)),
                          Field("mb", ToString(l.mb)), Field("ml", ToString(l.ml))] else []
  }

  function LineFields(l: Layout): seq<Field> { if l.lh > 0 then [Field("lh", ToString(l.lh))] else [] }

  function ColumnFields(l: Layout): seq<Field> {
    if l.cols > 1 then [Field("cols", ToString(l.cols))] + if l.cgap > 0 then [Field("cgap", ToString(l.cgap))] else []
    else []
  }

  function AlignFields(l: Layout): seq<Field> {
    if l.align != AlignPublisher then [Field("align", AlignToken(l.align))] else []
  }

  function FontFields(l: Layout): seq<Field> {
    if l.font != FontPublisher then [Field("ff", FontToken(l.font))] else []
  }

  function ThemeFields(l: Layout): seq<Field> {
    if l.theme != Day then [Field("theme", ThemeToken(l.theme))] else []
  }

  function CssFields(l: Layout): seq<Field> { if l.css then [] else [Field("pubcss", "0")] }

  /** The fields after the first. */
  function LayoutFields(l: Layout): seq<Field> {
    SizeFields(l) + MarginFields(l) + LineFields(l) + ColumnFields(l)
  }

  function StyleFields(l: Layout): seq<Field> {
    AlignFields(l) + FontFields(l) + ThemeFields(l) + CssFields(l)
  }

  function Fields(l: Layout): seq<Field> { [WidthField(l)] + (LayoutFields(l) + StyleFields(l)) }

  /** Text printed so far, with more fields appended. */
  function Append(text: string, fs: seq<Field>): string {
    if fs == [] then text else Append(text, fs[..|fs| - 1]) + Item(fs[|fs| - 1].key, fs[|fs| - 1].v)
  }

  lemma {:induction false} AppendConcat(text: string, a: seq<Field>, b: seq<Field>)
    ensures Append(text, a + b) == Append(Append(text, a), b)
  {
    if b == [] {
      assert a + b == a;
    } else {
      AppendConcat(text, a, b[..|b| - 1]);
      assert (a + b)[..|a + b| - 1] == a + b[..|b| - 1];
    }
  }

  lemma {:induction false} AppendLast(text: string, fs: seq<Field>, more: string)
    ensures Append(text + more, fs) == text + Append(more, fs)
  {
    if fs != [] {
      AppendLast(text, fs[..|fs| - 1], more);
    }
  }

  lemma {:induction false} RenderAppends(fs: seq<Field>)
    requires fs != []
    ensures Render(fs) == Append(Text(fs[0]), fs[1..])
    decreases |fs|
  {
    if |fs| > 1 {
      var rest := fs[1..];
      RenderAppends(rest);
      AppendLast(Text(fs[0]) + ",", rest[1..], Text(rest[0]));
      assert Render(fs) == (Text(fs[0]) + ",") + Append(Text(rest[0]), rest[1..]);
      assert rest == [rest[0]] + rest[1..];
      AppendConcat(Text(fs[0]), [rest[0]], rest[1..]);
      AppendOne(Text(fs[0]), rest[0]);
      assert Text(fs[0]) + Item(rest[0].key, rest[0].v) == Text(fs[0]) + "," + Text(rest[0]);
    }
  }

  lemma AppendOne(text: string, f: Field)
    ensures Append(text, [f]) == text + Item(f.key, f.v)
  {
    assert [f][..0] == [];
  }

  lemma AppendTwo(text: string, f: Field, g: Field)
    ensures Append(text, [f, g]) == text + Item(f.key, f.v) + Item(g.key, g.v)
  {
    assert [f, g] == [f] + [g];
    AppendConcat(text, [f], [g]);
    AppendOne(text, f);
    AppendOne(text + Item(f.key, f.v), g);
  }

  lemma AppendMargins(text: string, l: Layout)
    ensures Append(text, MarginFields(l)) == text + MarginPart(l)
  {
    if HasMargin(l) {
      var fs := MarginFields(l);
      var a, b, c, d := Item("mt", fs[0].v), Item("mr", fs[1].v), Item("mb", fs[2].v), Item("ml", fs[3].v);
      assert fs == [fs[0], fs[1]] + [fs[2], fs[3]];
      AppendConcat(text, [fs[0], fs[1]], [fs[2], fs[3]]);
      AppendTwo(text, fs[0], fs[1]);
      AppendTwo(text + a + b, fs[2], fs[3]);
      Associative(text, a, b, c, d);
    }
  }

  lemma Associative(t: string, a: string, b: string, c: string, d: string)
    ensures t + a + b + c + d == t + (a + b + c + d)
  {
  }

  lemma AppendColumns(text: string, l: Layout)
    ensures Append(text, ColumnFields(l)) == text + ColumnPart(l)
  {
    if l.cols > 1 {
      var f := Field("cols", ToString(l.cols));
      AppendOne(text, f);
      if l.cgap > 0 {
        var g := Field("cgap", ToString(l.cgap));
        assert ColumnFields(l) == [f] + [g];
        AppendConcat(text, [f], [g]);
        AppendOne(text + Item(f.key, f.v), g);
      } else {
        assert ColumnFields(l) == [f] + [] == [f];
      }
    }
  }

  lemma AppendOptional(text: string, l: Layout)
    ensures Append(text, LineFields(l)) == text + LinePart(l)
    ensures Append(text, AlignFields(l)) == text + AlignPart(l)
    ensures Append(text, FontFields(l)) == text + FontPart(l)
    ensures Append(text, ThemeFields(l)) == text + ThemePart(l)
    ensures Append(text, CssFields(l)) == text + CssPart(l)
  {
    if l.lh > 0 { AppendOne(text, LineFields(l)[0]); }
    if l.align != AlignPublisher { AppendOne(text, AlignFields(l)[0]); }
    if l.font != FontPublisher { AppendOne(text, FontFields(l)[0]); }
    if l.theme != Day { AppendOne(text, ThemeFields(l)[0]); }
    if !l.css { AppendOne(text, CssFields(l)[0]); }
  }

  lemma AppendLayout(l: Layout)
    ensures Append(Text(WidthField(l)), LayoutFields(l))
      == ("w" + "=" + ToString(l.w)) + Item("h", ToString(l.h)) + Item("fs", ToString(l.fs))
         + MarginPart(l) + LinePart(l) + ColumnPart(l)
  {
    var fs := SizeFields(l);
    var t0 := Text(WidthField(l));
    var t1 := t0 + Item("h", fs[0].v) + Item("fs", fs[1].v);
    AppendTwo(t0, fs[0], fs[1]);
    AppendConcat(t0, fs + MarginFields(l) + LineFields(l), ColumnFields(l));
    AppendConcat(t0, fs + MarginFields(l), LineFields(l));
    AppendConcat(t0, fs, MarginFields(l));
    AppendMargins(t1, l);
    AppendOptional(t1 + MarginPart(l), l);
    AppendColumns(t1 + MarginPart(l) + LinePart(l), l);
  }

  lemma AppendStyle(text: string, l: Layout)
    ensures Append(text, StyleFields(l)) == text + AlignPart(l) + FontPart(l) + ThemePart(l) + CssPart(l)
  {
    AppendConcat(text, AlignFields(l) + FontFields(l) + ThemeFields(l), CssFields(l));
    AppendConcat(text, AlignFields(l) + FontFields(l), ThemeFields(l));
    AppendConcat(text, AlignFields(l), FontFields(l));
    AppendOptional(text, l);
    AppendOptional(text + AlignPart(l), l);
    AppendOptional(text + AlignPart(l) + FontPart(l), l);
    AppendOptional(text + AlignPart(l) + FontPart(l) + ThemePart(l), l);
  }

  /** The printer prints the fields of the repaired layout. */
  lemma FormatRenders(layout: Layout)
    ensures Format(layout) == Render(Fields(Repaired(layout)))
  {
    var l := Repaired(layout);
    var fs := Fields(l);
    RenderAppends(fs);
    assert fs[1..] == LayoutFields(l) + StyleFields(l);
    AppendConcat(Text(fs[0]), LayoutFields(l), StyleFields(l));
    AppendLayout(l);
    AppendStyle(Append(Text(fs[0]), LayoutFields(l)), l);
  }

  // ---- Reading the fields back ----

  lemma NumberOf(n: int)
    requires 0 <= n < TWO31
    ensures AsInt(ToString(n)) == Some(n) && Number(ToString(n)) == n
    ensures ',' !in ToString(n) && ToString(n) != "" && ToString(n)[0] != ' ' && ToString(n)[|ToString(n)| - 1] != ' '
  {
    ValueOfDec(n);
    WrappedIsValue(Dec(n));
  }

  lemma {:induction false} SetConcat(l: Layout, a: seq<Field>, b: seq<Field>)
    ensures SetAll(l, a + b) == SetAll(SetAll(l, a), b)
    decreases |a|
  {
    if a == [] {
      assert a + b == b;
    } else {
      SetConcat(SetField(l, a[0].key, a[0].v), a[1..], b);
      assert (a + b)[1..] == a[1..] + b;
    }
  }

  lemma SetOne(l: Layout, f: Field)
    ensures SetAll(l, [f]) == SetField(l, f.key, f.v)
  {
    assert [f][1..] == [];
  }

  /** The layouts that a parameter string can express. */
  predicate InRange(l: Layout) {
    && 1 <= l.w < TWO31 && 1 <= l.h < TWO31 && 1 <= l.fs < TWO31
    && 0 <= l.mt < TWO31 && 0 <= l.mr < TWO31 && 0 <= l.mb < TWO31 && 0 <= l.ml < TWO31
    && 50 <= l.lh <= 400 && 1 <= l.cols <= 6 && 0 <= l.cgap < TWO31
  }

  lemma SetTwo(l: Layout, f: Field, g: Field)
    ensures SetAll(l, [f, g]) == SetField(SetField(l, f.key, f.v), g.key, g.v)
  {
    assert [f, g] == [f] + [g];
    SetConcat(l, [f], [g]);
    SetOne(l, f);
    SetOne(SetField(l, f.key, f.v), g);
  }

  lemma SetWidth(l: Layout)
    requires InRange(l)
    ensures SetAll(Default(), [WidthField(l)]) == Default().(w := l.w) && Clean(WidthField(l))
  {
    NumberOf(l.w);
    SetOne(Default(), WidthField(l));
  }

  lemma SetSize(l: Layout, m: Layout)
    requires InRange(l)
    ensures SetAll(m, SizeFields(l)) == m.(h := l.h, fs := l.fs)
    ensures forall k :: 0 <= k < |SizeFields(l)| ==> Clean(SizeFields(l)[k])
  {
    NumberOf(l.h);
    NumberOf(l.fs);
    SetTwo(m, SizeFields(l)[0], SizeFields(l)[1]);
  }

  lemma SetMargins(l: Layout, m: Layout)
    requires InRange(l) && m.mt == m.mr == m.mb == m.ml == 0
    ensures SetAll(m, MarginFields(l)) == m.(mt := l.mt, mr := l.mr, mb := l.mb, ml := l.ml)
    ensures forall k :: 0 <= k < |MarginFields(l)| ==> Clean(MarginFields(l)[k])
  {
    if HasMargin(l) {
      var fs := MarginFields(l);
      assert fs == [fs[0], fs[1]] + [fs[2], fs[3]];
      SetConcat(m, [fs[0], fs[1]], [fs[2], fs[3]]);
      SetTopRight(l, m);
      SetBottomLeft(l, m.(mt := l.mt, mr := l.mr));
    }
  }

  lemma SetTopRight(l: Layout, m: Layout)
    requires InRange(l)
    ensures var t, r := Field("mt", ToString(l.mt)), Field("mr", ToString(l.mr));
      SetAll(m, [t, r]) == m.(mt := l.mt, mr := l.mr) && Clean(t) && Clean(r)
  {
    NumberOf(l.mt);
    NumberOf(l.mr);
    SetTwo(m, Field("mt", ToString(l.mt)), Field("mr", ToString(l.mr)));
  }

  lemma SetBottomLeft(l: Layout, m: Layout)
    requires InRange(l)
    ensures var b, left := Field("mb", ToString(l.mb)), Field("ml", ToString(l.ml));
      SetAll(m, [b, left]) == m.(mb := l.mb, ml := l.ml) && Clean(b) && Clean(left)
  {
    NumberOf(l.mb);
    NumberOf(l.ml);
    SetTwo(m, Field("mb", ToString(l.mb)), Field("ml", ToString(l.ml)));
  }

  lemma SetLine(l: Layout, m: Layout)
    requires InRange(l)
    ensures SetAll(m, LineFields(l)) == m.(lh := l.lh)
    ensures forall k :: 0 <= k < |LineFields(l)| ==> Clean(LineFields(l)[k])
  {
    NumberOf(l.lh);
    SetOne(m, LineFields(l)[0]);
  }

  lemma SetColumns(l: Layout, m: Layout)
    requires InRange(l) && m.cols == 1 && m.cgap == 0
    ensures SetAll(m, ColumnFields(l)) == m.(cols := l.cols, cgap := if l.cols > 1 then l.cgap else 0)
    ensures forall k :: 0 <= k < |ColumnFields(l)| ==> Clean(ColumnFields(l)[k])
  {
    if l.cols > 1 {
      NumberOf(l.cols);
      NumberOf(l.cgap);
      var a, b := [Field("cols", ToString(l.cols))], if l.cgap > 0 then [Field("cgap", ToString(l.cgap))] else [];
      SetConcat(m, a, b);
      SetOne(m, a[0]);
      if l.cgap > 0 { SetOne(m.(cols := l.cols), b[0]); }
    }
  }

  lemma SetAlign(l: Layout, m: Layout)
    requires m.align == AlignPublisher
    ensures SetAll(m, AlignFields(l)) == m.(align := l.align)
    ensures forall k :: 0 <= k < |AlignFields(l)| ==> Clean(AlignFields(l)[k])
  {
    if l.align != AlignPublisher { SetOne(m, AlignFields(l)[0]); }
  }

  lemma SetFont(l: Layout, m: Layout)
    requires m.font == FontPublisher
    ensures SetAll(m, FontFields(l)) == m.(font := l.font)
    ensures forall k :: 0 <= k < |FontFields(l)| ==> Clean(FontFields(l)[k])
  {
    if l.font != FontPublisher { SetOne(m, FontFields(l)[0]); }
  }

  lemma SetTheme(l: Layout, m: Layout)
    requires m.theme == Day
    ensures SetAll(m, ThemeFields(l)) == m.(theme := l.theme)
    ensures forall k :: 0 <= k < |ThemeFields(l)| ==> Clean(ThemeFields(l)[k])
  {
    if l.theme != Day { SetOne(m, ThemeFields(l)[0]); }
  }

  lemma SetCss(l: Layout, m: Layout)
    requires m.css
    ensures SetAll(m, CssFields(l)) == m.(css := l.css)
    ensures forall k :: 0 <= k < |CssFields(l)| ==> Clean(CssFields(l)[k])
  {
    if !l.css {
      SetOne(m, CssFields(l)[0]);
      assert "0"[..0] == "";
      assert AsInt("0") == Some(0);
    }
  }

  lemma SetStyle(l: Layout, m: Layout)
    requires m.align == AlignPublisher && m.font == FontPublisher && m.theme == Day && m.css
    ensures SetAll(m, StyleFields(l)) == m.(align := l.align, font := l.font, theme := l.theme, css := l.css)
    ensures forall k :: 0 <= k < |StyleFields(l)| ==> Clean(StyleFields(l)[k])
  {
    var a, b, c, d := AlignFields(l), FontFields(l), ThemeFields(l), CssFields(l);
    var m1 := m.(align := l.align);
    var m2 := m1.(font := l.font);
    var m3 := m2.(theme := l.theme);
    SetAlign(l, m);
    SetFont(l, m1);
    SetTheme(l, m2);
    SetCss(l, m3);
    SetConcat(m, a + b + c, d);
    SetConcat(m, a + b, c);
    SetConcat(m, a, b);
  }

  lemma SetLayout(l: Layout, m: Layout)
    requires InRange(l) && m.mt == m.mr == m.mb == m.ml == 0 && m.cols == 1 && m.cgap == 0
    ensures SetAll(m, LayoutFields(l))
      == m.(h := l.h, fs := l.fs, mt := l.mt, mr := l.mr, mb := l.mb, ml := l.ml, lh := l.lh,
            cols := l.cols, cgap := if l.cols > 1 then l.cgap else 0)
    ensures forall k :: 0 <= k < |LayoutFields(l)| ==> Clean(LayoutFields(l)[k])
  {
    var a, b, c, d := SizeFields(l), MarginFields(l), LineFields(l), ColumnFields(l);
    var m1 := m.(h := l.h, fs := l.fs);
    var m2 := m1.(mt := l.mt, mr := l.mr, mb := l.mb, ml := l.ml);
    SetSize(l, m);
    SetMargins(l, m1);
    SetLine(l, m2);
    SetColumns(l, m2.(lh := l.lh));
    SetConcat(m, a + b + c, d);
    SetConcat(m, a + b, c);
    SetConcat(m, a, b);
  }

  lemma SetFields(l: Layout)
    requires InRange(l)
    ensures SetAll(Default(), Fields(l)) == NoGap(l)
    ensures forall k :: 0 <= k < |Fields(l)| ==> Clean(Fields(l)[k])
  {
    var m := Default().(w := l.w);
    SetWidth(l);
    SetLayout(l, m);
    SetStyle(l, SetAll(m, LayoutFields(l)));
    SetConcat(Default(), [WidthField(l)], LayoutFields(l) + StyleFields(l));
    SetConcat(m, LayoutFields(l), StyleFields(l));
  }

  /** Reading back a printed layout gives it again, except for a column gap without columns. */
  lemma ReadBack(l: Layout)
    requires InRange(l)
    ensures Parse(Format(l)) == NoGap(l)
  {
    FormatRenders(l);
    SetFields(l);
    ParseRender(Fields(l), Default());
  }

  // ---- What can be parsed ----

  lemma SetKeepsRange(l: Layout, key: string, v: string)
    requires InRange(l)
    ensures InRange(SetField(l, key, v))
  {
  }

  lemma {:induction false} ParsedInRange(s: string, l: Layout)
    requires InRange(l)
    ensures InRange(ParseFrom(s, l))
    decreases |s|
  {
    var c := NextChunk(s);
    if c.Some? {
      SetKeepsRange(l, c.value.key, c.value.v);
      ParsedInRange(c.value.rest, SetField(l, c.value.key, c.value.v));
    }
  }

  function NoGap(l: Layout): Layout { l.(cgap := if l.cols > 1 then l.cgap else 0) }

  lemma GapIsNotPrinted(l: Layout)
    requires InRange(l)
    ensures Format(NoGap(l)) == Format(l)
  {
  }

  /** Canonicalisation: printing what was parsed, for any input at all, gives a string that
      parsing and printing leave alone, so hand-written and printed URIs share one cache key. */
  lemma Canonicalisation(s: string)
    ensures Format(Parse(Format(Parse(s)))) == Format(Parse(s))
  {
    ParsedInRange(s, Default());
    ReadBack(Parse(s));
    GapIsNotPrinted(Parse(s));
  }

  /** A layout survives printing and parsing exactly when its sizes are positive, its margins
      are not negative, its line height and columns are within the accepted limits and it has
      a column gap only together with columns. */
  lemma RoundTripIff(l: Layout)
    requires l.w < TWO31 && l.h < TWO31 && l.fs < TWO31 && l.cgap < TWO31
    requires l.mt < TWO31 && l.mr < TWO31 && l.mb < TWO31 && l.ml < TWO31
    ensures Parse(Format(l)) == l <==> InRange(l) && (l.cols == 1 ==> l.cgap == 0)
  {
    ParsedInRange(Format(l), Default());
    if InRange(l) {
      ReadBack(l);
    }
  }

  predicate Slashless(s: string) { '/' !in s }

  lemma ItemSlashless(key: string, n: int)
    requires Slashless(key)
    ensures Slashless(Item(key, ToString(n)))
  {
    NumberHasNoSlash(n);
  }

  lemma PartsSlashless(l: Layout)
    ensures Slashless(MarginPart(l)) && Slashless(LinePart(l)) && Slashless(ColumnPart(l))
  {
    ItemSlashless("mt", l.mt);
    ItemSlashless("mr", l.mr);
    ItemSlashless("mb", l.mb);
    ItemSlashless("ml", l.ml);
    ItemSlashless("lh", l.lh);
    ItemSlashless("cols", l.cols);
    ItemSlashless("cgap", l.cgap);
  }

  /** A printed layout contains no slash, so no location marker can hide in it. */
  lemma NoSlash(layout: Layout)
    ensures Slashless(Format(layout))
  {
    var l := Repaired(layout);
    NumberHasNoSlash(l.w);
    ItemSlashless("h", l.h);
    ItemSlashless("fs", l.fs);
    PartsSlashless(l);
    var a := ("w" + "=" + ToString(l.w)) + Item("h", ToString(l.h)) + Item("fs", ToString(l.fs));
    var b := a + MarginPart(l) + LinePart(l) + ColumnPart(l);
    JoinSlashless("w" + "=" + ToString(l.w), Item("h", ToString(l.h)), Item("fs", ToString(l.fs)), "");
    JoinSlashless(a, MarginPart(l), LinePart(l), ColumnPart(l));
    JoinSlashless(b, AlignPart(l), FontPart(l), ThemePart(l));
    JoinSlashless(b + AlignPart(l) + FontPart(l) + ThemePart(l), CssPart(l), "", "");
    assert a + "" == a;
    var whole := b + AlignPart(l) + FontPart(l) + ThemePart(l) + CssPart(l);
    assert whole + "" + "" == whole;
  }

  lemma JoinSlashless(a: string, b: string, c: string, d: string)
    requires Slashless(a) && Slashless(b) && Slashless(c) && Slashless(d)
    ensures Slashless(a + b + c + d)
  {
  }

  lemma NumberHasNoSlash(x: int)
    ensures '/' !in ToString(x)
  {
    if x >= 0 {
      assert AllDigits(Dec(x));
    } else {
      assert AllDigits(Dec(-x));
    }
  }
}
