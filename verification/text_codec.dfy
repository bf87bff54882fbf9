// The binary forms of a page text layer and of a document outline (src/text.cpp).
module TextCodec {
  import opened Wrappers
  import opened ByteCodec

  datatype Rect = Rect(x0: F64, y0: F64, x1: F64, y1: F64)

  /** Enumerations are kept as the byte they are stored as. */
  datatype Target = Target(kind: Byte, page: int, x: F64, y: F64, uri: Bytes)

  datatype Region = Region(role: Byte, blockId: int, bbox: Rect, text: Bytes, target: Target, kind: Byte)

  datatype Param = Param(key: Bytes, value: Bytes)

  datatype OcrMeta = OcrMeta(engine: Bytes, version: Bytes, model: Bytes, lang: Bytes,
                             dpi: int, created: int, params: seq<Param>)

  datatype Layer = Layer(page: int, key: Bytes, bounds: Rect, yUp: bool, regions: seq<Region>,
                         source: Byte, ocr: Option<OcrMeta>)

  const NATIVE: Byte := 0
  const OCR: Byte := 1
  const NO_BLOCK: int := 0xFFFF_FFFF

  const MAGIC3: nat := 0x334C5454
  const MAGIC4: nat := 0x344C5454
  const MAGIC5: nat := 0x354C5454
  const MAGIC6: nat := 0x364C5454
  const MAGIC7: nat := 0x374C5454

  // ---- What is written ----

  function EncRect(r: Rect): (t: Bytes)
    ensures |t| == 32
  {
    r.x0 + (r.y0 + (r.x1 + r.y1))
  }

  function EncTarget(t: Target): Bytes {
    [t.kind] + (EncU32(U32(t.page)) + (t.x + (t.y + EncStr(t.uri))))
  }

  function BlockNumber(id: int): (n: nat)
    ensures n < TWO32
  {
    if id < 0 then NO_BLOCK else U32(id)
  }

  function EncLead(r: Region): (t: Bytes)
    ensures |t| == 37
  {
    [r.role] + (EncU32(BlockNumber(r.blockId)) + EncRect(r.bbox))
  }

  function EncRest(r: Region): Bytes { EncStr(r.text) + (EncTarget(r.target) + [r.kind]) }

  function EncRegion(r: Region): (t: Bytes)
    ensures |t| >= 1
  {
    EncLead(r) + EncRest(r)
  }

  function RegionEncoder(): Region -> Bytes { (r: Region) => EncRegion(r) }

  function EncRegions(rs: seq<Region>): Bytes { EncMany(RegionEncoder(), rs) }

  function EncTwo(a: Bytes, b: Bytes): Bytes { EncStr(a) + EncStr(b) }

  function EncParam(q: Param): Bytes { EncTwo(q.key, q.value) }

  function ParamEncoder(): Param -> Bytes { (q: Param) => EncParam(q) }

  function EncParams(ps: seq<Param>): Bytes { EncMany(ParamEncoder(), ps) }

  function Dpi(n: int): int { if n < 0 then 0 else n }

  function EncStamp(m: OcrMeta): Bytes {
    EncU32(U32(Dpi(m.dpi))) + (EncU32(Low(m.created)) + EncU32(High(m.created)))
  }

  function EncNames(m: OcrMeta): Bytes { EncTwo(m.engine, m.version) + EncTwo(m.model, m.lang) }

  function EncMeta(m: OcrMeta): Bytes {
    EncNames(m) + (EncStamp(m) + (EncU32(U32(|m.params|)) + EncParams(m.params)))
  }

  function EncStart(l: Layer): Bytes { EncU32(MAGIC7) + (EncU32(U32(l.page)) + EncStr(l.key)) }

  function EncShape(l: Layer): (t: Bytes)
    ensures |t| == 37
  {
    EncRect(l.bounds) + ([if l.yUp then 1 else 0] + EncU32(U32(|l.regions|)))
  }

  function EncHead(l: Layer): Bytes { EncStart(l) + EncShape(l) }

  function EncTrailer(l: Layer): Bytes {
    [l.source] + if l.source == OCR && l.ocr.Some? then EncMeta(l.ocr.value) else []
  }

  /** serialize_page_text_layer. */
  function Enc(l: Layer): Bytes { EncHead(l) + (EncRegions(l.regions) + EncTrailer(l)) }

  // ---- What is read ----

  /** What the magic number says the format has. */
  datatype Format = Format(blockId: bool, kind: bool, trailer: bool, yUp: bool)

  function FormatOf(magic: nat): Option<Format> {
    if magic == MAGIC7 then Some(Format(true, true, true, true))
    else if magic == MAGIC6 then Some(Format(true, true, true, false))
    else if magic == MAGIC5 then Some(Format(true, false, true, false))
    else if magic == MAGIC4 then Some(Format(true, false, false, false))
    else if magic == MAGIC3 then Some(Format(false, false, false, false))
    else None
  }

  function GetRect(b: Bytes, p: nat): (r: Got<Rect>)
    ensures p <= |b| && r.Got? ==> p <= r.pos <= |b|
  {
    var x0 := GetF64(b, p);
    if x0.Fail? then Fail else
    var y0 := GetF64(b, x0.pos);
    if y0.Fail? then Fail else
    var x1 := GetF64(b, y0.pos);
    if x1.Fail? then Fail else
    var y1 := GetF64(b, x1.pos);
    if y1.Fail? then Fail else Got(Rect(x0.value, y0.value, x1.value, y1.value), y1.pos)
  }

  function GetTarget(b: Bytes, p: nat): (r: Got<Target>)
    ensures p <= |b| && r.Got? ==> p <= r.pos <= |b|
  {
    var kind := GetByte(b, p);
    if kind.Fail? then Fail else
    var page := GetU32(b, kind.pos);
    if page.Fail? then Fail else
    var x := GetF64(b, page.pos);
    if x.Fail? then Fail else
    var y := GetF64(b, x.pos);
    if y.Fail? then Fail else
    var uri := GetStr(b, y.pos);
    if uri.Fail? then Fail else Got(Target(kind.value, I32(page.value), x.value, y.value, uri.value), uri.pos)
  }

  /** A field that only some formats have. */
  function GetBlock(b: Bytes, p: nat, present: bool): (r: Got<int>)
    ensures p <= |b| && r.Got? ==> p <= r.pos <= |b|
  {
    if !present then Got(-1, p)
    else
      var n := GetU32(b, p);
      if n.Fail? then Fail else Got(if n.value == NO_BLOCK then -1 else I32(n.value), n.pos)
  }

  function GetKind(b: Bytes, p: nat, present: bool): (r: Got<Byte>)
    ensures p <= |b| && r.Got? ==> p <= r.pos <= |b|
  {
    if present then GetByte(b, p) else Got(0, p)
  }

  datatype Lead = Lead(role: Byte, block: int, bbox: Rect)

  function GetLead(b: Bytes, p: nat, f: Format): (r: Got<Lead>)
    ensures p <= |b| && r.Got? ==> p <= r.pos <= |b|
  {
    var role := GetByte(b, p);
    if role.Fail? then Fail else
    var block := GetBlock(b, role.pos, f.blockId);
    if block.Fail? then Fail else
    var bbox := GetRect(b, block.pos);
    if bbox.Fail? then Fail else Got(Lead(role.value, block.value, bbox.value), bbox.pos)
  }

  datatype Rest = Rest(text: Bytes, target: Target, kind: Byte)

  function GetRest(b: Bytes, p: nat, f: Format): (r: Got<Rest>)
    ensures p <= |b| && r.Got? ==> p <= r.pos <= |b|
  {
    var text := GetStr(b, p);
    if text.Fail? then Fail else
    var target := GetTarget(b, text.pos);
    if target.Fail? then Fail else
    var kind := GetKind(b, target.pos, f.kind);
    if kind.Fail? then Fail else Got(Rest(text.value, target.value, kind.value), kind.pos)
  }

  function GetRegion(b: Bytes, p: nat, f: Format): (r: Got<Region>)
    ensures p <= |b| && r.Got? ==> p <= r.pos <= |b|
  {
    var lead := GetLead(b, p, f);
    if lead.Fail? then Fail else
    var rest := GetRest(b, lead.pos, f);
    if rest.Fail? then Fail else Got(RegionOf(lead.value, rest.value), rest.pos)
  }

  function RegionOf(l: Lead, r: Rest): Region { Region(l.role, l.block, l.bbox, r.text, r.target, r.kind) }

  function RegionReader(f: Format): Reader<Region> { (b: Bytes, p: nat) => GetRegion(b, p, f) }

  function GetTwo(b: Bytes, p: nat): (r: Got<(Bytes, Bytes)>)
    ensures p <= |b| && r.Got? ==> p <= r.pos <= |b|
  {
    var x := GetStr(b, p);
    if x.Fail? then Fail else
    var y := GetStr(b, x.pos);
    if y.Fail? then Fail else Got((x.value, y.value), y.pos)
  }

  function GetParam(b: Bytes, p: nat): (r: Got<Param>)
    ensures p <= |b| && r.Got? ==> p <= r.pos <= |b|
  {
    var r := GetTwo(b, p);
    if r.Fail? then Fail else Got(Param(r.value.0, r.value.1), r.pos)
  }

  function ParamReader(): Reader<Param> { (b: Bytes, p: nat) => GetParam(b, p) }

  /** The numbers as they are stored. */
  datatype Stamp = Stamp(dpi: nat, lo: nat, hi: nat)

  function GetStamp(b: Bytes, p: nat): (r: Got<Stamp>)
    ensures p <= |b| && r.Got? ==> p <= r.pos <= |b|
  {
    var dpi := GetU32(b, p);
    if dpi.Fail? then Fail else
    var lo := GetU32(b, dpi.pos);
    if lo.Fail? then Fail else
    var hi := GetU32(b, lo.pos);
    if hi.Fail? then Fail else Got(Stamp(dpi.value, lo.value, hi.value), hi.pos)
  }

  datatype Names = Names(engine: Bytes, version: Bytes, model: Bytes, lang: Bytes)

  function GetNames(b: Bytes, p: nat): (r: Got<Names>)
    ensures p <= |b| && r.Got? ==> p <= r.pos <= |b|
  {
    var x := GetTwo(b, p);
    if x.Fail? then Fail else
    var y := GetTwo(b, x.pos);
    if y.Fail? then Fail else Got(Names(x.value.0, x.value.1, y.value.0, y.value.1), y.pos)
  }

  datatype Front = Front(names: Names, stamp: Stamp, count: nat)

  function GetFront(b: Bytes, p: nat): (r: Got<Front>)
    ensures p <= |b| && r.Got? ==> p <= r.pos <= |b|
  {
    var names := GetNames(b, p);
    if names.Fail? then Fail else
    var s := GetStamp(b, names.pos);
    if s.Fail? then Fail else
    var n := GetU32(b, s.pos);
    if n.Fail? then Fail else Got(Front(names.value, s.value, n.value), n.pos)
  }

  function FrontReader(): Reader<Front> { (b: Bytes, p: nat) => GetFront(b, p) }

  function FrontCount(): Front -> nat { (f: Front) => f.count }

  function ParamReaders(): Front -> Reader<Param> { (f: Front) => ParamReader() }

  function MetaOf(f: Front, ps: seq<Param>): OcrMeta {
    OcrMeta(f.names.engine, f.names.version, f.names.model, f.names.lang,
            I32(f.stamp.dpi % TWO32), Join64(f.stamp.lo % TWO32, f.stamp.hi % TWO32), ps)
  }

  function GetMeta(b: Bytes, p: nat): Got<OcrMeta> {
    var r := GetCounted(FrontReader(), FrontCount(), ParamReaders(), b, p);
    if r.Fail? then Fail else Got(MetaOf(r.value.0, r.value.1), r.pos)
  }

  function MetaReader(): Reader<OcrMeta> { (b: Bytes, p: nat) => GetMeta(b, p) }

  datatype Head = Head(f: Format, page: nat, key: Bytes, bounds: Rect, yUp: bool, count: nat)

  function GetFlag(b: Bytes, p: nat, present: bool): (r: Got<bool>)
    ensures p <= |b| && r.Got? ==> p <= r.pos <= |b|
  {
    if !present then Got(true, p)
    else
      var v := GetByte(b, p);
      if v.Fail? then Fail else Got(v.value != 0, v.pos)
  }

  datatype Start = Start(f: Format, page: nat, key: Bytes)

  function GetStart(b: Bytes, p: nat): (r: Got<Start>)
    ensures p <= |b| && r.Got? ==> p <= r.pos <= |b|
  {
    var magic := GetU32(b, p);
    if magic.Fail? || FormatOf(magic.value).None? then Fail else
    var page := GetU32(b, magic.pos);
    if page.Fail? then Fail else
    var key := GetStr(b, page.pos);
    if key.Fail? then Fail else Got(Start(FormatOf(magic.value).value, page.value, key.value), key.pos)
  }

  datatype Shape = Shape(bounds: Rect, yUp: bool, count: nat)

  function GetShape(b: Bytes, p: nat, f: Format): (r: Got<Shape>)
    ensures p <= |b| && r.Got? ==> p <= r.pos <= |b|
  {
    var bounds := GetRect(b, p);
    if bounds.Fail? then Fail else
    var up := GetFlag(b, bounds.pos, f.yUp);
    if up.Fail? then Fail else
    var n := GetU32(b, up.pos);
    if n.Fail? then Fail else Got(Shape(bounds.value, up.value, n.value), n.pos)
  }

  function GetHead(b: Bytes, p: nat): (r: Got<Head>)
    ensures p <= |b| && r.Got? ==> p <= r.pos <= |b|
  {
    var s := GetStart(b, p);
    if s.Fail? then Fail else
    var t := GetShape(b, s.pos, s.value.f);
    if t.Fail? then Fail else Got(HeadWith(s.value, t.value), t.pos)
  }

  function HeadWith(s: Start, t: Shape): Head { Head(s.f, s.page, s.key, t.bounds, t.yUp, t.count) }

  function HeadReader(): Reader<Head> { (b: Bytes, p: nat) => GetHead(b, p) }

  function HeadCount(): Head -> nat { (h: Head) => h.count }

  function RegionReaders(): Head -> Reader<Region> { (h: Head) => RegionReader(h.f) }

  /** Head and regions. */
  function GetBody(b: Bytes, p: nat): Got<(Head, seq<Region>)> {
    GetCounted(HeadReader(), HeadCount(), RegionReaders(), b, p)
  }

  function BodyReader(): Reader<(Head, seq<Region>)> { (b: Bytes, p: nat) => GetBody(b, p) }

  function LayerOf(h: Head, rs: seq<Region>): Layer {
    Layer(I32(h.page % TWO32), h.key, h.bounds, h.yUp, rs, NATIVE, None)
  }

  /** The optional trailer. */
  function Finish(meta: Reader<OcrMeta>, b: Bytes, h: Head, rs: seq<Region>, p: nat): Option<Layer> {
    var l := LayerOf(h, rs);
    if !h.f.trailer || p >= |b| then Some(l)
    else if b[p] != OCR then Some(l.(source := b[p]))
    else
      var m := meta(b, p + 1);
      if m.Fail? then None
      else Some(l.(source := OCR, ocr := Some(m.value), yUp := if h.f.yUp then l.yUp else false))
  }

  function DecWith(body: Reader<(Head, seq<Region>)>, meta: Reader<OcrMeta>, b: Bytes): Option<Layer> {
    var r := body(b, 0);
    if r.Fail? then None else Finish(meta, b, r.value.0, r.value.1, r.pos)
  }

  /** deserialize_page_text_layer. Bytes behind the layer are ignored; a layer that stops
      before its trailer is a native one. */
  function Dec(b: Bytes): Option<Layer> { DecWith(BodyReader(), MetaReader(), b) }

  // ---- The writer as the source runs it ----

  method AppendRect(out: Bytes, r: Rect) returns (t: Bytes)
    ensures t == out + EncRect(r)
  {
    t := out + r.x0;
    t := t + r.y0;
    t := t + r.x1;
    t := t + r.y1;
    Assoc(out + r.x0 + r.y0, r.x1, r.y1);
    Assoc(out + r.x0, r.y0, r.x1 + r.y1);
    Assoc(out, r.x0, r.y0 + (r.x1 + r.y1));
  }

  method AppendTarget(out: Bytes, g: Target) returns (t: Bytes)
    ensures t == out + EncTarget(g)
  {
    ghost var a, c, d := [g.kind], EncU32(U32(g.page)), EncStr(g.uri);
    t := out + [g.kind];
    t := AppendU32(t, U32(g.page));
    t := t + g.x;
    t := t + g.y;
    t := AppendStr(t, g.uri);
    Assoc(out + a + c + g.x, g.y, d);
    Assoc(out + a + c, g.x, g.y + d);
    Assoc(out + a, c, g.x + (g.y + d));
    Assoc(out, a, c + (g.x + (g.y + d)));
  }

  method AppendRegion(out: Bytes, r: Region) returns (t: Bytes)
    ensures t == out + EncRegion(r)
  {
    ghost var a, c, d, e, f, g :=
      [r.role], EncU32(BlockNumber(r.blockId)), EncRect(r.bbox), EncStr(r.text), EncTarget(r.target), [r.kind];
    t := out + [r.role];
    t := AppendU32(t, if r.blockId < 0 then NO_BLOCK else U32(r.blockId));
    t := AppendRect(t, r.bbox);
    t := AppendStr(t, r.text);
    t := AppendTarget(t, r.target);
    t := t + [r.kind];
    Assoc(out + a, c, d);
    Assoc(out, a, c + d);
    Assoc(out + EncLead(r) + e, f, g);
    Assoc(out + EncLead(r), e, f + g);
    Assoc(out, EncLead(r), e + (f + g));
  }

  method AppendRegions(out: Bytes, rs: seq<Region>) returns (t: Bytes)
    ensures t == out + EncRegions(rs)
  {
    t := out;
    for i := 0 to |rs|
      invariant t == out + EncRegions(rs[..i])
    {
      assert rs[..i + 1] == rs[..i] + [rs[i]];
      ManyPush(RegionEncoder(), rs[..i], rs[i]);
      Assoc(out, EncRegions(rs[..i]), EncRegion(rs[i]));
      t := AppendRegion(t, rs[i]);
    }
    assert rs[..|rs|] == rs;
  }

  method AppendParams(out: Bytes, ps: seq<Param>) returns (t: Bytes)
    ensures t == out + EncParams(ps)
  {
    t := out;
    for i := 0 to |ps|
      invariant t == out + EncParams(ps[..i])
    {
      assert ps[..i + 1] == ps[..i] + [ps[i]];
      ManyPush(ParamEncoder(), ps[..i], ps[i]);
      ghost var before, k, v := EncParams(ps[..i]), EncStr(ps[i].key), EncStr(ps[i].value);
      t := AppendStr(t, ps[i].key);
      t := AppendStr(t, ps[i].value);
      Assoc(out + before, k, v);
      Assoc(out, before, k + v);
    }
    assert ps[..|ps|] == ps;
  }

  method AppendStamp(out: Bytes, m: OcrMeta) returns (t: Bytes)
    ensures t == out + EncStamp(m)
  {
    t := AppendU32(out, U32(if m.dpi < 0 then 0 else m.dpi));
    t := AppendU32(t, Low(m.created));
    t := AppendU32(t, High(m.created));
    Assoc(out + EncU32(U32(Dpi(m.dpi))), EncU32(Low(m.created)), EncU32(High(m.created)));
    Assoc(out, EncU32(U32(Dpi(m.dpi))), EncU32(Low(m.created)) + EncU32(High(m.created)));
  }

  method AppendNames(out: Bytes, m: OcrMeta) returns (t: Bytes)
    ensures t == out + EncNames(m)
  {
    var e, v, o, g := EncStr(m.engine), EncStr(m.version), EncStr(m.model), EncStr(m.lang);
    t := AppendStr(out, m.engine);
    t := AppendStr(t, m.version);
    t := AppendStr(t, m.model);
    t := AppendStr(t, m.lang);
    Assoc(out, e, v);
    Assoc(out + (e + v), o, g);
    Assoc(out, e + v, o + g);
  }

  method AppendMeta(out: Bytes, m: OcrMeta) returns (t: Bytes)
    ensures t == out + EncMeta(m)
  {
    t := AppendNames(out, m);
    t := AppendStamp(t, m);
    t := AppendU32(t, U32(|m.params|));
    t := AppendParams(t, m.params);
    var n := EncU32(U32(|m.params|));
    Assoc(out + EncNames(m) + EncStamp(m), n, EncParams(m.params));
    Assoc(out + EncNames(m), EncStamp(m), n + EncParams(m.params));
    Assoc(out, EncNames(m), EncStamp(m) + (n + EncParams(m.params)));
  }

  method AppendHead(l: Layer) returns (t: Bytes)
    ensures t == EncHead(l)
  {
    var a, c, k := EncU32(MAGIC7), EncU32(U32(l.page)), EncStr(l.key);
    t := AppendU32([], MAGIC7);
    assert [] + a == a;
    t := AppendU32(t, U32(l.page));
    t := AppendStr(t, l.key);
    Assoc(a, c, k);
    t := AppendRect(t, l.bounds);
    t := t + [if l.yUp then 1 else 0];
    t := AppendU32(t, U32(|l.regions|));
    Assoc(EncStart(l) + EncRect(l.bounds), [if l.yUp then 1 else 0], EncU32(U32(|l.regions|)));
    Assoc(EncStart(l), EncRect(l.bounds), [if l.yUp then 1 else 0] + EncU32(U32(|l.regions|)));
  }

  /** serialize_page_text_layer. */
  method Serialize(l: Layer) returns (out: Bytes)
    ensures out == Enc(l)
  {
    out := AppendHead(l);
    out := AppendRegions(out, l.regions);
    out := out + [l.source];
    Assoc(EncHead(l), EncRegions(l.regions), [l.source]);
    if l.source == OCR && l.ocr.Some? {
      out := AppendMeta(out, l.ocr.value);
      Assoc(EncHead(l) + EncRegions(l.regions), [l.source], EncMeta(l.ocr.value));
      Assoc(EncHead(l), EncRegions(l.regions), [l.source] + EncMeta(l.ocr.value));
    } else {
      assert [l.source] + [] == [l.source];
    }
  }

  // ---- The reader as the source runs it ----

  method ReadRect(b: Bytes, p: nat) returns (ok: bool, r: Rect, q: nat)
    requires p <= |b|
    ensures p <= q <= |b| && GetRect(b, p) == if ok then Got(r, q) else Fail
  {
    var x0, y0, x1, y1;
    ok, x0, q := ReadF64(b, p);
    r := Rect(x0, x0, x0, x0);
    if !ok { return; }
    ok, y0, q := ReadF64(b, q);
    if !ok { return; }
    ok, x1, q := ReadF64(b, q);
    if !ok { return; }
    ok, y1, q := ReadF64(b, q);
    r := Rect(x0, y0, x1, y1);
  }

  method ReadTarget(b: Bytes, p: nat) returns (ok: bool, t: Target, q: nat)
    requires p <= |b|
    ensures p <= q <= |b| && GetTarget(b, p) == if ok then Got(t, q) else Fail
  {
    var kind, page, x, y, uri;
    ok, kind, q := ReadByte(b, p);
    t := Target(kind, 0, [0, 0, 0, 0, 0, 0, 0, 0], [0, 0, 0, 0, 0, 0, 0, 0], []);
    if !ok { return; }
    ok, page, q := ReadU32(b, q);
    if !ok { return; }
    ok, x, q := ReadF64(b, q);
    if !ok { return; }
    ok, y, q := ReadF64(b, q);
    if !ok { return; }
    ok, uri, q := ReadStr(b, q);
    t := Target(kind, I32(page), x, y, uri);
  }

  /** The body of the loop over the regions: the cursor stops where a read fails. */
  method ReadRegion(b: Bytes, p: nat, f: Format) returns (ok: bool, r: Option<Region>, q: nat)
    requires p <= |b|
    ensures p <= q <= |b| && ok == r.Some?
    ensures GetRegion(b, p, f) == if ok then Got(r.value, q) else Fail
  {
    r := None;
    var role, bbox, text, target;
    ok, role, q := ReadByte(b, p);
    if !ok { return; }
    var block := -1;
    if f.blockId {
      var n;
      ok, n, q := ReadU32(b, q);
      if !ok { return; }
      block := if n == NO_BLOCK then -1 else I32(n);
    }
    ok, bbox, q := ReadRect(b, q);
    if !ok { return; }
    ok, text, q := ReadStr(b, q);
    if !ok { return; }
    ok, target, q := ReadTarget(b, q);
    if !ok { return; }
    var kind: Byte := 0;
    if f.kind {
      ok, kind, q := ReadByte(b, q);
      if !ok { return; }
    }
    r := Some(Region(role, block, bbox, text, target, kind));
  }

  /** The reader of the specification, seen only position by position. */
  ghost predicate ReadsRegion(get: Reader<Region>, b: Bytes, p: nat, f: Format) { get(b, p) == GetRegion(b, p, f) }

  /** The loop over the counted regions: it stops at the first one that cannot be read. */
  method ReadRegions(b: Bytes, p: nat, n: nat, f: Format, ghost get: Reader<Region>) returns (r: Got<seq<Region>>)
    requires p <= |b| && forall k: nat :: ReadsRegion(get, b, k, f)
    ensures r == GetMany(get, b, p, n)
  {
    var xs, q: nat := [], p;
    BehindNothing(GetMany(get, b, p, n));
    for i := 0 to n
      invariant q <= |b| && GetMany(get, b, p, n) == Behind(xs, GetMany(get, b, q, n - i))
    {
      var ok, x, next := ReadRegion(b, q, f);
      assert ReadsRegion(get, b, q, f);
      if !ok {
        ManyFail(get, b, xs, q, n - i);
        return Fail;
      }
      ManyStep(get, b, xs, q, n - i, x.value, next);
      xs, q := xs + [x.value], next;
    }
    ManyEnd(get, b, xs, q);
    return Got(xs, q);
  }

  method ReadParam(b: Bytes, p: nat) returns (ok: bool, r: Param, q: nat)
    requires p <= |b|
    ensures p <= q <= |b| && GetParam(b, p) == if ok then Got(r, q) else Fail
  {
    var k, v;
    r := Param([], []);
    ok, k, q := ReadStr(b, p);
    if !ok { return; }
    ok, v, q := ReadStr(b, q);
    r := Param(k, v);
  }

  /** The reader of the specification, seen only position by position. */
  ghost predicate ReadsParam(get: Reader<Param>, b: Bytes, p: nat) { get(b, p) == GetParam(b, p) }

  /** The loop over the counted parameters: it stops at the first one that cannot be read. */
  method ReadParams(b: Bytes, p: nat, n: nat, ghost get: Reader<Param>) returns (r: Got<seq<Param>>)
    requires p <= |b| && forall k: nat :: ReadsParam(get, b, k)
    ensures r == GetMany(get, b, p, n)
  {
    var xs, q: nat := [], p;
    BehindNothing(GetMany(get, b, p, n));
    for i := 0 to n
      invariant q <= |b| && GetMany(get, b, p, n) == Behind(xs, GetMany(get, b, q, n - i))
    {
      var ok, x, next := ReadParam(b, q);
      assert ReadsParam(get, b, q);
      if !ok {
        ManyFail(get, b, xs, q, n - i);
        return Fail;
      }
      ManyStep(get, b, xs, q, n - i, x, next);
      xs, q := xs + [x], next;
    }
    ManyEnd(get, b, xs, q);
    return Got(xs, q);
  }

  method ReadNames(b: Bytes, p: nat) returns (ok: bool, names: Names, q: nat)
    requires p <= |b|
    ensures p <= q <= |b| && GetNames(b, p) == if ok then Got(names, q) else Fail
  {
    var engine, version, model, lang;
    names := Names([], [], [], []);
    ok, engine, q := ReadStr(b, p);
    if !ok { return; }
    ok, version, q := ReadStr(b, q);
    if !ok { return; }
    ok, model, q := ReadStr(b, q);
    if !ok { return; }
    ok, lang, q := ReadStr(b, q);
    names := Names(engine, version, model, lang);
  }

  method ReadFront(b: Bytes, p: nat) returns (f: Option<Front>, q: nat)
    requires p <= |b|
    ensures p <= q <= |b| && GetFront(b, p) == if f.Some? then Got(f.value, q) else Fail
  {
    f := None;
    var ok, names, dpi, lo, hi, n;
    ok, names, q := ReadNames(b, p);
    if !ok { return; }
    ok, dpi, q := ReadU32(b, q);
    if !ok { return; }
    ok, lo, q := ReadU32(b, q);
    if !ok { return; }
    ok, hi, q := ReadU32(b, q);
    if !ok { return; }
    ok, n, q := ReadU32(b, q);
    if !ok { return; }
    f := Some(Front(names, Stamp(dpi, lo, hi), n));
  }

  method ReadMeta(b: Bytes, p: nat) returns (m: Option<OcrMeta>)
    requires p <= |b|
    ensures if m.Some? then GetMeta(b, p).Got? && GetMeta(b, p).value == m.value else GetMeta(b, p).Fail?
  {
    var f, q := ReadFront(b, p);
    if f.None? {
      return None;
    }
    var ps := ReadParams(b, q, f.value.count, ParamReader());
    if ps.Fail? {
      return None;
    }
    return Some(MetaOf(f.value, ps.value));
  }

  method ReadStart(b: Bytes) returns (s: Option<Start>, q: nat)
    ensures q <= |b| && GetStart(b, 0) == if s.Some? then Got(s.value, q) else Fail
  {
    s := None;
    var ok, magic, page, key;
    ok, magic, q := ReadU32(b, 0);
    if !ok { return; }
    var v7, v6, v5 := magic == MAGIC7, magic == MAGIC6, magic == MAGIC5;
    var f := Format(v7 || v6 || v5 || magic == MAGIC4, v7 || v6, v7 || v6 || v5, v7);
    if !v7 && !v6 && !v5 && magic != MAGIC4 && magic != MAGIC3 { return; }
    ok, page, q := ReadU32(b, q);
    if !ok { return; }
    ok, key, q := ReadStr(b, q);
    if !ok { return; }
    s := Some(Start(f, page, key));
  }

  method ReadHead(b: Bytes) returns (h: Option<Head>, q: nat)
    ensures q <= |b| && GetHead(b, 0) == if h.Some? then Got(h.value, q) else Fail
  {
    h := None;
    var s, ok, bounds, n;
    s, q := ReadStart(b);
    if s.None? { return; }
    ok, bounds, q := ReadRect(b, q);
    if !ok { return; }
    var up := true;
    if s.value.f.yUp {
      var v;
      ok, v, q := ReadByte(b, q);
      if !ok { return; }
      up := v != 0;
    }
    ok, n, q := ReadU32(b, q);
    if !ok { return; }
    h := Some(HeadWith(s.value, Shape(bounds, up, n)));
  }

  method ReadBody(b: Bytes) returns (r: Got<(Head, seq<Region>)>)
    ensures r == GetBody(b, 0)
  {
    var h, q := ReadHead(b);
    if h.None? {
      return Fail;
    }
    var rs := ReadRegions(b, q, h.value.count, h.value.f, RegionReader(h.value.f));
    if rs.Fail? {
      return Fail;
    }
    return Got((h.value, rs.value), rs.pos);
  }

  /** deserialize_page_text_layer. */
  method Deserialize(b: Bytes) returns (l: Option<Layer>)
    ensures l == Dec(b)
  {
    var r := ReadBody(b);
    if r.Fail? {
      return None;
    }
    l := ReadTrailer(b, r.value.0, r.value.1, r.pos);
  }

  method ReadTrailer(b: Bytes, h: Head, rs: seq<Region>, p: nat) returns (l: Option<Layer>)
    ensures l == Finish(MetaReader(), b, h, rs, p)
  {
    var layer := LayerOf(h, rs);
    if h.f.trailer && p < |b| {
      layer := layer.(source := b[p]);
      if !h.f.yUp && layer.source == OCR {
        layer := layer.(yUp := false);
      }
      if layer.source == OCR {
        var m := ReadMeta(b, p + 1);
        if m.None? {
          return None;
        }
        layer := layer.(ocr := m);
      }
    }
    return Some(layer);
  }

  // ---- Reading back what was written ----

  function NormalRegion(r: Region): Region { r.(blockId := if r.blockId < 0 then -1 else r.blockId) }

  function RegionNormaliser(): Region -> Region { (r: Region) => NormalRegion(r) }

  function NormalRegions(rs: seq<Region>): seq<Region> { Each(RegionNormaliser(), rs) }

  function NormalMeta(m: OcrMeta): OcrMeta { m.(dpi := Dpi(m.dpi)) }

  /** A layer as it comes back: negative block ids are all -1, a negative resolution is 0. */
  function Normal(l: Layer): Layer {
    l.(regions := NormalRegions(l.regions), ocr := if l.ocr.Some? then Some(NormalMeta(l.ocr.value)) else None)
  }

  predicate RegionInts(r: Region) { Int32(r.blockId) && Int32(r.target.page) }

  /** The integers of the layer are what their C++ types can hold. */
  ghost predicate Ints(l: Layer) {
    && Int32(l.page) && (forall i :: 0 <= i < |l.regions| ==> RegionInts(l.regions[i]))
    && (l.ocr.Some? ==> Int32(l.ocr.value.dpi) && Int64(l.ocr.value.created))
  }

  lemma AtThree(b: Bytes, p: nat, x: Bytes, y: Bytes, z: Bytes)
    requires At(b, p, x + (y + z))
    ensures At(b, p, x) && At(b, p + |x|, y) && At(b, p + |x| + |y|, z)
  {
    AtConcat(b, p, x, y + z);
    AtConcat(b, p + |x|, y, z);
  }

  lemma RectBack(b: Bytes, p: nat, r: Rect)
    requires At(b, p, EncRect(r))
    ensures GetRect(b, p) == Got(r, p + 32)
  {
    AtConcat(b, p, r.x0, r.y0 + (r.x1 + r.y1));
    AtConcat(b, p + 8, r.y0, r.x1 + r.y1);
    AtConcat(b, p + 16, r.x1, r.y1);
    F64Back(b, p, r.x0);
    F64Back(b, p + 8, r.y0);
    F64Back(b, p + 16, r.x1);
    F64Back(b, p + 24, r.y1);
  }

  lemma TargetBack(b: Bytes, p: nat, t: Target)
    requires |b| < TWO32 && Int32(t.page) && At(b, p, EncTarget(t))
    ensures GetTarget(b, p) == Got(t, p + |EncTarget(t)|)
  {
    var u := EncStr(t.uri);
    AtConcat(b, p, [t.kind], EncU32(U32(t.page)) + (t.x + (t.y + u)));
    AtConcat(b, p + 1, EncU32(U32(t.page)), t.x + (t.y + u));
    AtConcat(b, p + 5, t.x, t.y + u);
    AtConcat(b, p + 13, t.y, u);
    ByteBack(b, p, t.kind);
    U32Back(b, p + 1, U32(t.page));
    IntSurvives(t.page);
    F64Back(b, p + 5, t.x);
    F64Back(b, p + 13, t.y);
    StrBack(b, p + 21, t.uri);
  }

  const V7: Format := Format(true, true, true, true)

  lemma BlockBack(b: Bytes, p: nat, id: int)
    requires Int32(id) && At(b, p, EncU32(BlockNumber(id)))
    ensures GetBlock(b, p, true) == Got(if id < 0 then -1 else id, p + 4)
  {
    U32Back(b, p, BlockNumber(id));
  }

  lemma LeadBack(b: Bytes, p: nat, r: Region)
    requires RegionInts(r) && At(b, p, EncLead(r))
    ensures GetLead(b, p, V7) == Got(Lead(r.role, NormalRegion(r).blockId, r.bbox), p + 37)
  {
    AtThree(b, p, [r.role], EncU32(BlockNumber(r.blockId)), EncRect(r.bbox));
    ByteBack(b, p, r.role);
    BlockBack(b, p + 1, r.blockId);
    RectBack(b, p + 5, r.bbox);
  }

  lemma RestBack(b: Bytes, p: nat, r: Region)
    requires |b| < TWO32 && RegionInts(r) && At(b, p, EncRest(r))
    ensures GetRest(b, p, V7) == Got(Rest(r.text, r.target, r.kind), p + |EncRest(r)|)
  {
    var text, target := EncStr(r.text), EncTarget(r.target);
    AtThree(b, p, text, target, [r.kind]);
    StrBack(b, p, r.text);
    TargetBack(b, p + |text|, r.target);
    KindBack(b, p + |text| + |target|, r.kind);
    RestOfParts(b, p, r, p + |text|, p + |text| + |target|);
  }

  lemma KindBack(b: Bytes, p: nat, kind: Byte)
    requires At(b, p, [kind])
    ensures GetKind(b, p, true) == Got(kind, p + 1)
  {
    ByteBack(b, p, kind);
  }

  lemma RestOfParts(b: Bytes, p: nat, r: Region, q: nat, end: nat)
    requires GetStr(b, p) == Got(r.text, q) && GetTarget(b, q) == Got(r.target, end)
    requires GetKind(b, end, true) == Got(r.kind, end + 1)
    ensures GetRest(b, p, V7) == Got(Rest(r.text, r.target, r.kind), end + 1)
  {
  }

  lemma RegionBack(b: Bytes, p: nat, r: Region)
    requires |b| < TWO32 && RegionInts(r) && At(b, p, EncRegion(r))
    ensures GetRegion(b, p, V7) == Got(NormalRegion(r), p + |EncRegion(r)|)
  {
    AtConcat(b, p, EncLead(r), EncRest(r));
    LeadBack(b, p, r);
    RestBack(b, p + 37, r);
    RegionOfParts(b, p, r, p + 37 + |EncRest(r)|);
  }

  lemma RegionOfParts(b: Bytes, p: nat, r: Region, end: nat)
    requires GetLead(b, p, V7) == Got(Lead(r.role, NormalRegion(r).blockId, r.bbox), p + 37)
    requires GetRest(b, p + 37, V7) == Got(Rest(r.text, r.target, r.kind), end)
    ensures GetRegion(b, p, V7) == Got(NormalRegion(r), end)
  {
  }

  lemma RegionReadsBack(b: Bytes, r: Region)
    requires |b| < TWO32 && RegionInts(r)
    ensures ReadsBack(RegionReader(V7), RegionEncoder(), RegionNormaliser(), b, r)
  {
    forall q: nat | At(b, q, EncRegion(r)) ensures GetRegion(b, q, V7) == Got(NormalRegion(r), q + |EncRegion(r)|) {
      RegionBack(b, q, r);
    }
  }

  lemma TwoBack(b: Bytes, p: nat, x: Bytes, y: Bytes)
    requires |b| < TWO32 && At(b, p, EncTwo(x, y))
    ensures GetTwo(b, p) == Got((x, y), p + |EncTwo(x, y)|)
  {
    AtConcat(b, p, EncStr(x), EncStr(y));
    StrBack(b, p, x);
    StrBack(b, p + |EncStr(x)|, y);
  }

  lemma ParamBack(b: Bytes, p: nat, q: Param)
    requires |b| < TWO32 && At(b, p, EncParam(q))
    ensures GetParam(b, p) == Got(q, p + |EncParam(q)|)
  {
    TwoBack(b, p, q.key, q.value);
  }

  lemma ParamReadsBack(b: Bytes, q: Param)
    requires |b| < TWO32
    ensures ReadsBack(ParamReader(), ParamEncoder(), (x: Param) => x, b, q)
  {
    forall p: nat | At(b, p, EncParam(q)) ensures GetParam(b, p) == Got(q, p + |EncParam(q)|) {
      ParamBack(b, p, q);
    }
  }

  lemma StampBack(b: Bytes, p: nat, m: OcrMeta)
    requires At(b, p, EncStamp(m))
    ensures GetStamp(b, p) == Got(StampOf(m), p + 12)
  {
    var d, lo, hi := EncU32(U32(Dpi(m.dpi))), EncU32(Low(m.created)), EncU32(High(m.created));
    AtThree(b, p, d, lo, hi);
    U32Back(b, p, U32(Dpi(m.dpi)));
    U32Back(b, p + 4, Low(m.created));
    U32Back(b, p + 8, High(m.created));
  }

  function StampOf(m: OcrMeta): Stamp { Stamp(U32(Dpi(m.dpi)), Low(m.created), High(m.created)) }

  lemma NamesBack(b: Bytes, p: nat, m: OcrMeta)
    requires |b| < TWO32 && At(b, p, EncNames(m))
    ensures GetNames(b, p) == Got(Names(m.engine, m.version, m.model, m.lang), p + |EncNames(m)|)
  {
    AtConcat(b, p, EncTwo(m.engine, m.version), EncTwo(m.model, m.lang));
    TwoBack(b, p, m.engine, m.version);
    TwoBack(b, p + |EncTwo(m.engine, m.version)|, m.model, m.lang);
  }

  function EncFront(m: OcrMeta): Bytes { EncNames(m) + (EncStamp(m) + EncU32(U32(|m.params|))) }

  lemma FrontBack(b: Bytes, p: nat, m: OcrMeta)
    requires |b| < TWO32 && |m.params| < TWO32 && At(b, p, EncFront(m))
    ensures GetFront(b, p) == Got(FrontOf(m), p + |EncFront(m)|)
  {
    AtThree(b, p, EncNames(m), EncStamp(m), EncU32(U32(|m.params|)));
    FrontAt(b, p, p + |EncNames(m)|, m);
  }

  lemma FrontAt(b: Bytes, p: nat, q: nat, m: OcrMeta)
    requires |b| < TWO32 && |m.params| < TWO32 && q == p + |EncNames(m)|
    requires At(b, p, EncNames(m)) && At(b, q, EncStamp(m)) && At(b, q + 12, EncU32(U32(|m.params|)))
    ensures GetFront(b, p) == Got(FrontOf(m), q + 16)
  {
    NamesBack(b, p, m);
    StampBack(b, q, m);
    U32Back(b, q + 12, U32(|m.params|));
    FrontOfParts(b, p, q, m);
  }

  lemma FrontOfParts(b: Bytes, p: nat, q: nat, m: OcrMeta)
    requires |m.params| < TWO32
    requires GetNames(b, p) == Got(Names(m.engine, m.version, m.model, m.lang), q)
    requires GetStamp(b, q) == Got(StampOf(m), q + 12) && GetU32(b, q + 12) == Got(U32(|m.params|), q + 16)
    ensures GetFront(b, p) == Got(FrontOf(m), q + 16)
  {
  }

  function FrontOf(m: OcrMeta): Front {
    Front(Names(m.engine, m.version, m.model, m.lang), StampOf(m), |m.params|)
  }

  lemma MetaSplits(b: Bytes, p: nat, m: OcrMeta)
    requires At(b, p, EncMeta(m))
    ensures At(b, p, EncFront(m)) && At(b, p + |EncFront(m)|, EncParams(m.params))
    ensures |EncMeta(m)| == |EncFront(m)| + |EncParams(m.params)|
  {
    var n := EncU32(U32(|m.params|));
    Assoc(EncStamp(m), n, EncParams(m.params));
    Assoc(EncNames(m), EncStamp(m) + n, EncParams(m.params));
    AtConcat(b, p, EncFront(m), EncParams(m.params));
  }

  lemma ParamCount(m: OcrMeta)
    ensures |EncMeta(m)| >= |m.params|
  {
    ManyLength(ParamEncoder(), m.params);
  }

  lemma MetaBack(b: Bytes, p: nat, m: OcrMeta)
    requires |b| < TWO32 && Int32(m.dpi) && Int64(m.created) && At(b, p, EncMeta(m))
    ensures GetMeta(b, p) == Got(NormalMeta(m), p + |EncMeta(m)|)
  {
    MetaSplits(b, p, m);
    ParamCount(m);
    FrontBack(b, p, m);
    MetaFromFront(b, p, m, p + |EncFront(m)|);
  }

  lemma MetaIsNormal(m: OcrMeta)
    requires Int32(m.dpi) && Int64(m.created)
    ensures MetaOf(FrontOf(m), m.params) == NormalMeta(m)
  {
    IntSurvives(Dpi(m.dpi));
    TimeSurvives(m.created);
  }

  lemma ParamsReadBack(b: Bytes, m: OcrMeta, same: Param -> Param)
    requires |b| < TWO32 && forall x :: same(x) == x
    ensures forall i :: 0 <= i < |m.params| ==>
      ReadsBack(ParamReaders()(FrontOf(m)), ParamEncoder(), same, b, m.params[i])
  {
    forall i | 0 <= i < |m.params| ensures ReadsBack(ParamReaders()(FrontOf(m)), ParamEncoder(), same, b, m.params[i]) {
      ParamReadsBack(b, m.params[i]);
    }
  }

  lemma MetaFromFront(b: Bytes, p: nat, m: OcrMeta, q: nat)
    requires |b| < TWO32 && GetFront(b, p) == Got(FrontOf(m), q) && At(b, q, EncParams(m.params))
    requires Int32(m.dpi) && Int64(m.created)
    ensures GetMeta(b, p) == Got(NormalMeta(m), q + |EncParams(m.params)|)
  {
    var same := (x: Param) => x;
    ParamsReadBack(b, m, same);
    CountedBack(FrontReader(), FrontCount(), ParamReaders(), ParamEncoder(), same, b, p, FrontOf(m), q, m.params);
    assert Each(same, m.params) == m.params;
    MetaIsNormal(m);
  }

  lemma FlagBack(b: Bytes, p: nat, up: bool)
    requires At(b, p, [if up then 1 else 0])
    ensures GetFlag(b, p, true) == Got(up, p + 1)
  {
    ByteBack(b, p, if up then 1 else 0);
  }

  lemma StartBack(b: Bytes, p: nat, l: Layer)
    requires |b| < TWO32 && At(b, p, EncStart(l))
    ensures GetStart(b, p) == Got(Start(V7, U32(l.page), l.key), p + |EncStart(l)|)
  {
    AtThree(b, p, EncU32(MAGIC7), EncU32(U32(l.page)), EncStr(l.key));
    U32Back(b, p, MAGIC7);
    U32Back(b, p + 4, U32(l.page));
    StrBack(b, p + 8, l.key);
  }

  lemma ShapeBack(b: Bytes, p: nat, l: Layer)
    requires |l.regions| < TWO32 && At(b, p, EncShape(l))
    ensures GetShape(b, p, V7) == Got(Shape(l.bounds, l.yUp, |l.regions|), p + 37)
  {
    AtThree(b, p, EncRect(l.bounds), [if l.yUp then 1 else 0], EncU32(U32(|l.regions|)));
    RectBack(b, p, l.bounds);
    FlagBack(b, p + 32, l.yUp);
    U32Back(b, p + 33, U32(|l.regions|));
  }

  lemma HeadBack(b: Bytes, l: Layer)
    requires |b| < TWO32 && |l.regions| < TWO32 && At(b, 0, EncHead(l))
    ensures GetHead(b, 0) == Got(HeadOf(l), |EncHead(l)|)
  {
    AtConcat(b, 0, EncStart(l), EncShape(l));
    StartBack(b, 0, l);
    ShapeBack(b, |EncStart(l)|, l);
  }

  function HeadOf(l: Layer): Head { Head(V7, U32(l.page), l.key, l.bounds, l.yUp, |l.regions|) }

  function BodyEnd(l: Layer): nat { |EncHead(l)| + |EncRegions(l.regions)| }

  /** Head and regions of a written layer at the front of some bytes. */
  ghost predicate HasBody(b: Bytes, l: Layer) {
    At(b, 0, EncHead(l)) && At(b, |EncHead(l)|, EncRegions(l.regions))
  }

  lemma RegionCount(l: Layer)
    ensures |EncRegions(l.regions)| >= |l.regions|
  {
    ManyLength(RegionEncoder(), l.regions);
  }

  lemma BodyBack(b: Bytes, l: Layer)
    requires |b| < TWO32 && Ints(l) && HasBody(b, l)
    ensures GetBody(b, 0) == Got((HeadOf(l), NormalRegions(l.regions)), BodyEnd(l)) && BodyEnd(l) <= |b|
  {
    RegionCount(l);
    HeadBack(b, l);
    BodyFromHead(b, l, |EncHead(l)|);
  }

  lemma BodyFromHead(b: Bytes, l: Layer, q: nat)
    requires |b| < TWO32 && Ints(l) && GetHead(b, 0) == Got(HeadOf(l), q) && At(b, q, EncRegions(l.regions))
    ensures GetBody(b, 0) == Got((HeadOf(l), NormalRegions(l.regions)), q + |EncRegions(l.regions)|)
  {
    var rs := l.regions;
    forall i | 0 <= i < |rs|
      ensures ReadsBack(RegionReaders()(HeadOf(l)), RegionEncoder(), RegionNormaliser(), b, rs[i])
    {
      RegionReadsBack(b, rs[i]);
    }
    CountedBack(HeadReader(), HeadCount(), RegionReaders(), RegionEncoder(), RegionNormaliser(), b, 0,
                HeadOf(l), q, rs);
  }

  lemma EncParts(l: Layer, b: Bytes)
    requires b == Enc(l)
    ensures HasBody(b, l) && At(b, BodyEnd(l), EncTrailer(l)) && |b| == BodyEnd(l) + |EncTrailer(l)|
  {
    AtWhole(b);
    AtThree(b, 0, EncHead(l), EncRegions(l.regions), EncTrailer(l));
  }

  /** What a reader delivers at one position, kept apart from how it reads. */
  ghost predicate Gives<T>(get: Reader<T>, b: Bytes, p: nat, r: Got<T>) { get(b, p) == r }

  ghost predicate Yields<T>(get: Reader<T>, b: Bytes, p: nat, r: Got<T>) {
    forall k: nat :: k == p ==> Gives(get, b, k, r)
  }

  /** What follows the source byte of a written layer. */
  ghost predicate TrailerReads(meta: Reader<OcrMeta>, b: Bytes, p: nat, l: Layer) {
    && p < |b| && b[p] == l.source
    && (l.source == OCR && l.ocr.Some? ==> Yields(meta, b, p + 1, Got(NormalMeta(l.ocr.value), |b|)))
    && (l.source == OCR && l.ocr.None? ==> Yields(meta, b, p + 1, Fail))
  }

  lemma TrailerStarts(b: Bytes, p: nat, l: Layer)
    requires At(b, p, EncTrailer(l))
    ensures p < |b| && b[p] == l.source
    ensures l.source == OCR && l.ocr.Some? ==> At(b, p + 1, EncMeta(l.ocr.value))
  {
    if l.source == OCR && l.ocr.Some? {
      FirstByte(b, p, l.source, EncMeta(l.ocr.value));
    } else {
      FirstByte(b, p, l.source, []);
    }
  }

  lemma FirstByte(b: Bytes, p: nat, x: Byte, more: Bytes)
    requires At(b, p, [x] + more)
    ensures p < |b| && b[p] == x && At(b, p + 1, more)
  {
    AtConcat(b, p, [x], more);
    AtIndex(b, p, [x], 0);
  }

  lemma TrailerLength(l: Layer)
    ensures |EncTrailer(l)| == 1 + if l.source == OCR && l.ocr.Some? then |EncMeta(l.ocr.value)| else 0
  {
  }

  lemma MetaAtEnd(b: Bytes)
    ensures Yields(MetaReader(), b, |b|, Fail)
  {
    assert GetStr(b, |b|).Fail?;
    assert GetFront(b, |b|).Fail?;
  }

  lemma OcrBack(b: Bytes, p: nat, m: OcrMeta)
    requires |b| < TWO32 && Int32(m.dpi) && Int64(m.created) && At(b, p, EncMeta(m)) && p + |EncMeta(m)| == |b|
    ensures MetaReader()(b, p) == Got(NormalMeta(m), |b|)
  {
    MetaBack(b, p, m);
  }

  lemma OcrYields(b: Bytes, p: nat, m: OcrMeta)
    requires |b| < TWO32 && Int32(m.dpi) && Int64(m.created) && At(b, p, EncMeta(m)) && p + |EncMeta(m)| == |b|
    ensures Yields(MetaReader(), b, p, Got(NormalMeta(m), |b|))
  {
    OcrBack(b, p, m);
  }

  lemma TrailerBack(b: Bytes, p: nat, l: Layer)
    requires |b| < TWO32 && Ints(l) && At(b, p, EncTrailer(l)) && p + |EncTrailer(l)| == |b|
    ensures TrailerReads(MetaReader(), b, p, l)
  {
    TrailerStarts(b, p, l);
    TrailerLength(l);
    if l.source == OCR {
      if l.ocr.Some? { OcrYields(b, p + 1, l.ocr.value); } else { MetaAtEnd(b); }
    }
  }

  lemma RoundTripWith(body: Reader<(Head, seq<Region>)>, meta: Reader<OcrMeta>, b: Bytes, p: nat, l: Layer)
    requires body(b, 0) == Got((HeadOf(l), NormalRegions(l.regions)), p) && TrailerReads(meta, b, p, l)
    requires Int32(l.page)
    ensures DecWith(body, meta, b) == Some(Normal(l)) <==> (l.source == OCR <==> l.ocr.Some?)
  {
    IntSurvives(l.page);
    if l.source == OCR {
      assert Gives(meta, b, p + 1, if l.ocr.Some? then Got(NormalMeta(l.ocr.value), |b|) else Fail);
    }
  }

  /** Round trip. For every layer whose encoding is shorter than 2^32 bytes: decoding it gives
      the normalised layer exactly when the layer has OCR data if, and only if, its source
      says so. */
  lemma RoundTripIff(l: Layer)
    requires Ints(l) && |Enc(l)| < TWO32
    ensures Dec(Enc(l)) == Some(Normal(l)) <==> (l.source == OCR <==> l.ocr.Some?)
  {
    BodyReads(l);
    TrailerOf(l);
    RoundTripWith(BodyReader(), MetaReader(), Enc(l), BodyEnd(l), l);
  }

  // ---- Cut-off encodings ----

  lemma U32Extends(b: Bytes, k: nat, p: nat)
    requires k <= |b|
    ensures GetU32(b[..k], p).Got? ==> GetU32(b, p) == GetU32(b[..k], p)
  {
    if GetU32(b[..k], p).Got? {
      assert b[..k][p..p + 4] == b[p..p + 4];
    }
  }

  lemma StrExtends(b: Bytes, k: nat, p: nat)
    requires k <= |b| < TWO32
    ensures GetStr(b[..k], p).Got? ==> GetStr(b, p) == GetStr(b[..k], p)
  {
    var a := b[..k];
    U32Extends(b, k, p);
    if GetStr(a, p).Got? {
      var n := GetU32(a, p);
      assert a[n.pos..n.pos + n.value] == b[n.pos..n.pos + n.value];
    }
  }

  lemma F64Extends(b: Bytes, k: nat, p: nat)
    requires k <= |b|
    ensures GetF64(b[..k], p).Got? ==> GetF64(b, p) == GetF64(b[..k], p)
  {
    if GetF64(b[..k], p).Got? {
      assert b[..k][p..p + 8] == b[p..p + 8];
    }
  }

  lemma RectExtends(b: Bytes, k: nat, p: nat)
    requires k <= |b|
    ensures GetRect(b[..k], p).Got? ==> GetRect(b, p) == GetRect(b[..k], p)
  {
    if GetRect(b[..k], p).Got? {
      F64Extends(b, k, p);
      F64Extends(b, k, p + 8);
      F64Extends(b, k, p + 16);
      F64Extends(b, k, p + 24);
    }
  }

  lemma TargetExtends(b: Bytes, k: nat, p: nat)
    requires k <= |b| < TWO32
    ensures GetTarget(b[..k], p).Got? ==> GetTarget(b, p) == GetTarget(b[..k], p)
  {
    if GetTarget(b[..k], p).Got? {
      U32Extends(b, k, p + 1);
      F64Extends(b, k, p + 5);
      F64Extends(b, k, p + 13);
      StrExtends(b, k, p + 21);
    }
  }

  lemma LeadExtends(b: Bytes, k: nat, p: nat, f: Format)
    requires k <= |b|
    ensures GetLead(b[..k], p, f).Got? ==> GetLead(b, p, f) == GetLead(b[..k], p, f)
  {
    if GetLead(b[..k], p, f).Got? {
      U32Extends(b, k, p + 1);
      RectExtends(b, k, GetBlock(b[..k], p + 1, f.blockId).pos);
    }
  }

  lemma RestExtends(b: Bytes, k: nat, p: nat, f: Format)
    requires k <= |b| < TWO32
    ensures GetRest(b[..k], p, f).Got? ==> GetRest(b, p, f) == GetRest(b[..k], p, f)
  {
    if GetRest(b[..k], p, f).Got? {
      StrExtends(b, k, p);
      TargetExtends(b, k, GetStr(b[..k], p).pos);
    }
  }

  lemma RegionExtends(b: Bytes, k: nat, p: nat, f: Format)
    requires k <= |b| < TWO32
    ensures GetRegion(b[..k], p, f).Got? ==> GetRegion(b, p, f) == GetRegion(b[..k], p, f)
  {
    LeadExtends(b, k, p, f);
    if GetLead(b[..k], p, f).Got? {
      RestExtends(b, k, GetLead(b[..k], p, f).pos, f);
    }
  }

  lemma TwoExtends(b: Bytes, k: nat, p: nat)
    requires k <= |b| < TWO32
    ensures GetTwo(b[..k], p).Got? ==> GetTwo(b, p) == GetTwo(b[..k], p)
  {
    StrExtends(b, k, p);
    if GetStr(b[..k], p).Got? {
      StrExtends(b, k, GetStr(b[..k], p).pos);
    }
  }

  lemma ParamExtends(b: Bytes, k: nat, p: nat)
    requires k <= |b| < TWO32
    ensures GetParam(b[..k], p).Got? ==> GetParam(b, p) == GetParam(b[..k], p)
  {
    TwoExtends(b, k, p);
  }

  lemma NamesExtend(b: Bytes, k: nat, p: nat)
    requires k <= |b| < TWO32
    ensures GetNames(b[..k], p).Got? ==> GetNames(b, p) == GetNames(b[..k], p)
  {
    TwoExtends(b, k, p);
    if GetTwo(b[..k], p).Got? {
      TwoExtends(b, k, GetTwo(b[..k], p).pos);
    }
  }

  lemma StampExtends(b: Bytes, k: nat, p: nat)
    requires k <= |b|
    ensures GetStamp(b[..k], p).Got? ==> GetStamp(b, p) == GetStamp(b[..k], p)
  {
    U32Extends(b, k, p);
    U32Extends(b, k, p + 4);
    U32Extends(b, k, p + 8);
  }

  lemma FrontExtends(b: Bytes, k: nat, p: nat)
    requires k <= |b| < TWO32
    ensures GetFront(b[..k], p).Got? ==> GetFront(b, p) == GetFront(b[..k], p)
  {
    NamesExtend(b, k, p);
    if GetNames(b[..k], p).Got? {
      StampExtends(b, k, GetNames(b[..k], p).pos);
      U32Extends(b, k, GetNames(b[..k], p).pos + 12);
    }
  }

  lemma StartExtends(b: Bytes, k: nat, p: nat)
    requires k <= |b| < TWO32
    ensures GetStart(b[..k], p).Got? ==> GetStart(b, p) == GetStart(b[..k], p)
  {
    if GetStart(b[..k], p).Got? {
      U32Extends(b, k, p);
      U32Extends(b, k, p + 4);
      StrExtends(b, k, p + 8);
    }
  }

  lemma ShapeExtends(b: Bytes, k: nat, p: nat, f: Format)
    requires k <= |b|
    ensures GetShape(b[..k], p, f).Got? ==> GetShape(b, p, f) == GetShape(b[..k], p, f)
  {
    RectExtends(b, k, p);
    if GetShape(b[..k], p, f).Got? {
      U32Extends(b, k, GetFlag(b[..k], p + 32, f.yUp).pos);
    }
  }

  lemma HeadExtends(b: Bytes, k: nat, p: nat)
    requires k <= |b| < TWO32
    ensures GetHead(b[..k], p).Got? ==> GetHead(b, p) == GetHead(b[..k], p)
  {
    StartExtends(b, k, p);
    var s := GetStart(b[..k], p);
    if s.Got? {
      ShapeExtends(b, k, s.pos, s.value.f);
    }
  }

  lemma MetaExtends(b: Bytes, k: nat, p: nat)
    requires k <= |b| < TWO32
    ensures MetaReader()(b[..k], p).Got? ==> MetaReader()(b, p) == MetaReader()(b[..k], p)
  {
    forall q: nat ensures GetFront(b[..k], q).Got? ==> GetFront(b, q) == GetFront(b[..k], q) { FrontExtends(b, k, q); }
    forall q: nat ensures GetParam(b[..k], q).Got? ==> GetParam(b, q) == GetParam(b[..k], q) { ParamExtends(b, k, q); }
    CountedExtends(FrontReader(), FrontCount(), ParamReaders(), b, k, p);
  }

  lemma BodyExtends(b: Bytes, k: nat)
    requires k <= |b| < TWO32
    ensures BodyReader()(b[..k], 0).Got? ==> BodyReader()(b, 0) == BodyReader()(b[..k], 0)
  {
    forall q: nat ensures GetHead(b[..k], q).Got? ==> GetHead(b, q) == GetHead(b[..k], q) { HeadExtends(b, k, q); }
    forall h: Head ensures Extends(RegionReaders()(h), b, k) {
      forall q: nat ensures GetRegion(b[..k], q, h.f).Got? ==> GetRegion(b, q, h.f) == GetRegion(b[..k], q, h.f) {
        RegionExtends(b, k, q, h.f);
      }
    }
    CountedExtends(HeadReader(), HeadCount(), RegionReaders(), b, k, 0);
  }

  lemma BodyForward(b: Bytes)
    ensures BodyReader()(b, 0).Got? ==> BodyReader()(b, 0).pos <= |b|
  {
    forall q: nat ensures GetHead(b, q).Got? ==> q <= GetHead(b, q).pos <= |b| { HeadForward(b, q); }
    forall h: Head ensures Forward(RegionReaders()(h), b) {
      forall q: nat
        ensures GetRegion(b, q, h.f).Got? ==> q <= GetRegion(b, q, h.f).pos <= |b|
      {
        RegionForward(b, q, h.f);
      }
    }
    CountedForward(HeadReader(), HeadCount(), RegionReaders(), b, 0);
  }

  lemma HeadForward(b: Bytes, q: nat)
    ensures GetHead(b, q).Got? ==> q <= GetHead(b, q).pos <= |b|
  {
    if q > |b| { assert GetU32(b, q).Fail?; }
  }

  lemma RegionForward(b: Bytes, q: nat, f: Format)
    ensures GetRegion(b, q, f).Got? ==> q <= GetRegion(b, q, f).pos <= |b|
  {
    if q > |b| { assert GetByte(b, q).Fail?; }
  }

  lemma MetaForward(b: Bytes, p: nat)
    ensures MetaReader()(b, p).Got? ==> MetaReader()(b, p).pos <= |b|
  {
    forall q: nat ensures GetFront(b, q).Got? ==> q <= GetFront(b, q).pos <= |b| { FrontForward(b, q); }
    forall q: nat ensures GetParam(b, q).Got? ==> q <= GetParam(b, q).pos <= |b| { ParamForward(b, q); }
    CountedForward(FrontReader(), FrontCount(), ParamReaders(), b, p);
  }

  lemma FrontForward(b: Bytes, q: nat)
    ensures GetFront(b, q).Got? ==> q <= GetFront(b, q).pos <= |b|
  {
    if q > |b| { assert GetStr(b, q).Fail?; }
  }

  lemma ParamForward(b: Bytes, q: nat)
    ensures GetParam(b, q).Got? ==> q <= GetParam(b, q).pos <= |b|
  {
    if q > |b| { assert GetStr(b, q).Fail?; }
  }

  lemma BodyCut(b: Bytes, k: nat)
    requires k <= |b| < TWO32
    ensures BodyReader()(b[..k], 0).Got? ==>
      BodyReader()(b, 0) == BodyReader()(b[..k], 0) && BodyReader()(b[..k], 0).pos <= k
  {
    BodyExtends(b, k);
    BodyForward(b[..k]);
  }

  lemma MetaCut(b: Bytes, k: nat, p: nat)
    requires k <= |b| < TWO32
    ensures MetaReader()(b[..k], p).Got? ==>
      MetaReader()(b, p) == MetaReader()(b[..k], p) && MetaReader()(b[..k], p).pos <= k
  {
    MetaExtends(b, k, p);
    MetaForward(b[..k], p);
  }

  lemma BodyReads(l: Layer)
    requires Ints(l) && |Enc(l)| < TWO32
    ensures BodyReader()(Enc(l), 0) == Got((HeadOf(l), NormalRegions(l.regions)), BodyEnd(l))
  {
    EncParts(l, Enc(l));
    BodyBack(Enc(l), l);
  }

  lemma TrailerOf(l: Layer)
    requires Ints(l) && |Enc(l)| < TWO32
    ensures TrailerReads(MetaReader(), Enc(l), BodyEnd(l), l)
  {
    EncParts(l, Enc(l));
    TrailerBack(Enc(l), BodyEnd(l), l);
  }

  lemma EncLength(l: Layer)
    ensures BodyEnd(l) < |Enc(l)| && (!(l.source == OCR && l.ocr.Some?) ==> |Enc(l)| == BodyEnd(l) + 1)
  {
    TrailerLength(l);
  }

  lemma NoBody(body: Reader<(Head, seq<Region>)>, meta: Reader<OcrMeta>, c: Bytes)
    requires body(c, 0) == Fail
    ensures DecWith(body, meta, c) == None
  {
  }

  lemma NoTrailer(body: Reader<(Head, seq<Region>)>, meta: Reader<OcrMeta>, c: Bytes, l: Layer)
    requires body(c, 0) == Got((HeadOf(l), NormalRegions(l.regions)), |c|) && Int32(l.page)
    ensures DecWith(body, meta, c) == Some(Normal(l).(source := NATIVE, ocr := None))
  {
    IntSurvives(l.page);
  }

  lemma NoMeta(body: Reader<(Head, seq<Region>)>, meta: Reader<OcrMeta>, c: Bytes, p: nat, l: Layer)
    requires Yields(body, c, 0, Got((HeadOf(l), NormalRegions(l.regions)), p))
    requires p < |c| && c[p] == OCR && Yields(meta, c, p + 1, Fail)
    ensures DecWith(body, meta, c) == None
  {
    assert Gives(body, c, 0, Got((HeadOf(l), NormalRegions(l.regions)), p));
    assert Gives(meta, c, p + 1, Fail);
  }

  /** Cut inside head or regions. */
  lemma EarlyCut(l: Layer, k: nat)
    requires Ints(l) && |Enc(l)| < TWO32 && k < BodyEnd(l) <= |Enc(l)|
    ensures Dec(Enc(l)[..k]) == None
  {
    BodyReads(l);
    BodyCut(Enc(l), k);
    NoBody(BodyReader(), MetaReader(), Enc(l)[..k]);
  }

  /** Cut exactly before the trailer. */
  lemma ExactCut(l: Layer)
    requires Ints(l) && |Enc(l)| < TWO32 && BodyEnd(l) <= |Enc(l)|
    ensures Dec(Enc(l)[..BodyEnd(l)]) == Some(Normal(l).(source := NATIVE, ocr := None))
  {
    FrontHasBody(l, BodyEnd(l));
    NoTrailer(BodyReader(), MetaReader(), Enc(l)[..BodyEnd(l)], l);
  }

  /** Cut inside the OCR data, where the trailer can no longer be read. */
  lemma LateCut(l: Layer, k: nat)
    requires Ints(l) && |Enc(l)| < TWO32 && l.source == OCR && l.ocr.Some? && BodyEnd(l) < k < |Enc(l)|
    ensures Dec(Enc(l)[..k]) == None
  {
    BodyYields(l, k);
    TrailerOf(l);
    MetaGone(Enc(l), k, BodyEnd(l) + 1, NormalMeta(l.ocr.value));
    NoMeta(BodyReader(), MetaReader(), Enc(l)[..k], BodyEnd(l), l);
  }

  lemma BodyYields(l: Layer, k: nat)
    requires Ints(l) && BodyEnd(l) <= k <= |Enc(l)| < TWO32
    ensures Yields(BodyReader(), Enc(l)[..k], 0, Got((HeadOf(l), NormalRegions(l.regions)), BodyEnd(l)))
  {
    FrontHasBody(l, k);
  }

  lemma MetaGone(b: Bytes, k: nat, p: nat, m: OcrMeta)
    requires k < |b| < TWO32 && Yields(MetaReader(), b, p, Got(m, |b|))
    ensures Yields(MetaReader(), b[..k], p, Fail)
  {
    assert Gives(MetaReader(), b, p, Got(m, |b|));
    MetaCut(b, k, p);
  }

  /** An encoding that was cut off is rejected, wherever the cut is, with one exception: cut
      exactly before the trailer it reads as a native layer without OCR data. */
  lemma TruncationIsNoticed(l: Layer, k: nat)
    requires Ints(l) && |Enc(l)| < TWO32 && (l.source == OCR <==> l.ocr.Some?) && k < |Enc(l)|
    ensures Dec(Enc(l)[..k]) ==
      if k == BodyEnd(l) then Some(Normal(l).(source := NATIVE, ocr := None)) else None
  {
    EncLength(l);
    if k < BodyEnd(l) {
      EarlyCut(l, k);
    } else if k == BodyEnd(l) {
      ExactCut(l);
    } else {
      LateCut(l, k);
    }
  }

  lemma FrontHasBody(l: Layer, k: nat)
    requires Ints(l) && BodyEnd(l) <= k <= |Enc(l)| < TWO32
    ensures BodyReader()(Enc(l)[..k], 0) == Got((HeadOf(l), NormalRegions(l.regions)), BodyEnd(l))
  {
    var b := Enc(l);
    EncParts(l, b);
    AtFront(b, k, 0, EncHead(l));
    AtFront(b, k, |EncHead(l)|, EncRegions(l.regions));
    BodyBack(b[..k], l);
  }

  // ---- Document outlines ----

  datatype Item = Item(level: int, title: Bytes, page: int, uri: Bytes)

  const OUTLINE_MAGIC: nat := 0x324F5454

  function EncItem(it: Item): (t: Bytes)
    ensures |t| >= 1
  {
    EncU32(U32(it.level)) + (EncStr(it.title) + (EncU32(U32(it.page)) + EncStr(it.uri)))
  }

  function ItemEncoder(): Item -> Bytes { (it: Item) => EncItem(it) }

  function EncItems(items: seq<Item>): Bytes { EncMany(ItemEncoder(), items) }

  /** serialize_document_outline. */
  function EncOutline(items: seq<Item>): Bytes {
    EncU32(OUTLINE_MAGIC) + (EncU32(U32(|items|)) + EncItems(items))
  }

  function GetItem(b: Bytes, p: nat): (r: Got<Item>)
    ensures p <= |b| && r.Got? ==> p <= r.pos <= |b|
  {
    var level := GetU32(b, p);
    if level.Fail? then Fail else
    var title := GetStr(b, level.pos);
    if title.Fail? then Fail else
    var page := GetU32(b, title.pos);
    if page.Fail? then Fail else
    var uri := GetStr(b, page.pos);
    if uri.Fail? then Fail else Got(Item(I32(level.value), title.value, I32(page.value), uri.value), uri.pos)
  }

  function ItemReader(): Reader<Item> { (b: Bytes, p: nat) => GetItem(b, p) }

  /** deserialize_document_outline. */
  function DecOutline(b: Bytes): Option<seq<Item>> {
    var magic := GetU32(b, 0);
    if magic.Fail? || magic.value != OUTLINE_MAGIC then None else
    var n := GetU32(b, magic.pos);
    if n.Fail? then None else
    var items := GetMany(ItemReader(), b, n.pos, n.value);
    if items.Fail? then None else Some(items.value)
  }

  method AppendItem(out: Bytes, it: Item) returns (t: Bytes)
    ensures t == out + EncItem(it)
  {
    ghost var a, c, d, e := EncU32(U32(it.level)), EncStr(it.title), EncU32(U32(it.page)), EncStr(it.uri);
    t := AppendU32(out, U32(it.level));
    t := AppendStr(t, it.title);
    t := AppendU32(t, U32(it.page));
    t := AppendStr(t, it.uri);
    Assoc(out + a + c, d, e);
    Assoc(out + a, c, d + e);
    Assoc(out, a, c + (d + e));
  }

  method SerializeOutline(items: seq<Item>) returns (out: Bytes)
    ensures out == EncOutline(items)
  {
    out := AppendU32([], OUTLINE_MAGIC);
    out := AppendU32(out, U32(|items|));
    ghost var start := out;
    for i := 0 to |items|
      invariant out == start + EncItems(items[..i])
    {
      assert items[..i + 1] == items[..i] + [items[i]];
      ManyPush(ItemEncoder(), items[..i], items[i]);
      Assoc(start, EncItems(items[..i]), EncItem(items[i]));
      out := AppendItem(out, items[i]);
    }
    assert items[..|items|] == items && [] + EncU32(OUTLINE_MAGIC) == EncU32(OUTLINE_MAGIC);
    Assoc(EncU32(OUTLINE_MAGIC), EncU32(U32(|items|)), EncItems(items));
  }

  method ReadItem(b: Bytes, p: nat) returns (ok: bool, it: Item, q: nat)
    requires p <= |b|
    ensures p <= q <= |b| && GetItem(b, p) == if ok then Got(it, q) else Fail
  {
    var level, title, page, uri;
    it := Item(0, [], 0, []);
    ok, level, q := ReadU32(b, p);
    if !ok { return; }
    ok, title, q := ReadStr(b, q);
    if !ok { return; }
    ok, page, q := ReadU32(b, q);
    if !ok { return; }
    ok, uri, q := ReadStr(b, q);
    it := Item(I32(level), title, I32(page), uri);
  }

  /** The reader of the specification, seen only position by position. */
  ghost predicate ReadsItem(get: Reader<Item>, b: Bytes, p: nat) { get(b, p) == GetItem(b, p) }

  /** The loop over the counted items: it stops at the first one that cannot be read. */
  method ReadItems(b: Bytes, p: nat, n: nat, ghost get: Reader<Item>) returns (r: Got<seq<Item>>)
    requires p <= |b| && forall k: nat :: ReadsItem(get, b, k)
    ensures r == GetMany(get, b, p, n)
  {
    var xs, q: nat := [], p;
    BehindNothing(GetMany(get, b, p, n));
    for i := 0 to n
      invariant q <= |b| && GetMany(get, b, p, n) == Behind(xs, GetMany(get, b, q, n - i))
    {
      var ok, x, next := ReadItem(b, q);
      assert ReadsItem(get, b, q);
      if !ok {
        ManyFail(get, b, xs, q, n - i);
        return Fail;
      }
      ManyStep(get, b, xs, q, n - i, x, next);
      xs, q := xs + [x], next;
    }
    ManyEnd(get, b, xs, q);
    return Got(xs, q);
  }

  method DeserializeOutline(b: Bytes) returns (r: Option<seq<Item>>)
    ensures r == DecOutline(b)
  {
    var ok, magic, q := ReadU32(b, 0);
    if !ok || magic != OUTLINE_MAGIC {
      return None;
    }
    var n;
    ok, n, q := ReadU32(b, q);
    if !ok {
      return None;
    }
    var items := ReadItems(b, q, n, ItemReader());
    return if items.Fail? then None else Some(items.value);
  }

  lemma ItemSplits(b: Bytes, p: nat, it: Item)
    requires At(b, p, EncItem(it))
    ensures var t := |EncStr(it.title)|;
      && At(b, p, EncU32(U32(it.level))) && At(b, p + 4, EncStr(it.title))
      && At(b, p + 4 + t, EncU32(U32(it.page))) && At(b, p + 8 + t, EncStr(it.uri))
      && |EncItem(it)| == 8 + t + |EncStr(it.uri)|
  {
    var t, u := EncStr(it.title), EncStr(it.uri);
    AtConcat(b, p, EncU32(U32(it.level)), t + (EncU32(U32(it.page)) + u));
    AtThree(b, p + 4, t, EncU32(U32(it.page)), u);
  }

  lemma ItemBack(b: Bytes, p: nat, it: Item)
    requires |b| < TWO32 && Int32(it.level) && Int32(it.page) && At(b, p, EncItem(it))
    ensures GetItem(b, p) == Got(it, p + |EncItem(it)|)
  {
    var t := EncStr(it.title);
    ItemSplits(b, p, it);
    IntBack(b, p, it.level);
    StrBack(b, p + 4, it.title);
    IntBack(b, p + 4 + |t|, it.page);
    StrBack(b, p + 8 + |t|, it.uri);
  }

  lemma IntBack(b: Bytes, p: nat, n: int)
    requires Int32(n) && At(b, p, EncU32(U32(n)))
    ensures GetU32(b, p).Got? && GetU32(b, p).pos == p + 4 && I32(GetU32(b, p).value) == n
  {
    U32Back(b, p, U32(n));
    IntSurvives(n);
  }

  lemma ItemReadsBack(b: Bytes, it: Item)
    requires |b| < TWO32 && Int32(it.level) && Int32(it.page)
    ensures ReadsBack(ItemReader(), ItemEncoder(), (x: Item) => x, b, it)
  {
    forall p: nat | At(b, p, EncItem(it)) ensures GetItem(b, p) == Got(it, p + |EncItem(it)|) {
      ItemBack(b, p, it);
    }
  }

  lemma ItemsBack(b: Bytes, p: nat, items: seq<Item>)
    requires |b| < TWO32 && At(b, p, EncItems(items))
    requires forall i :: 0 <= i < |items| ==> Int32(items[i].level) && Int32(items[i].page)
    ensures GetMany(ItemReader(), b, p, |items|) == Got(items, p + |EncItems(items)|)
  {
    var same := (x: Item) => x;
    forall i | 0 <= i < |items| ensures ReadsBack(ItemReader(), ItemEncoder(), same, b, items[i]) {
      ItemReadsBack(b, items[i]);
    }
    ManyBack(ItemReader(), ItemEncoder(), same, b, p, items);
    assert Each(same, items) == items;
  }

  /** Outlines come back unchanged. */
  lemma OutlineRoundTrip(items: seq<Item>)
    requires |EncOutline(items)| < TWO32
    requires forall i :: 0 <= i < |items| ==> Int32(items[i].level) && Int32(items[i].page)
    ensures DecOutline(EncOutline(items)) == Some(items)
  {
    var b := EncOutline(items);
    AtWhole(b);
    AtThree(b, 0, EncU32(OUTLINE_MAGIC), EncU32(U32(|items|)), EncItems(items));
    ManyLength(ItemEncoder(), items);
    U32Back(b, 0, OUTLINE_MAGIC);
    U32Back(b, 4, U32(|items|));
    ItemsBack(b, 8, items);
  }
}
