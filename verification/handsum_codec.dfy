// The Handsum c3q4 format: header, nibbles and blocks, written by src/handsum.cpp and read by
// external/basic_handsum_decode.c.
module HandsumCodec {
  import opened Wrappers
  import opened HandsumScale

  const SIZE: nat := 147
  const HEADER_BITS: nat := 24

  // ---- Header ----

  /** The nearest integer to 16 * short / long, ties up, but at least 1. */
  function ShortSide(short: nat, long: nat): (a: nat)
    requires 0 < short <= long
    ensures 1 <= a <= 16
  {
    ShortSideFits(short, long);
    var a := (short * 32 + long) / (2 * long);
    if a <= 0 then 1 else a
  }

  lemma ShortSideFits(short: nat, long: nat)
    requires 0 < short <= long
    ensures (short * 32 + long) / (2 * long) <= 16
  {
    Quotient(short * 32 + long, 2 * long);
    var a := (short * 32 + long) / (2 * long);
    if a >= 17 {
      Scaled17(a, long);
    }
  }

  lemma Quotient(n: nat, d: nat)
    requires d > 0
    ensures n / d * d <= n < n / d * d + d
  {
  }

  lemma Scaled17(a: nat, long: nat)
    requires a >= 17
    ensures a * (2 * long) >= 34 * long
  {
  }

  /** The aspect field of the encoder. Width and height are positive. */
  function Aspect(width: nat, height: nat): (aspect: nat)
    requires width > 0 && height > 0
    ensures aspect < 32 && aspect != 0x1F
  {
    if width >= height then ShortSide(height, width) - 1
    else
      var aspect := ShortSide(width, height) - 1 + 0x10;
      if aspect == 0x1F then 0x0F else aspect
  }

  /** The three header bytes: the third keeps the low eight bits of (2 << 7) | (3 << 5) | aspect. */
  function Header(aspect: nat): (h: seq<Byte>)
    requires aspect < 32
    ensures |h| == 3
  {
    [0xFE, 0xD7, ((2 * 128) + (3 * 32) + aspect) % 256]
  }

  /** What the decoder accepts. */
  predicate Accepts(src: seq<Byte>) {
    && |src| >= SIZE && src[0] == 0xFE && src[1] == 0xD7
    && src[2] / 32 == 3 && src[2] % 32 != 0x1F
  }

  datatype Size = Size(width: nat, height: nat)

  function DecodedSize(src: seq<Byte>): (s: Size)
    requires Accepts(src)
    ensures 1 <= s.width <= 16 && 1 <= s.height <= 16
  {
    if src[2] / 16 % 2 == 0 then Size(16, 1 + src[2] % 16) else Size(1 + src[2] % 16, 16)
  }

  /** The long side is 16, the short one in proportion. */
  function FittedSize(width: nat, height: nat): Size
    requires width > 0 && height > 0
  {
    if width >= height then Size(16, ShortSide(height, width)) else Size(ShortSide(width, height), 16)
  }

  /** Whatever the encoder writes, the decoder accepts, and takes the short side to be the
      nearest integer to sixteen times the ratio, at least 1; the long side is 16. */
  lemma HeaderIsAccepted(width: nat, height: nat, src: seq<Byte>)
    requires width > 0 && height > 0 && |src| == SIZE && src[..3] == Header(Aspect(width, height))
    ensures Accepts(src)
    ensures DecodedSize(src) == FittedSize(width, height)
  {
    var h := Header(Aspect(width, height));
    assert src[0] == h[0] && src[1] == h[1] && src[2] == h[2];
    AspectBack(Aspect(width, height), src[2]);
  }

  lemma AspectBack(aspect: nat, x: Byte)
    requires aspect < 32 && x as int == ((2 * 128) + (3 * 32) + aspect) % 256
    ensures x / 32 == 3 && x as int % 32 == aspect && x as int / 16 % 2 == aspect / 16 && x as int % 16 == aspect % 16
  {
    assert x as int == 96 + aspect;
  }

  /** Nearest: 16 * short / long is within a half of it, or below a half and raised to 1. */
  lemma ShortSideIsNearest(short: nat, long: nat)
    requires 0 < short <= long
    ensures var a := ShortSide(short, long);
      && (32 * short >= long ==> 2 * long * a - long <= 32 * short < 2 * long * a + long)
      && (32 * short < long ==> a == 1)
  {
    Quotient(short * 32 + long, 2 * long);
    var q := (short * 32 + long) / (2 * long);
    assert q * (2 * long) == 2 * long * q;
    if 32 * short >= long {
      AtLeastOne(short * 32 + long, 2 * long);
    } else {
      BelowOne(short * 32 + long, 2 * long);
    }
  }

  lemma AtLeastOne(n: nat, d: nat)
    requires 0 < d <= n
    ensures n / d >= 1
  {
    var q := n / d;
    Quotient(n, d);
    assert q == 0 ==> q * d == 0;
  }

  lemma BelowOne(n: nat, d: nat)
    requires n < d
    ensures n / d == 0
  {
  }

  // ---- Nibbles ----

  type Nibble = n: int | 0 <= n < 16 witness 0

  function Or4(x: Nibble, y: Nibble): Nibble { ((x as bv4) | (y as bv4)) as int }

  /** Or into a clear nibble. */
  lemma Or4Clear(y: Nibble)
    ensures Or4(0, y) == y
  {
    assert (0 as bv4) | (y as bv4) == (y as bv4);
  }

  function Lo(b: Byte): Nibble { b % 16 }

  function Hi(b: Byte): Nibble { b / 16 }

  function Pack(hi: Nibble, lo: Nibble): Byte {
    var h: int, l: int := hi, lo;
    h * 16 + l
  }

  /** Nibble k of a buffer: the low half of a byte comes first. */
  function NibbleAt(buf: seq<Byte>, k: nat): Nibble
    requires k < 2 * |buf|
  {
    if k % 2 == 0 then Lo(buf[k / 2]) else Hi(buf[k / 2])
  }

  /** The byte after a nibble was or-ed into its place. */
  function Merged(b: Byte, k: nat, n: Nibble): Byte {
    if k % 2 == 0 then Pack(Hi(b), Or4(Lo(b), n)) else Pack(Or4(Hi(b), n), Lo(b))
  }

  /** write_nibble: the bit offset moves by four. */
  method WriteNibble(buf: array<Byte>, bit: nat, nibble: Nibble) returns (next: nat)
    requires bit % 4 == 0 && bit / 8 < buf.Length
    modifies buf
    ensures next == bit + 4
    ensures buf[..] == old(buf[..])[bit / 8 := Merged(old(buf[bit / 8]), bit / 4, nibble)]
  {
    buf[bit / 8] := Merged(buf[bit / 8], bit / 4, nibble);
    next := bit + 4;
  }

  /** The first k nibbles are these, all later ones are still clear. */
  ghost predicate Written(buf: seq<Byte>, nibbles: seq<Nibble>) {
    && |nibbles| <= 2 * |buf|
    && forall k: nat {:trigger NibbleAt(buf, k)} :: k < 2 * |buf| ==>
      NibbleAt(buf, k) == if k < |nibbles| then nibbles[k] else 0
  }

  lemma WritePushes(buf: seq<Byte>, nibbles: seq<Nibble>, n: Nibble)
    requires Written(buf, nibbles) && |nibbles| < 2 * |buf|
    ensures var k := |nibbles|;
      Written(buf[k / 2 := Merged(buf[k / 2], k, n)], nibbles + [n])
  {
    var k := |nibbles|;
    var now := buf[k / 2 := Merged(buf[k / 2], k, n)];
    assert NibbleAt(buf, k) == 0;
    Or4Clear(n);
    forall j: nat | j < 2 * |buf| ensures NibbleAt(now, j) == if j < k + 1 then (nibbles + [n])[j] else 0 {
      assert NibbleAt(buf, j) == if j < k then nibbles[j] else 0;
      if j / 2 == k / 2 && j != k {
        assert NibbleAt(now, j) == NibbleAt(buf, j);
      }
    }
  }

  // ---- Encoding a block ----

  /** Division of C: towards zero. */
  function Div(a: int, b: int): int
    requires b > 0
  {
    if a >= 0 then a / b else -((-a) / b)
  }

  function Clamp(x: int, lo: int, hi: int): int { Max(lo, Min(hi, x)) }

  function Nibblify(v: int): Nibble { Clamp(v, 0, 15) }

  /** The four samples of tile i of a block, around zero. */
  function Sample(src: seq<Byte>, i: nat, t: nat): (s: int)
    requires |src| == 64 && i < 16 && t < 4
    ensures -128 <= s < 128
  {
    var x: int := src[8 * (2 * (i / 4)) + 2 * (i % 4) + 8 * (t / 2) + t % 2];
    x - 0x80
  }

  datatype Dct = Dct(d0: int, d1: int, d2: int)

  function TileDct(s0: int, s1: int, s2: int, s3: int): Dct {
    Dct((s0 + s1 + s2 + s3 + 1) / 2, (s0 - s1 + s2 - s3 + 1) / 2, (s0 + s1 - s2 - s3 + 1) / 2)
  }

  function Quantised(d: Dct): (q: seq<Nibble>)
    ensures |q| == 3
  {
    [Nibblify(Div(d.d0 + 256 + 0x11, 0x22)), Nibblify(Div(d.d1 + 68, 8)), Nibblify(Div(d.d2 + 68, 8))]
  }

  function TileNibbles(src: seq<Byte>, i: nat): (q: seq<Nibble>)
    requires |src| == 64 && i < 16
    ensures |q| == 3
  {
    Quantised(TileDct(Sample(src, i, 0), Sample(src, i, 1), Sample(src, i, 2), Sample(src, i, 3)))
  }

  function BlockNibbles(src: seq<Byte>, n: nat): (q: seq<Nibble>)
    requires |src| == 64 && n <= 16
    ensures |q| == 3 * n
  {
    if n == 0 then [] else BlockNibbles(src, n - 1) + TileNibbles(src, n - 1)
  }

  /** The three coefficients of a tile as encode_block_q4 computes them. */
  method EncodeTile(src: seq<Byte>, i: nat) returns (q: seq<Nibble>)
    requires |src| == 64 && i < 16
    ensures q == TileNibbles(src, i)
  {
    var s0, s1, s2, s3 := Sample(src, i, 0), Sample(src, i, 1), Sample(src, i, 2), Sample(src, i, 3);
    var dct0 := (s0 + s1 + s2 + s3 + 1) / 2;
    var dct1 := (s0 - s1 + s2 - s3 + 1) / 2;
    var dct2 := (s0 + s1 - s2 - s3 + 1) / 2;
    q := [Nibblify(Div(dct0 + 256 + 0x11, 0x22)), Nibblify(Div(dct1 + 68, 8)), Nibblify(Div(dct2 + 68, 8))];
  }

  /** One more nibble behind those that are written. */
  method PutNibble(buf: array<Byte>, bit: nat, n: Nibble, ghost before: seq<Nibble>) returns (next: nat)
    requires bit == 4 * |before| && Written(buf[..], before) && |before| < 2 * buf.Length
    modifies buf
    ensures next == bit + 4 && Written(buf[..], before + [n])
  {
    WritePushes(buf[..], before, n);
    next := WriteNibble(buf, bit, n);
  }

  method WriteTile(buf: array<Byte>, bit0: nat, q: seq<Nibble>, ghost before: seq<Nibble>) returns (bit: nat)
    requires |q| == 3 && bit0 == 4 * |before| && Written(buf[..], before) && |before| + 3 <= 2 * buf.Length
    modifies buf
    ensures bit == bit0 + 12 && Written(buf[..], before + q)
  {
    bit := PutNibble(buf, bit0, q[0], before);
    bit := PutNibble(buf, bit, q[1], before + [q[0]]);
    bit := PutNibble(buf, bit, q[2], before + [q[0]] + [q[1]]);
    assert before + [q[0]] + [q[1]] + [q[2]] == before + q;
  }

  /** encode_block_q4. */
  method EncodeBlock(buf: array<Byte>, bit0: nat, src: seq<Byte>, ghost before: seq<Nibble>) returns (bit: nat)
    requires |src| == 64 && bit0 == 4 * |before| && Written(buf[..], before) && |before| + 48 <= 2 * buf.Length
    modifies buf
    ensures bit == bit0 + 192 && Written(buf[..], before + BlockNibbles(src, 16))
  {
    bit := bit0;
    assert before + BlockNibbles(src, 0) == before;
    for i := 0 to 16
      invariant bit == bit0 + 12 * i && Written(buf[..], before + BlockNibbles(src, i))
    {
      bit := EncodeNext(buf, bit, src, i, before);
    }
  }

  method EncodeNext(buf: array<Byte>, bit0: nat, src: seq<Byte>, i: nat, ghost before: seq<Nibble>) returns (bit: nat)
    requires |src| == 64 && i < 16 && bit0 == 4 * |before| + 12 * i && |before| + 48 <= 2 * buf.Length
    requires Written(buf[..], before + BlockNibbles(src, i))
    modifies buf
    ensures bit == bit0 + 12 && Written(buf[..], before + BlockNibbles(src, i + 1))
  {
    var q := EncodeTile(src, i);
    Regroup(before, BlockNibbles(src, i), q);
    bit := WriteTile(buf, bit0, q, before + BlockNibbles(src, i));
  }

  function AllNibbles(blocks: seq<seq<Byte>>): seq<Nibble>
    requires forall b :: b in blocks ==> |b| == 64
  {
    if blocks == [] then [] else AllNibbles(blocks[..|blocks| - 1]) + BlockNibbles(blocks[|blocks| - 1], 16)
  }

  lemma {:induction false} AllNibblesLength(blocks: seq<seq<Byte>>)
    requires forall b :: b in blocks ==> |b| == 64
    ensures |AllNibbles(blocks)| == 48 * |blocks|
  {
    if blocks != [] {
      AllNibblesLength(blocks[..|blocks| - 1]);
    }
  }

  function HeaderNibbles(aspect: nat): (q: seq<Nibble>)
    requires aspect < 32
    ensures |q| == 6
  {
    var h := Header(aspect);
    [Lo(h[0]), Hi(h[0]), Lo(h[1]), Hi(h[1]), Lo(h[2]), Hi(h[2])]
  }

  /** The tail of handsum_encode_rgb888: header and the six blocks fill the 147 bytes exactly,
      and every nibble can be read back. */
  method EncodeBlocks(aspect: nat, blocks: seq<seq<Byte>>) returns (buf: array<Byte>)
    requires aspect < 32 && |blocks| == 6 && forall b :: b in blocks ==> |b| == 64
    ensures fresh(buf) && buf.Length == SIZE && buf[..3] == Header(aspect)
    ensures |AllNibbles(blocks)| == 288 && HEADER_BITS + 4 * 288 == 8 * SIZE
    ensures forall k :: 0 <= k < 288 ==> NibbleAt(buf[..], 6 + k) == AllNibbles(blocks)[k]
  {
    buf := new Byte[SIZE](i => 0);
    PutHeader(buf, aspect);
    ghost var head := HeaderNibbles(aspect);
    AllNibblesLength(blocks);
    var bit := 24;
    assert head + AllNibbles(blocks[..0]) == head;
    for n := 0 to 6
      invariant bit == 24 + 192 * n && Written(buf[..], head + AllNibbles(blocks[..n]))
    {
      AllNibblesPush(blocks, n);
      Regroup(head, AllNibbles(blocks[..n]), BlockNibbles(blocks[n], 16));
      bit := EncodeBlock(buf, bit, blocks[n], head + AllNibbles(blocks[..n]));
    }
    assert blocks[..6] == blocks;
    ReadsBack(buf[..], aspect, AllNibbles(blocks));
  }

  /** handsum_encode_rgb888 from its six planes on: without a size it returns nothing, else 147
      bytes that the decoder accepts, with the long side 16 and the short side the nearest integer
      to its ratio, at least 1, and with every nibble where the decoder looks for it. */
  method Encode(width: int, height: int, blocks: seq<seq<Byte>>) returns (bytes: seq<Byte>)
    requires |blocks| == 6 && forall b :: b in blocks ==> |b| == 64
    ensures width <= 0 || height <= 0 ==> bytes == []
    ensures width > 0 && height > 0 ==>
      && |bytes| == SIZE && Accepts(bytes)
      && DecodedSize(bytes) == FittedSize(width, height)
      && |AllNibbles(blocks)| == 288 && forall k :: 0 <= k < 288 ==> NibbleAt(bytes, 6 + k) == AllNibbles(blocks)[k]
  {
    if width <= 0 || height <= 0 {
      return [];
    }
    var buf := EncodeBlocks(Aspect(width, height), blocks);
    bytes := buf[..];
    assert bytes[..3] == buf[..3];
    HeaderIsAccepted(width, height, bytes);
  }

  lemma AllNibblesPush(blocks: seq<seq<Byte>>, n: nat)
    requires n < |blocks| && forall b :: b in blocks ==> |b| == 64
    ensures AllNibbles(blocks[..n + 1]) == AllNibbles(blocks[..n]) + BlockNibbles(blocks[n], 16)
    ensures |AllNibbles(blocks[..n])| == 48 * n
  {
    assert blocks[..n + 1][..n] == blocks[..n];
    AllNibblesLength(blocks[..n]);
  }

  method PutHeader(buf: array<Byte>, aspect: nat)
    requires aspect < 32 && buf.Length == SIZE && forall k :: 0 <= k < SIZE ==> buf[k] == 0
    modifies buf
    ensures Written(buf[..], HeaderNibbles(aspect))
  {
    var h := Header(aspect);
    buf[0] := h[0];
    buf[1] := h[1];
    buf[2] := h[2];
    HeaderWritten(buf[..], aspect);
  }

  lemma Regroup(a: seq<Nibble>, b: seq<Nibble>, c: seq<Nibble>)
    ensures (a + b) + c == a + (b + c)
  {
  }

  lemma HeaderWritten(buf: seq<Byte>, aspect: nat)
    requires aspect < 32 && |buf| == SIZE && buf[..3] == Header(aspect) && forall k :: 3 <= k < SIZE ==> buf[k] == 0
    ensures Written(buf, HeaderNibbles(aspect))
  {
    var h, q := Header(aspect), HeaderNibbles(aspect);
    assert buf[0] == h[0] && buf[1] == h[1] && buf[2] == h[2];
    forall k: nat | k < 2 * SIZE ensures NibbleAt(buf, k) == if k < 6 then q[k] else 0 {
      if k >= 6 { assert buf[k / 2] == 0; }
    }
  }

  lemma ByteFromNibbles(a: Byte, b: Byte)
    requires Lo(a) == Lo(b) && Hi(a) == Hi(b)
    ensures a == b
  {
  }

  lemma ReadsBack(buf: seq<Byte>, aspect: nat, nibbles: seq<Nibble>)
    requires aspect < 32 && |buf| == SIZE && |nibbles| == 288 && Written(buf, HeaderNibbles(aspect) + nibbles)
    ensures buf[..3] == Header(aspect)
    ensures forall k :: 0 <= k < 288 ==> NibbleAt(buf, 6 + k) == nibbles[k]
  {
    var h, q := Header(aspect), HeaderNibbles(aspect);
    var all := q + nibbles;
    forall k | 0 <= k < 3 ensures buf[k] == h[k] {
      assert NibbleAt(buf, 2 * k) == all[2 * k] && NibbleAt(buf, 2 * k + 1) == all[2 * k + 1];
      ByteFromNibbles(buf[k], h[k]);
    }
  }

  // ---- Decoding a tile ----

  /** bias_and_clamp as the code computes it, with arithmetic shifts and a cast to a byte. */
  function BiasAndClamp(x: int): Byte {
    var y := x + 0x80;
    if y / 256 == 0 then y else (-1 - (if y < 0 then -1 else 0)) % 256
  }

  lemma BiasAndClampIsClamp(x: int)
    ensures BiasAndClamp(x) == Clamp(x + 128, 0, 255)
  {
  }

  /** The transform coefficients that the decoder makes of three nibbles. */
  function Dequantised(q: seq<Nibble>): Dct
    requires |q| == 3
  {
    var a: int, b: int, c: int := q[0], q[1], q[2];
    Dct(a * 0x22 - 256, b * 0x10 - 128, c * 0x10 - 128)
  }

  /** The four pixels of a decoded tile, before smoothing. */
  function TilePixels(d: Dct): (p: seq<Byte>)
    ensures |p| == 4
  {
    [BiasAndClamp((d.d0 + d.d1 + d.d2 + 1) / 2), BiasAndClamp((d.d0 - d.d1 + d.d2 + 1) / 2),
     BiasAndClamp((d.d0 + d.d1 - d.d2 + 1) / 2), BiasAndClamp((d.d0 - d.d1 - d.d2 + 1) / 2)]
  }

  /** The mean of a tile is never clamped and survives within half a step. */
  lemma MeanError(s0: int, s1: int, s2: int, s3: int)
    requires -128 <= s0 < 128 && -128 <= s1 < 128 && -128 <= s2 < 128 && -128 <= s3 < 128
    ensures var d := TileDct(s0, s1, s2, s3);
      -17 <= Dequantised(Quantised(d)).d0 - d.d0 <= 17
  {
    var d0 := TileDct(s0, s1, s2, s3).d0;
    assert -256 <= d0 <= 254;
    var v := (d0 + 273) / 34;
    assert 34 * v <= d0 + 273 < 34 * v + 34 && 0 <= v <= 15;
  }

  function Detail(x: int): int { Nibblify(Div(x + 68, 8)) as int * 0x10 - 128 }

  /** The step of the two other coefficients is 8 when written and 16 when read: a coefficient
      comes back doubled, within half a step, or as the end it was clamped to. */
  lemma DetailIsDoubled(x: int)
    ensures -68 <= x < 60 ==> -8 < Detail(x) - 2 * x <= 8
    ensures x < -68 ==> Detail(x) == -128
    ensures x >= 60 ==> Detail(x) == 112
  {
    if -68 <= x < 60 {
      var v := (x + 68) / 8;
      assert 8 * v <= x + 68 < 8 * v + 8 && 0 <= v <= 15;
    }
  }

  /** So the detail of a tile survives if and only if each coefficient is 0 or such an end. */
  lemma DetailSurvivesIff(d: Dct)
    ensures var r := Dequantised(Quantised(d));
      (r.d1 == d.d1 && r.d2 == d.d2) <==> Survives(d.d1) && Survives(d.d2)
  {
    SurvivesIff(d.d1);
    SurvivesIff(d.d2);
  }

  predicate Survives(x: int) { x == -128 || x == 0 || x == 112 }

  lemma SurvivesIff(x: int)
    ensures Detail(x) == x <==> Survives(x)
  {
    DetailIsDoubled(x);
  }

  /** Rounding towards zero instead of down makes no difference behind the clamp. */
  lemma TruncationIsHarmless(x: int)
    ensures Nibblify(Div(x, 8)) == Nibblify(x / 8)
  {
  }

  /** A flat tile stays flat, and within 9 levels of what it was. */
  lemma FlatTileSurvives(c: Byte)
    ensures var s := c as int - 128;
      var p := TilePixels(Dequantised(Quantised(TileDct(s, s, s, s))));
      p[0] == p[1] == p[2] == p[3] && -9 <= p[0] as int - c as int <= 9
  {
    var s := c as int - 128;
    MeanError(s, s, s, s);
    var q := Quantised(TileDct(s, s, s, s));
    assert TileDct(s, s, s, s) == Dct(2 * s, 0, 0);
    assert q[1] == 8 && q[2] == 8;
    BiasAndClampIsClamp((Dequantised(q).d0 + 1) / 2);
  }

  // ---- Smoothing, in place ----

  function Mix2(a: Byte, b: Byte): (r: Byte)
    ensures forall lo, hi {:trigger Within(lo, a, hi), Within(lo, b, hi)} ::
      Within(lo, a, hi) && Within(lo, b, hi) ==> Within(lo, r, hi)
  {
    var x: int, y: int := a, b;
    (3 * x + y + 2) / 4
  }

  predicate Within(lo: int, x: int, hi: int) { lo <= x <= hi }

  function Mix4(a: Byte, b: Byte, c: Byte, d: Byte): (r: Byte)
    ensures forall lo, hi {:trigger Within(lo, a, hi), Within(lo, b, hi), Within(lo, c, hi), Within(lo, d, hi)} ::
      Within(lo, a, hi) && Within(lo, b, hi) && Within(lo, c, hi) && Within(lo, d, hi) ==> Within(lo, r, hi)
  {
    var x: int, y: int, z: int, u: int := a, b, c, d;
    (9 * x + 3 * y + z + 3 * u + 8) / 16
  }

  /** Two neighbours over a seam. */
  function Smooth2(b: seq<Byte>, p: nat, q: nat): (r: seq<Byte>)
    requires p < |b| && q < |b| && p != q
    ensures |r| == |b|
  {
    b[p := Mix2(b[p], b[q])][q := Mix2(b[q], b[p])]
  }

  /** The four pixels around a corner of four tiles, clockwise. */
  function Smooth4(b: seq<Byte>, p0: nat, p1: nat, p2: nat, p3: nat): (r: seq<Byte>)
    requires p0 < |b| && p1 < |b| && p2 < |b| && p3 < |b|
    requires p0 < p1 && p0 < p3 && p1 != p2 && p2 != p3 && p1 != p3 && p0 != p2
    ensures |r| == |b|
  {
    b[p0 := Mix4(b[p0], b[p1], b[p2], b[p3])]
     [p1 := Mix4(b[p1], b[p2], b[p3], b[p0])]
     [p2 := Mix4(b[p2], b[p3], b[p0], b[p1])]
     [p3 := Mix4(b[p3], b[p0], b[p1], b[p2])]
  }

  ghost predicate Hull(b: seq<Byte>, lo: int, hi: int) {
    forall k {:trigger b[k]} :: 0 <= k < |b| ==> Within(lo, b[k], hi)
  }

  lemma Smooth2Hull(b: seq<Byte>, p: nat, q: nat, lo: int, hi: int)
    requires p < |b| && q < |b| && p != q && Hull(b, lo, hi)
    ensures Hull(Smooth2(b, p, q), lo, hi)
  {
    assert Within(lo, b[p], hi) && Within(lo, b[q], hi);
  }

  lemma Smooth4Hull(b: seq<Byte>, p0: nat, p1: nat, p2: nat, p3: nat, lo: int, hi: int)
    requires p0 < |b| && p1 < |b| && p2 < |b| && p3 < |b|
    requires p0 < p1 && p0 < p3 && p1 != p2 && p2 != p3 && p1 != p3 && p0 != p2
    requires Hull(b, lo, hi)
    ensures Hull(Smooth4(b, p0, p1, p2, p3), lo, hi)
  {
    assert Within(lo, b[p0], hi) && Within(lo, b[p1], hi) && Within(lo, b[p2], hi) && Within(lo, b[p3], hi);
  }

  /** One inner tile corner of a block. */
  function Corner8(b: seq<Byte>, y: nat, x: nat): (r: seq<Byte>)
    requires |b| == 64 && y < 7 && x < 7
    ensures |r| == 64
  {
    var o := 8 * y + x;
    Smooth4(b, o, o + 1, o + 9, o + 8)
  }

  /** The seams of the block's border between two tiles: top, bottom, left, right. */
  function Border8(b: seq<Byte>, y: nat): (r: seq<Byte>)
    requires |b| == 64 && y < 7
    ensures |r| == 64
  {
    Smooth2(Smooth2(Smooth2(Smooth2(b, y, y + 1), 56 + y, 57 + y), 8 * y, 8 * y + 8), 8 * y + 7, 8 * y + 15)
  }

  /** The inner corners of two tile rows, from left to right. */
  function Corners8(b: seq<Byte>, y: nat, n: nat): (r: seq<Byte>)
    requires |b| == 64 && y < 7 && n <= 3
    ensures |r| == 64
  {
    if n == 0 then b else Corner8(Corners8(b, y, n - 1), y, 2 * n - 1)
  }

  function Round8(b: seq<Byte>, y: nat): (r: seq<Byte>)
    requires |b| == 64 && y < 7
    ensures |r| == 64
  {
    Border8(Corners8(b, y, 3), y)
  }

  function Rounds8(b: seq<Byte>, n: nat): (r: seq<Byte>)
    requires |b| == 64 && n <= 3
    ensures |r| == 64
  {
    if n == 0 then b else Round8(Rounds8(b, n - 1), 2 * n - 1)
  }

  function Smooth8(b: seq<Byte>): (r: seq<Byte>)
    requires |b| == 64
    ensures |r| == 64
  {
    Rounds8(b, 3)
  }

  method SmoothPair(b: array<Byte>, p: nat, q: nat)
    requires p < b.Length && q < b.Length && p != q
    modifies b
    ensures b[..] == Smooth2(old(b[..]), p, q)
  {
    var v0, v1 := b[p], b[q];
    b[p] := Mix2(v0, v1);
    b[q] := Mix2(v1, v0);
  }

  method SmoothCorner(b: array<Byte>, p0: nat, p1: nat, p2: nat, p3: nat)
    requires p0 < b.Length && p1 < b.Length && p2 < b.Length && p3 < b.Length
    requires p0 < p1 && p0 < p3 && p1 != p2 && p2 != p3 && p1 != p3 && p0 != p2
    modifies b
    ensures b[..] == Smooth4(old(b[..]), p0, p1, p2, p3)
  {
    var v0, v1, v2, v3 := b[p0], b[p1], b[p2], b[p3];
    b[p0] := Mix4(v0, v1, v2, v3);
    b[p1] := Mix4(v1, v2, v3, v0);
    b[p2] := Mix4(v2, v3, v0, v1);
    b[p3] := Mix4(v3, v0, v1, v2);
  }

  /** smooth_block_seams_8x8_q4. */
  method SmoothBlock(b: array<Byte>)
    requires b.Length == 64
    modifies b
    ensures b[..] == Smooth8(old(b[..]))
  {
    ghost var was := b[..];
    for n := 0 to 3
      invariant b[..] == Rounds8(was, n)
    {
      SmoothNext(b, was, n);
    }
  }

  method SmoothNext(b: array<Byte>, ghost was: seq<Byte>, n: nat)
    requires b.Length == 64 && |was| == 64 && n < 3 && b[..] == Rounds8(was, n)
    modifies b
    ensures b[..] == Rounds8(was, n + 1)
  {
    SmoothRound(b, 2 * n + 1);
    NextRound(was, n);
  }

  lemma NextRound(b: seq<Byte>, n: nat)
    requires |b| == 64 && n < 3
    ensures Rounds8(b, n + 1) == Round8(Rounds8(b, n), 2 * n + 1)
  {
  }

  method SmoothRound(b: array<Byte>, y: nat)
    requires b.Length == 64 && y < 7
    modifies b
    ensures b[..] == Round8(old(b[..]), y)
  {
    for m := 0 to 3
      invariant b[..] == Corners8(old(b[..]), y, m)
    {
      var o := 8 * y + (2 * m + 1);
      SmoothCorner(b, o, o + 1, o + 9, o + 8);
    }
    SmoothBorder(b, y);
  }

  method SmoothBorder(b: array<Byte>, y: nat)
    requires b.Length == 64 && y < 7
    modifies b
    ensures b[..] == Border8(old(b[..]), y)
  {
    SmoothPair(b, y, y + 1);
    SmoothPair(b, 56 + y, 57 + y);
    SmoothPair(b, 8 * y, 8 * y + 8);
    SmoothPair(b, 8 * y + 7, 8 * y + 15);
  }

  lemma {:induction false} Corners8Hull(b: seq<Byte>, y: nat, n: nat, lo: int, hi: int)
    requires |b| == 64 && y < 7 && n <= 3 && Hull(b, lo, hi)
    ensures Hull(Corners8(b, y, n), lo, hi)
  {
    if n > 0 {
      Corners8Hull(b, y, n - 1, lo, hi);
      var o := 8 * y + (2 * n - 1);
      Smooth4Hull(Corners8(b, y, n - 1), o, o + 1, o + 9, o + 8, lo, hi);
    }
  }

  lemma Border8Hull(b: seq<Byte>, y: nat, lo: int, hi: int)
    requires |b| == 64 && y < 7 && Hull(b, lo, hi)
    ensures Hull(Border8(b, y), lo, hi)
  {
    var c1 := Smooth2(b, y, y + 1);
    var c2 := Smooth2(c1, 56 + y, 57 + y);
    var c3 := Smooth2(c2, 8 * y, 8 * y + 8);
    Smooth2Hull(b, y, y + 1, lo, hi);
    Smooth2Hull(c1, 56 + y, 57 + y, lo, hi);
    Smooth2Hull(c2, 8 * y, 8 * y + 8, lo, hi);
    Smooth2Hull(c3, 8 * y + 7, 8 * y + 15, lo, hi);
  }

  lemma {:induction false} Rounds8Hull(b: seq<Byte>, n: nat, lo: int, hi: int)
    requires |b| == 64 && n <= 3 && Hull(b, lo, hi)
    ensures Hull(Rounds8(b, n), lo, hi)
  {
    if n > 0 {
      Rounds8Hull(b, n - 1, lo, hi);
      Corners8Hull(Rounds8(b, n - 1), 2 * n - 1, 3, lo, hi);
      Border8Hull(Corners8(Rounds8(b, n - 1), 2 * n - 1, 3), 2 * n - 1, lo, hi);
    }
  }

  /** Smoothing invents no level: every pixel stays between the least and the greatest of the
      block, so a flat block is left alone. */
  lemma SmoothingStaysInside(b: seq<Byte>, lo: int, hi: int)
    requires |b| == 64 && Hull(b, lo, hi)
    ensures Hull(Smooth8(b), lo, hi)
  {
    Rounds8Hull(b, 3, lo, hi);
  }

  // ---- Colour ----

  /** The clamp of convert_ycbcr_bgra: shifts and a mask on a 32-bit value, cast to a byte. */
  function Level(v: int): Byte {
    if 0 <= v < 0x100_0000 then v / 0x1_0000 else (-1 - (if v < 0 then -1 else 0)) % 256
  }

  function Blue(yy: Byte, cb: Byte): int { yy as int * 0x10101 + 116130 * (cb as int - 128) }

  function Green(yy: Byte, cb: Byte, cr: Byte): int {
    yy as int * 0x10101 - 22554 * (cb as int - 128) - 46802 * (cr as int - 128)
  }

  function Red(yy: Byte, cr: Byte): int { yy as int * 0x10101 + 91881 * (cr as int - 128) }

  /** None of the three overflows 32 bits, the bit trick is a clamp of the upper part, and grey
      stays exactly grey. */
  lemma ColourIsClamped(yy: Byte, cb: Byte, cr: Byte)
    ensures forall v :: v in {Blue(yy, cb), Green(yy, cb, cr), Red(yy, cr)} ==>
      -0x8000_0000 <= v < 0x8000_0000 && Level(v) == Clamp(v / 0x1_0000, 0, 255)
    ensures cb == 128 && cr == 128 ==>
      Level(Blue(yy, cb)) == yy && Level(Green(yy, cb, cr)) == yy && Level(Red(yy, cr)) == yy
  {
  }
}
