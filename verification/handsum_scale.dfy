// The streaming resampler of the Handsum decoder (external/basic_handsum_decode.c) against the
// exact box filter.
module HandsumScale {
  import opened Wrappers

  // ---- The box filter ----

  function Max(a: int, b: int): int { if a < b then b else a }

  function Min(a: int, b: int): int { if a < b then a else b }

  /** Length of what two intervals have in common. */
  function Overlap(a: int, b: int, c: int, d: int): nat { Max(0, Min(b, d) - Max(a, c)) }

  /** With 16 source pixels of w units each and target pixels of 16 units: how much of source
      pixel k lies in target pixel i. */
  function Weight(w: nat, i: nat, k: nat): nat { Overlap(k * w, k * w + w, 16 * i, 16 * i + 16) }

  /** Weighted sum of the first n source pixels of a line, in target pixel i. */
  function Sum(line: seq<Byte>, w: nat, i: nat, n: nat): nat
    requires n <= |line|
  {
    if n == 0 then 0 else Sum(line, w, i, n - 1) + Weight(w, i, n - 1) * line[n - 1]
  }

  /** The exact box filter, rounded to the nearest integer. */
  function Box(line: seq<Byte>, w: nat, i: nat): nat
    requires |line| == 16
  {
    (Sum(line, w, i, 16) + 8) / 16
  }

  function Weights(w: nat, i: nat, n: nat): nat {
    if n == 0 then 0 else Weights(w, i, n - 1) + Weight(w, i, n - 1)
  }

  lemma {:induction false} WeightsSoFar(w: nat, i: nat, n: nat)
    ensures Weights(w, i, n) == Max(0, Min(16, n * w - 16 * i))
  {
    if n > 0 {
      WeightsSoFar(w, i, n - 1);
      assert n * w == (n - 1) * w + w;
    }
  }

  /** The weights of every target pixel add up to 16. */
  lemma WeightsAreWhole(w: nat, i: nat)
    requires i < w
    ensures Weights(w, i, 16) == 16
  {
    WeightsSoFar(w, i, 16);
  }

  lemma {:induction false} SumBounds(line: seq<Byte>, w: nat, i: nat, n: nat, lo: nat, hi: nat)
    requires n <= |line| && forall k :: 0 <= k < n ==> lo <= line[k] <= hi
    ensures lo * Weights(w, i, n) <= Sum(line, w, i, n) <= hi * Weights(w, i, n)
  {
    if n > 0 {
      SumBounds(line, w, i, n - 1, lo, hi);
      var a, x := Weight(w, i, n - 1), line[n - 1];
      Between(a, lo, x, hi);
      Distribute(lo, Weights(w, i, n - 1), a);
      Distribute(hi, Weights(w, i, n - 1), a);
    }
  }

  lemma Between(a: nat, lo: int, x: int, hi: int)
    requires lo <= x <= hi
    ensures lo * a <= a * x <= hi * a
  {
  }

  lemma Distribute(c: int, a: int, b: int)
    ensures c * (a + b) == c * a + c * b
  {
  }

  /** A filtered pixel lies between the least and the greatest source pixel; so it is a byte,
      and a constant line stays constant. */
  lemma BoxBounds(line: seq<Byte>, w: nat, i: nat, lo: nat, hi: nat)
    requires |line| == 16 && i < w && forall k :: 0 <= k < 16 ==> lo <= line[k] <= hi
    ensures lo <= Box(line, w, i) <= hi
  {
    SumBounds(line, w, i, 16, lo, hi);
    WeightsAreWhole(w, i);
  }

  // ---- What the accumulator has seen ----

  lemma {:induction false} NotYet(line: seq<Byte>, w: nat, i: nat, n: nat)
    requires n <= |line| && n * w <= 16 * i
    ensures Sum(line, w, i, n) == 0
  {
    if n > 0 {
      assert n * w == (n - 1) * w + w;
      NotYet(line, w, i, n - 1);
    }
  }

  lemma {:induction false} Complete(line: seq<Byte>, w: nat, i: nat, n: nat, m: nat)
    requires n <= m <= |line| && n * w >= 16 * i + 16
    ensures Sum(line, w, i, m) == Sum(line, w, i, n)
  {
    if n < m {
      Monotone(n, m - 1, w);
      Complete(line, w, i, n, m - 1);
    }
  }

  lemma Monotone(n: nat, m: nat, w: nat)
    requires n <= m
    ensures n * w <= m * w
  {
  }

  /** One source pixel: it lies in the current target pixel, or is split at its end. */
  lemma OnePixel(line: seq<Byte>, w: nat, i: nat, n: nat)
    requires n < |line| && 0 < w < 16 && 16 * i <= n * w < 16 * i + 16
    ensures (n + 1) * w == n * w + w
    ensures var r := 16 * i + 16 - n * w;
      && (r > w ==> Sum(line, w, i, n + 1) == Sum(line, w, i, n) + w * line[n])
      && (r <= w ==> Sum(line, w, i, n + 1) == Sum(line, w, i, n) + r * line[n]
                     && Sum(line, w, i + 1, n + 1) == (w - r) * line[n])
  {
    assert (n + 1) * w == n * w + w;
    NotYet(line, w, i + 1, n);
  }

  // ---- The inner loop, for the four channels of a line at once ----

  /** Channel c of 16 BGRA pixels. */
  function Channel(row: seq<Byte>, c: nat): (line: seq<Byte>)
    requires |row| == 64 && c < 4
    ensures |line| == 16 && forall k :: 0 <= k < 16 ==> line[k] == row[4 * k + c]
  {
    seq(16, k requires 0 <= k < 16 => row[4 * k + c])
  }

  ghost predicate Scaled(row: seq<Byte>, w: nat, dst: seq<Byte>, n: nat)
    requires |row| == 64
  {
    |dst| == 4 * n && forall i, c :: 0 <= i < n && 0 <= c < 4 ==> dst[4 * i + c] == Box(Channel(row, c), w, i)
  }

  /** Four products added to four accumulators. */
  function Add(acc: seq<nat>, f: nat, row: seq<Byte>, k: nat): (r: seq<nat>)
    requires |acc| == 4 && |row| == 64 && k < 16
    ensures |r| == 4 && forall c :: 0 <= c < 4 ==> r[c] == acc[c] + f * row[4 * k + c]
  {
    [acc[0] + f * row[4 * k], acc[1] + f * row[4 * k + 1], acc[2] + f * row[4 * k + 2], acc[3] + f * row[4 * k + 3]]
  }

  ghost predicate Accumulated(row: seq<Byte>, w: nat, acc: seq<nat>, i: nat, n: nat)
    requires |row| == 64 && n <= 16
  {
    |acc| == 4 && forall c :: 0 <= c < 4 ==> acc[c] == Sum(Channel(row, c), w, i, n)
  }

  lemma Accumulate(row: seq<Byte>, w: nat, acc: seq<nat>, i: nat, n: nat)
    requires |row| == 64 && n < 16 && Accumulated(row, w, acc, i, n)
    requires 0 < w < 16 && 16 * i <= n * w < 16 * i + 16
    ensures (n + 1) * w == n * w + w
    ensures var r := 16 * i + 16 - n * w;
      && (r > w ==> Accumulated(row, w, Add(acc, w, row, n), i, n + 1))
      && (r <= w ==> Accumulated(row, w, Add(acc, r, row, n), i, n + 1)
                     && Accumulated(row, w, Add([0, 0, 0, 0], w - r, row, n), i + 1, n + 1))
  {
    forall c | 0 <= c < 4
      ensures var r := 16 * i + 16 - n * w;
        && (r > w ==> Add(acc, w, row, n)[c] == Sum(Channel(row, c), w, i, n + 1))
        && (r <= w ==> Add(acc, r, row, n)[c] == Sum(Channel(row, c), w, i, n + 1)
                       && Add([0, 0, 0, 0], w - r, row, n)[c] == Sum(Channel(row, c), w, i + 1, n + 1))
    {
      OnePixel(Channel(row, c), w, i, n);
    }
    assert (n + 1) * w == n * w + w;
  }

  lemma IsBox(row: seq<Byte>, w: nat, acc: seq<nat>, i: nat, n: nat)
    requires |row| == 64 && n <= 16 && Accumulated(row, w, acc, i, n) && n * w >= 16 * i + 16 && i < w
    ensures forall c :: 0 <= c < 4 ==> (acc[c] + 8) / 16 == Box(Channel(row, c), w, i) && (acc[c] + 8) / 16 < 256
  {
    forall c | 0 <= c < 4 ensures (acc[c] + 8) / 16 == Box(Channel(row, c), w, i) && (acc[c] + 8) / 16 < 256 {
      Complete(Channel(row, c), w, i, n, 16);
      BoxBounds(Channel(row, c), w, i, 0, 255);
    }
  }

  lemma BelowWidth(n: nat, w: nat, i: nat)
    requires n <= 16 && n * w >= 16 * i + 16 && 0 < w
    ensures i < w
  {
    Monotone(n, 16, w);
  }

  method Emit(acc: seq<nat>) returns (px: seq<Byte>)
    requires |acc| == 4 && forall c :: 0 <= c < 4 ==> (acc[c] + 8) / 16 < 256
    ensures |px| == 4 && forall c :: 0 <= c < 4 ==> px[c] == (acc[c] + 8) / 16
  {
    px := [(acc[0] + 8) / 16, (acc[1] + 8) / 16, (acc[2] + 8) / 16, (acc[3] + 8) / 16];
  }

  /** The loop variables before source pixel n: i pixels are out, the accumulators hold what
      pixel i has got so far, and `remainder` is what it still lacks. */
  ghost predicate Scaling(row: seq<Byte>, w: nat, n: nat, i: nat, acc: seq<nat>, remainder: int, dst: seq<Byte>)
    requires |row| == 64
  {
    && n <= 16 && 16 * i <= n * w < 16 * i + 16 && remainder == 16 * i + 16 - n * w
    && Accumulated(row, w, acc, i, n) && Scaled(row, w, dst, i)
  }

  lemma ScalingStarts(row: seq<Byte>, w: nat)
    requires |row| == 64
    ensures Scaling(row, w, 0, 0, [0, 0, 0, 0], 16, [])
  {
  }

  /** The loop over one line of scale_horizontal, or one column of scale_vertical: exactly w
      pixels come out, each the exact box filter of its channel. */
  method ScaleLine(row: seq<Byte>, w: nat) returns (dst: seq<Byte>)
    requires |row| == 64 && 0 < w < 16
    ensures Scaled(row, w, dst, w)
  {
    dst := [];
    var dstx := 0;
    var acc: seq<nat> := [0, 0, 0, 0];
    var remainder := 16;
    ScalingStarts(row, w);
    for srcx := 0 to 16
      invariant Scaling(row, w, srcx, dstx, acc, remainder, dst)
    {
      dstx, acc, remainder, dst := ScaleNext(row, w, srcx, dstx, acc, remainder, dst);
    }
    ScalingEnds(row, w, dstx, acc, remainder, dst);
  }

  lemma ScalingEnds(row: seq<Byte>, w: nat, i: nat, acc: seq<nat>, remainder: int, dst: seq<Byte>)
    requires |row| == 64 && Scaling(row, w, 16, i, acc, remainder, dst)
    ensures Scaled(row, w, dst, w)
  {
  }

  /** Source pixel n: all of it goes to pixel i, or it is shared with the next one. */
  method ScaleNext(row: seq<Byte>, w: nat, n: nat, i: nat, acc: seq<nat>, remainder: int, dst: seq<Byte>)
    returns (i': nat, acc': seq<nat>, remainder': int, dst': seq<Byte>)
    requires |row| == 64 && n < 16 && 0 < w < 16 && Scaling(row, w, n, i, acc, remainder, dst)
    ensures Scaling(row, w, n + 1, i', acc', remainder', dst')
  {
    if remainder > w {
      WithinPixel(row, w, n, i, acc, remainder, dst);
      remainder' := remainder - w;
      acc' := Add(acc, w, row, n);
      i', dst' := i, dst;
    } else {
      IntoNextPixel(row, w, n, i, acc, remainder, dst);
      acc' := Add(acc, remainder, row, n);
      dst' := PushPixel(row, w, acc', dst, i, n + 1);
      i' := i + 1;
      var partial := w - remainder;
      acc' := Add([0, 0, 0, 0], partial, row, n);
      remainder' := 16 - partial;
    }
  }

  lemma WithinPixel(row: seq<Byte>, w: nat, n: nat, i: nat, acc: seq<nat>, remainder: int, dst: seq<Byte>)
    requires |row| == 64 && n < 16 && 0 < w < 16 && remainder > w && Scaling(row, w, n, i, acc, remainder, dst)
    ensures Scaling(row, w, n + 1, i, Add(acc, w, row, n), remainder - w, dst)
  {
    Accumulate(row, w, acc, i, n);
  }

  lemma IntoNextPixel(row: seq<Byte>, w: nat, n: nat, i: nat, acc: seq<nat>, remainder: int, dst: seq<Byte>)
    requires |row| == 64 && n < 16 && 0 < w < 16 && remainder <= w && Scaling(row, w, n, i, acc, remainder, dst)
    ensures remainder >= 0 && (n + 1) * w >= 16 * i + 16 && Accumulated(row, w, Add(acc, remainder, row, n), i, n + 1)
    ensures 16 * (i + 1) <= (n + 1) * w < 16 * (i + 1) + 16 && 16 - (w - remainder) == 16 * (i + 1) + 16 - (n + 1) * w
    ensures Accumulated(row, w, Add([0, 0, 0, 0], w - remainder, row, n), i + 1, n + 1)
  {
    Accumulate(row, w, acc, i, n);
  }

  /** The next pixel, once its window is full. */
  method PushPixel(row: seq<Byte>, w: nat, acc: seq<nat>, dst: seq<Byte>, i: nat, n: nat) returns (r: seq<Byte>)
    requires |row| == 64 && 0 < w < 16 && n <= 16 && n * w >= 16 * i + 16
    requires Accumulated(row, w, acc, i, n) && Scaled(row, w, dst, i)
    ensures Scaled(row, w, r, i + 1)
  {
    BelowWidth(n, w, i);
    IsBox(row, w, acc, i, n);
    var px := Emit(acc);
    ScaledPush(row, w, dst, i, px);
    r := dst + px;
  }

  lemma ScaledPush(row: seq<Byte>, w: nat, dst: seq<Byte>, n: nat, px: seq<Byte>)
    requires |row| == 64 && Scaled(row, w, dst, n) && |px| == 4
    requires forall c :: 0 <= c < 4 ==> px[c] == Box(Channel(row, c), w, n)
    ensures Scaled(row, w, dst + px, n + 1)
  {
    forall i, c | 0 <= i < n + 1 && 0 <= c < 4 ensures (dst + px)[4 * i + c] == Box(Channel(row, c), w, i) {
      if i == n { assert (dst + px)[4 * n + c] == px[c]; }
    }
  }

  // ---- The two directions, in place ----

  /** Line y of a 16 by 16 picture. */
  function Row(pix: seq<Byte>, y: nat): (r: seq<Byte>)
    requires |pix| == 1024 && y < 16
    ensures |r| == 64
  {
    pix[64 * y..64 * y + 64]
  }

  /** Column x of a 16 by 16 picture. */
  function Column(pix: seq<Byte>, x: nat): (r: seq<Byte>)
    requires |pix| == 1024 && x < 16
    ensures |r| == 64
  {
    seq(64, j requires 0 <= j < 64 => pix[64 * (j / 4) + 4 * x + j % 4])
  }

  /** All lines scaled, one after the other without gaps. */
  ghost predicate ScaledRows(was: seq<Byte>, w: nat, now: seq<Byte>, n: nat)
    requires |was| == 1024 && n <= 16
  {
    |now| == 4 * w * n && forall y :: 0 <= y < n ==>
      4 * w * y + 4 * w <= |now| && Scaled(Row(was, y), w, now[4 * w * y..4 * w * y + 4 * w], w)
  }

  /** scale_horizontal: the lines of the narrower picture end up at the front of the buffer,
      the rest of the buffer keeps what it had. */
  method ScaleHorizontal(pix: array<Byte>, w: nat)
    requires pix.Length == 1024 && 0 < w < 16
    modifies pix
    ensures ScaledRows(old(pix[..]), w, pix[..64 * w], 16)
    ensures pix[64 * w..] == old(pix[64 * w..])
  {
    var dst: seq<Byte> := [];
    for y := 0 to 16
      invariant ScaledRows(pix[..], w, dst, y) && pix[..] == old(pix[..])
    {
      var line := ScaleLine(Row(pix[..], y), w);
      RowsPush(pix[..], w, dst, y, line);
      dst := dst + line;
    }
    CopyFront(pix, dst);
  }

  lemma RowsPush(was: seq<Byte>, w: nat, now: seq<Byte>, n: nat, line: seq<Byte>)
    requires |was| == 1024 && n < 16 && ScaledRows(was, w, now, n) && Scaled(Row(was, n), w, line, w)
    ensures ScaledRows(was, w, now + line, n + 1)
  {
    var all := now + line;
    assert |all| == 4 * w * (n + 1);
    forall y | 0 <= y < n + 1
      ensures 4 * w * y + 4 * w <= |all| && Scaled(Row(was, y), w, all[4 * w * y..4 * w * y + 4 * w], w)
    {
      if y == n {
        assert all[4 * w * n..4 * w * n + 4 * w] == line;
      } else {
        assert all[4 * w * y..4 * w * y + 4 * w] == now[4 * w * y..4 * w * y + 4 * w];
      }
    }
  }

  /** The memcpy back. */
  method CopyFront(pix: array<Byte>, dst: seq<Byte>)
    requires |dst| <= pix.Length
    modifies pix
    ensures pix[..|dst|] == dst && pix[|dst|..] == old(pix[|dst|..])
  {
    for k := 0 to |dst|
      invariant pix[..k] == dst[..k] && pix[|dst|..] == old(pix[|dst|..])
    {
      pix[k] := dst[k];
      assert pix[..k + 1] == pix[..k] + [dst[k]];
    }
    assert dst[..|dst|] == dst;
  }

  /** Channel c of pixel (x, y) in a buffer with 16 pixels a line. */
  function Px(pix: seq<Byte>, x: nat, y: nat, c: nat): Byte
    requires x < 16 && c < 4 && 64 * y + 64 <= |pix|
  {
    pix[64 * y + 4 * x + c]
  }

  ghost predicate ScaledColumns(was: seq<Byte>, h: nat, now: seq<Byte>, n: nat)
    requires |was| == 1024 && n <= 16 && 64 * h <= |now|
  {
    forall x: nat, y: nat, c: nat {:trigger Px(now, x, y, c)} :: x < n && y < h && c < 4 ==>
      Px(now, x, y, c) == Box(Channel(Column(was, x), c), h, y)
  }

  function Spliced(pix: seq<Byte>, d: nat, px: seq<Byte>): (r: seq<Byte>)
    requires d + |px| <= |pix|
    ensures |r| == |pix|
  {
    pix[..d] + px + pix[d + |px|..]
  }

  lemma SplicedPx(pix: seq<Byte>, x: nat, y: nat, px: seq<Byte>, x': nat, y': nat, c: nat)
    requires |pix| == 1024 && |px| == 4 && x < 16 && y < 16 && x' < 16 && y' < 16 && c < 4
    ensures var r := Spliced(pix, 64 * y + 4 * x, px);
      Px(r, x', y', c) == if x == x' && y == y' then px[c] else Px(pix, x', y', c)
  {
  }

  method PutPixel(dst: array<Byte>, d: nat, px: seq<Byte>)
    requires d + 4 <= dst.Length && |px| == 4
    modifies dst
    ensures dst[..] == Spliced(old(dst[..]), d, px)
  {
    dst[d] := px[0];
    dst[d + 1] := px[1];
    dst[d + 2] := px[2];
    dst[d + 3] := px[3];
    assert dst[d..d + 4] == px;
    assert dst[..] == dst[..d] + dst[d..d + 4] + dst[d + 4..];
  }

  /** Columns before x are done, column x up to line j. */
  ghost predicate ColumnUpTo(was: seq<Byte>, now: seq<Byte>, x: nat, column: seq<Byte>, j: nat)
    requires |was| == 1024 && |now| == 1024 && x < 16 && j <= 16 && 4 * j <= |column|
  {
    forall x': nat, y: nat, c: nat {:trigger Px(now, x', y, c)} :: x' < 16 && y < 16 && c < 4 ==>
      Px(now, x', y, c) == if x' == x && y < j then column[4 * y + c] else Px(was, x', y, c)
  }

  lemma ColumnStep(was: seq<Byte>, now: seq<Byte>, x: nat, column: seq<Byte>, j: nat)
    requires |was| == 1024 && |now| == 1024 && x < 16 && j < 16 && 4 * j + 4 <= |column|
    requires ColumnUpTo(was, now, x, column, j)
    ensures ColumnUpTo(was, Spliced(now, 64 * j + 4 * x, column[4 * j..4 * j + 4]), x, column, j + 1)
  {
    var r := Spliced(now, 64 * j + 4 * x, column[4 * j..4 * j + 4]);
    forall x': nat, y: nat, c: nat | x' < 16 && y < 16 && c < 4
      ensures Px(r, x', y, c) == if x' == x && y < j + 1 then column[4 * y + c] else Px(was, x', y, c)
    {
      SplicedPx(now, x, j, column[4 * j..4 * j + 4], x', y, c);
      assert Px(now, x', y, c) == if x' == x && y < j then column[4 * y + c] else Px(was, x', y, c);
    }
  }

  /** Writes a scaled column into its place. */
  method PutColumn(dst: array<Byte>, x: nat, h: nat, column: seq<Byte>)
    requires dst.Length == 1024 && x < 16 && h <= 16 && |column| == 4 * h
    modifies dst
    ensures ColumnUpTo(old(dst[..]), dst[..], x, column, h)
  {
    for j := 0 to h
      invariant ColumnUpTo(old(dst[..]), dst[..], x, column, j)
    {
      ColumnStep(old(dst[..]), dst[..], x, column, j);
      PutPixel(dst, 64 * j + 4 * x, column[4 * j..4 * j + 4]);
    }
  }

  lemma ColumnsStep(was: seq<Byte>, h: nat, before: seq<Byte>, now: seq<Byte>, x: nat, column: seq<Byte>)
    requires |was| == 1024 && |before| == 1024 && |now| == 1024 && x < 16 && h < 16
    requires Scaled(Column(was, x), h, column, h) && ScaledColumns(was, h, before, x)
    requires ColumnUpTo(before, now, x, column, h)
    ensures ScaledColumns(was, h, now, x + 1)
  {
    forall x': nat, y: nat, c: nat | x' < x + 1 && y < h && c < 4
      ensures Px(now, x', y, c) == Box(Channel(Column(was, x'), c), h, y)
    {
      assert Px(now, x', y, c) == if x' == x then column[4 * y + c] else Px(before, x', y, c);
    }
  }

  lemma FrontColumns(was: seq<Byte>, h: nat, all: seq<Byte>)
    requires |was| == 1024 && |all| == 1024 && h < 16 && ScaledColumns(was, h, all, 16)
    ensures ScaledColumns(was, h, all[..64 * h], 16)
  {
    forall x: nat, y: nat, c: nat | x < 16 && y < h && c < 4
      ensures Px(all[..64 * h], x, y, c) == Box(Channel(Column(was, x), c), h, y)
    {
      assert Px(all, x, y, c) == Px(all[..64 * h], x, y, c);
    }
  }

  /** scale_vertical: the first h lines of the buffer hold the flatter picture. */
  method ScaleVertical(pix: array<Byte>, h: nat)
    requires pix.Length == 1024 && 0 < h < 16
    modifies pix
    ensures ScaledColumns(old(pix[..]), h, pix[..64 * h], 16)
    ensures pix[64 * h..] == old(pix[64 * h..])
  {
    var dst := new Byte[1024](i => 0);
    for x := 0 to 16
      invariant pix[..] == old(pix[..]) && fresh(dst)
      invariant ScaledColumns(pix[..], h, dst[..], x)
    {
      var column := ScaleLine(Column(pix[..], x), h);
      ghost var before := dst[..];
      PutColumn(dst, x, h, column);
      ColumnsStep(pix[..], h, before, dst[..], x, column);
    }
    FrontColumns(pix[..], h, dst[..]);
    CopyFront(pix, dst[..64 * h]);
  }
}
