// Little-endian numbers, doubles and strings in a byte vector (the helpers of src/text.cpp).
module ByteCodec {
  import opened Wrappers

  /** The eight bytes of a double; the codec copies them and never looks inside. */
  type F64 = d: Bytes | |d| == 8 witness [0, 0, 0, 0, 0, 0, 0, 0]

  const TWO32: int := 0x1_0000_0000
  const TWO64: int := 0x1_0000_0000_0000_0000

  /** static_cast<std::uint32_t> of any integer. */
  function U32(n: int): (r: nat)
    ensures r < TWO32 && (0 <= n < TWO32 ==> r == n)
  {
    n % TWO32
  }

  /** static_cast<int> of a std::uint32_t. */
  function I32(n: nat): (r: int)
    requires n < TWO32
    ensures -TWO32 / 2 <= r < TWO32 / 2
  {
    if n < TWO32 / 2 then n else n - TWO32
  }

  predicate Int32(n: int) { -TWO32 / 2 <= n < TWO32 / 2 }

  predicate Int64(n: int) { -TWO64 / 2 <= n < TWO64 / 2 }

  lemma IntSurvives(n: int)
    requires Int32(n)
    ensures I32(U32(n)) == n
  {
  }

  function Low(n: int): nat { n % TWO32 }

  function High(n: int): nat { n / TWO32 % TWO32 }

  /** (std::int64_t(hi) << 32) | lo. */
  function Join64(lo: nat, hi: nat): int
    requires lo < TWO32 && hi < TWO32
  {
    var n := hi * TWO32 + lo;
    if n < TWO64 / 2 then n else n - TWO64
  }

  /** A signed 64-bit time stamp survives being split in two halves. */
  lemma TimeSurvives(n: int)
    requires Int64(n)
    ensures Join64(Low(n), High(n)) == n
  {
    var q := n / TWO32;
    assert n == q * TWO32 + Low(n);
    assert -TWO32 / 2 <= q < TWO32 / 2;
  }

  // ---- Writing ----

  function EncU32(v: nat): (r: Bytes)
    requires v < TWO32
    ensures |r| == 4
  {
    [v % 256, v / 256 % 256, v / 65536 % 256, v / 16777216 % 256]
  }

  function EncStr(s: Bytes): Bytes { EncU32(U32(|s|)) + s }

  method AppendU32(out: Bytes, v: nat) returns (r: Bytes)
    requires v < TWO32
    ensures r == out + EncU32(v)
  {
    r := out + [v % 256];
    r := r + [v / 256 % 256];
    r := r + [v / 65536 % 256];
    r := r + [v / 16777216 % 256];
  }

  method AppendStr(out: Bytes, s: Bytes) returns (r: Bytes)
    ensures r == out + EncStr(s)
  {
    r := AppendU32(out, U32(|s|));
    r := r + s;
    Assoc(out, EncU32(U32(|s|)), s);
  }

  lemma Assoc(a: Bytes, b: Bytes, c: Bytes)
    ensures (a + b) + c == a + (b + c)
  {
  }

  // ---- Reading: a cursor that only moves forward and never passes the end ----

  datatype Got<+T> = Fail | Got(value: T, pos: nat)

  function GetByte(b: Bytes, p: nat): (r: Got<Byte>)
    ensures r.Got? ==> r.pos == p + 1 <= |b|
  {
    if p >= |b| then Fail else Got(b[p], p + 1)
  }

  /** The number that some bytes stand for, least significant first. */
  function Number(t: Bytes): (n: nat)
    ensures |t| == 1 ==> n < 0x100
    ensures |t| == 2 ==> n < 0x1_0000
    ensures |t| == 3 ==> n < 0x100_0000
    ensures |t| == 4 ==> n < TWO32
  {
    if t == [] then 0 else t[0] + 256 * Number(t[1..])
  }

  function GetU32(b: Bytes, p: nat): (r: Got<nat>)
    ensures r.Got? ==> r.pos == p + 4 <= |b| && r.value < TWO32
  {
    if |b| - p < 4 then Fail else Got(Number(b[p..p + 4]), p + 4)
  }

  lemma FourBytesOf(a: Byte, c: Byte, d: Byte, e: Byte)
    ensures Number([a, c, d, e]) == Num4(a, c, d, e)
  {
    assert [a, c, d, e][1..] == [c, d, e] && [c, d, e][1..] == [d, e] && [d, e][1..] == [e] && [e][1..] == [];
    assert Number([e]) == e;
    assert Number([d, e]) == d + 256 * Number([e]);
    assert Number([c, d, e]) == c + 256 * Number([d, e]);
  }

  function Num4(a: int, b: int, c: int, d: int): int { a + b * 256 + c * 65536 + d * 16777216 }

  function GetF64(b: Bytes, p: nat): (r: Got<F64>)
    ensures r.Got? ==> r.pos == p + 8 <= |b|
  {
    if |b| - p < 8 then Fail else
      var d: F64 := b[p..p + 8];
      Got(d, p + 8)
  }

  /** The length is compared with what is left, truncated to 32 bits as well. */
  function GetStr(b: Bytes, p: nat): (r: Got<Bytes>)
    ensures r.Got? ==> p + 4 <= r.pos == p + 4 + |r.value| <= |b|
  {
    var n := GetU32(b, p);
    if n.Fail? || n.value > U32(|b| - n.pos) then Fail
    else Got(b[n.pos..n.pos + n.value], n.pos + n.value)
  }

  // ---- Counted lists ----

  type Reader<!T> = (Bytes, nat) -> Got<T>

  /** What a loop still has to deliver, behind what it has. */
  function Behind<T>(got: seq<T>, more: Got<seq<T>>): Got<seq<T>> {
    if more.Fail? then Fail else Got(got + more.value, more.pos)
  }

  /** n elements, one after the other. */
  function GetMany<T>(get: Reader<T>, b: Bytes, p: nat, n: nat): Got<seq<T>>
    decreases n
  {
    if n == 0 then Got([], p)
    else
      var first := get(b, p);
      if first.Fail? then Fail else Behind([first.value], GetMany(get, b, first.pos, n - 1))
  }

  function EncMany<T>(enc: T -> Bytes, xs: seq<T>): Bytes {
    if xs == [] then [] else enc(xs[0]) + EncMany(enc, xs[1..])
  }

  function Each<T>(f: T -> T, xs: seq<T>): (t: seq<T>)
    ensures |t| == |xs| && forall i :: 0 <= i < |xs| ==> t[i] == f(xs[i])
  {
    if xs == [] then [] else [f(xs[0])] + Each(f, xs[1..])
  }

  lemma BehindNothing<T>(more: Got<seq<T>>)
    ensures Behind([], more) == more
  {
    if more.Got? {
      assert [] + more.value == more.value;
    }
  }

  /** One more turn of a reading loop. */
  lemma ManyStep<T>(get: Reader<T>, b: Bytes, got: seq<T>, p: nat, n: nat, x: T, q: nat)
    requires n > 0 && get(b, p) == Got(x, q)
    ensures Behind(got, GetMany(get, b, p, n)) == Behind(got + [x], GetMany(get, b, q, n - 1))
  {
    var more := GetMany(get, b, q, n - 1);
    if more.Got? {
      assert got + ([x] + more.value) == got + [x] + more.value;
    }
  }

  lemma ManyFail<T>(get: Reader<T>, b: Bytes, got: seq<T>, p: nat, n: nat)
    requires n > 0 && get(b, p) == Fail
    ensures Behind(got, GetMany(get, b, p, n)) == Fail
  {
  }

  lemma ManyEnd<T>(get: Reader<T>, b: Bytes, got: seq<T>, p: nat)
    ensures Behind(got, GetMany(get, b, p, 0)) == Got(got, p)
  {
    assert got + [] == got;
  }

  /** One more turn of a writing loop. */
  lemma {:induction false} ManyPush<T>(enc: T -> Bytes, xs: seq<T>, x: T)
    ensures EncMany(enc, xs + [x]) == EncMany(enc, xs) + enc(x)
  {
    if xs == [] {
      assert xs + [x] == [x] && [x][1..] == [];
      assert enc(x) + [] == enc(x) && [] + enc(x) == enc(x);
    } else {
      ManyPush(enc, xs[1..], x);
      assert (xs + [x])[1..] == xs[1..] + [x];
      Assoc(enc(xs[0]), EncMany(enc, xs[1..]), enc(x));
    }
  }

  lemma {:induction false} ManyLength<T>(enc: T -> Bytes, xs: seq<T>)
    requires forall x :: |enc(x)| >= 1
    ensures |EncMany(enc, xs)| >= |xs|
  {
    if xs != [] { ManyLength(enc, xs[1..]); }
  }

  ghost predicate ReadsBack<T>(get: Reader<T>, enc: T -> Bytes, norm: T -> T, b: Bytes, x: T) {
    forall q: nat {:trigger get(b, q)} :: At(b, q, enc(x)) ==> get(b, q) == Got(norm(x), q + |enc(x)|)
  }

  /** If each element reads back, normalised, so does the list. */
  lemma {:induction false} ManyBack<T>(get: Reader<T>, enc: T -> Bytes, norm: T -> T, b: Bytes, p: nat, xs: seq<T>)
    requires forall i :: 0 <= i < |xs| ==> ReadsBack(get, enc, norm, b, xs[i])
    requires At(b, p, EncMany(enc, xs))
    ensures GetMany(get, b, p, |xs|) == Got(Each(norm, xs), p + |EncMany(enc, xs)|)
    decreases |xs|
  {
    if xs != [] {
      AtConcat(b, p, enc(xs[0]), EncMany(enc, xs[1..]));
      assert ReadsBack(get, enc, norm, b, xs[0]);
      assert get(b, p) == Got(norm(xs[0]), p + |enc(xs[0])|);
      ManyBack(get, enc, norm, b, p + |enc(xs[0])|, xs[1..]);
    }
  }

  /** What a reader gets from the front of some bytes it gets from all of them. */
  ghost predicate Extends<T>(get: Reader<T>, b: Bytes, k: nat)
    requires k <= |b|
  {
    forall q: nat {:trigger get(b[..k], q)} :: get(b[..k], q).Got? ==> get(b, q) == get(b[..k], q)
  }

  lemma {:induction false} ManyExtends<T>(get: Reader<T>, b: Bytes, k: nat, p: nat, n: nat)
    requires k <= |b| && Extends(get, b, k)
    ensures GetMany(get, b[..k], p, n).Got? ==> GetMany(get, b, p, n) == GetMany(get, b[..k], p, n)
    decreases n
  {
    if n > 0 && get(b[..k], p).Got? {
      ManyExtends(get, b, k, get(b[..k], p).pos, n - 1);
    }
  }

  ghost predicate Forward<T>(get: Reader<T>, b: Bytes) {
    forall q: nat {:trigger get(b, q)} :: get(b, q).Got? ==> q <= get(b, q).pos <= |b|
  }

  /** The cursor never passes the end, on any input. */
  lemma {:induction false} ManyForward<T>(get: Reader<T>, b: Bytes, p: nat, n: nat)
    requires p <= |b| && Forward(get, b)
    ensures GetMany(get, b, p, n).Got? ==> p <= GetMany(get, b, p, n).pos <= |b|
    decreases n
  {
    if n > 0 && get(b, p).Got? {
      ManyForward(get, b, get(b, p).pos, n - 1);
    }
  }

  /** A front part that says how many elements follow, and those elements. */
  function GetCounted<F, T>(front: Reader<F>, count: F -> nat, get: F -> Reader<T>, b: Bytes, p: nat)
    : Got<(F, seq<T>)>
  {
    var f := front(b, p);
    if f.Fail? then Fail
    else
      var xs := GetMany(get(f.value), b, f.pos, count(f.value));
      if xs.Fail? then Fail else Got((f.value, xs.value), xs.pos)
  }

  lemma CountedBack<F, T>(front: Reader<F>, count: F -> nat, get: F -> Reader<T>, enc: T -> Bytes, norm: T -> T,
                          b: Bytes, p: nat, f: F, q: nat, xs: seq<T>)
    requires front(b, p) == Got(f, q) && count(f) == |xs| && At(b, q, EncMany(enc, xs))
    requires forall i :: 0 <= i < |xs| ==> ReadsBack(get(f), enc, norm, b, xs[i])
    ensures GetCounted(front, count, get, b, p) == Got((f, Each(norm, xs)), q + |EncMany(enc, xs)|)
  {
    ManyBack(get(f), enc, norm, b, q, xs);
  }

  lemma CountedExtends<F, T>(front: Reader<F>, count: F -> nat, get: F -> Reader<T>, b: Bytes, k: nat, p: nat)
    requires k <= |b| && Extends(front, b, k)
    requires front(b[..k], p).Got? ==> Extends(get(front(b[..k], p).value), b, k)
    ensures GetCounted(front, count, get, b[..k], p).Got? ==>
      GetCounted(front, count, get, b, p) == GetCounted(front, count, get, b[..k], p)
  {
    var f := front(b[..k], p);
    if f.Got? {
      ManyExtends(get(f.value), b, k, f.pos, count(f.value));
    }
  }

  lemma CountedForward<F, T>(front: Reader<F>, count: F -> nat, get: F -> Reader<T>, b: Bytes, p: nat)
    requires Forward(front, b) && (front(b, p).Got? ==> Forward(get(front(b, p).value), b))
    ensures var r := GetCounted(front, count, get, b, p); r.Got? ==> r.pos <= |b|
  {
    var f := front(b, p);
    if f.Got? {
      ManyForward(get(f.value), b, f.pos, count(f.value));
    }
  }

  // ---- Reading back what was written ----

  function Nth(t: Bytes, k: nat): Byte
    requires k < |t|
  {
    t[k]
  }

  ghost predicate At(b: Bytes, p: nat, t: Bytes) {
    p + |t| <= |b| && forall k: nat {:trigger Nth(t, k)} :: k < |t| ==> b[p + k] == Nth(t, k)
  }

  lemma AtConcat(b: Bytes, p: nat, x: Bytes, y: Bytes)
    requires At(b, p, x + y)
    ensures At(b, p, x) && At(b, p + |x|, y)
  {
    forall k: nat | k < |x| ensures b[p + k] == Nth(x, k) { assert Nth(x + y, k) == Nth(x, k); }
    forall k: nat | k < |y| ensures b[p + |x| + k] == Nth(y, k) { assert Nth(x + y, |x| + k) == Nth(y, k); }
  }

  lemma AtSlice(b: Bytes, p: nat, t: Bytes)
    requires At(b, p, t)
    ensures b[p..p + |t|] == t
  {
    forall k: nat | k < |t| ensures b[p..p + |t|][k] == t[k] { assert b[p + k] == Nth(t, k); }
  }

  lemma AtWhole(b: Bytes)
    ensures At(b, 0, b)
  {
  }

  /** What stands in the front part of some bytes stands there in all of them, and back. */
  lemma AtFront(b: Bytes, k: nat, p: nat, t: Bytes)
    requires k <= |b| && p + |t| <= k
    ensures At(b[..k], p, t) <==> At(b, p, t)
  {
    if At(b, p, t) {
      forall j: nat | j < |t| ensures b[..k][p + j] == Nth(t, j) { assert b[p + j] == Nth(t, j); }
    }
    if At(b[..k], p, t) {
      forall j: nat | j < |t| ensures b[p + j] == Nth(t, j) { assert b[..k][p + j] == Nth(t, j); }
    }
  }

  lemma AtIndex(b: Bytes, p: nat, t: Bytes, k: nat)
    requires At(b, p, t) && k < |t|
    ensures b[p + k] == t[k]
  {
    assert b[p + k] == Nth(t, k);
  }

  lemma ByteBack(b: Bytes, p: nat, v: Byte)
    requires At(b, p, [v])
    ensures GetByte(b, p) == Got(v, p + 1)
  {
    AtIndex(b, p, [v], 0);
  }

  lemma FourBytes(v: nat)
    requires v < TWO32
    ensures Num4(v % 256, v / 256 % 256, v / 65536 % 256, v / 16777216 % 256) == v
  {
    var a, c, d := v / 256, v / 65536, v / 16777216;
    assert v == a * 256 + v % 256;
    assert a == c * 256 + a % 256;
    assert c == d * 256 + c % 256;
  }

  lemma U32Back(b: Bytes, p: nat, v: nat)
    requires v < TWO32 && At(b, p, EncU32(v))
    ensures GetU32(b, p) == Got(v, p + 4)
  {
    AtSlice(b, p, EncU32(v));
    FourBytesOf(v % 256, v / 256 % 256, v / 65536 % 256, v / 16777216 % 256);
    FourBytes(v);
  }

  lemma F64Back(b: Bytes, p: nat, d: F64)
    requires At(b, p, d)
    ensures GetF64(b, p) == Got(d, p + 8)
  {
    AtSlice(b, p, d);
  }

  /** A string comes back as long as the whole vector is shorter than 2^32 bytes. */
  lemma StrBack(b: Bytes, p: nat, s: Bytes)
    requires |b| < TWO32 && At(b, p, EncStr(s))
    ensures GetStr(b, p) == Got(s, p + 4 + |s|)
  {
    AtConcat(b, p, EncU32(U32(|s|)), s);
    U32Back(b, p, U32(|s|));
    AtSlice(b, p + 4, s);
  }

  // ---- The cursor as the source moves it ----

  method ReadByte(b: Bytes, p: nat) returns (ok: bool, v: Byte, q: nat)
    requires p <= |b|
    ensures p <= q <= |b| && GetByte(b, p) == if ok then Got(v, q) else Fail
  {
    if p >= |b| {
      return false, 0, p;
    }
    return true, b[p], p + 1;
  }

  method ReadU32(b: Bytes, p: nat) returns (ok: bool, v: nat, q: nat)
    requires p <= |b|
    ensures p <= q <= |b| && v < TWO32 && GetU32(b, p) == if ok then Got(v, q) else Fail
  {
    if |b| - p < 4 {
      return false, 0, p;
    }
    v := Num4(b[p], b[p + 1], b[p + 2], b[p + 3]);
    FourBytesOf(b[p], b[p + 1], b[p + 2], b[p + 3]);
    assert b[p..p + 4] == [b[p], b[p + 1], b[p + 2], b[p + 3]];
    return true, v, p + 4;
  }

  method ReadF64(b: Bytes, p: nat) returns (ok: bool, v: F64, q: nat)
    requires p <= |b|
    ensures p <= q <= |b| && GetF64(b, p) == if ok then Got(v, q) else Fail
  {
    v := [0, 0, 0, 0, 0, 0, 0, 0];
    if |b| - p < 8 {
      return false, v, p;
    }
    return true, b[p..p + 8], p + 8;
  }

  method ReadStr(b: Bytes, p: nat) returns (ok: bool, s: Bytes, q: nat)
    requires p <= |b|
    ensures p <= q <= |b| && GetStr(b, p) == if ok then Got(s, q) else Fail
  {
    s := [];
    var n;
    ok, n, q := ReadU32(b, p);
    if !ok {
      return;
    }
    if n > U32(|b| - q) {
      ok := false;
      return;
    }
    s := b[q..q + n];
    q := q + n;
  }
}
