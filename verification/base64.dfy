// Base64 of the remote protocol (src/remote_protocol.cpp; section 4 of RFC 4648).
module Base64 {
  import opened Wrappers

  type Sextet = v: int | 0 <= v < 64 witness 0

  function Letter(v: Sextet): char {
    if v < 26 then ('A' as int + v) as char
    else if v < 52 then ('a' as int + v - 26) as char
    else if v < 62 then ('0' as int + v - 52) as char
    else if v == 62 then '+' else '/'
  }

  /** The reverse table; -1 outside the alphabet. */
  function Rev(c: char): (v: int)
    ensures -1 <= v < 64
    ensures v >= 0 ==> Letter(v) == c
  {
    if 'A' <= c <= 'Z' then c as int - 'A' as int
    else if 'a' <= c <= 'z' then c as int - 'a' as int + 26
    else if '0' <= c <= '9' then c as int - '0' as int + 52
    else if c == '+' then 62 else if c == '/' then 63 else -1
  }

  lemma RevOfLetter(v: Sextet)
    ensures Rev(Letter(v)) == v && Letter(v) != '='
  {
  }

  predicate InAlphabet(s: string) { forall k :: 0 <= k < |s| ==> Rev(s[k]) >= 0 }

  // ---- The numbers that byte strings and digit strings stand for ----

  function BytesNum(d: seq<Byte>): nat {
    if d == [] then 0 else BytesNum(d[..|d| - 1]) * 256 + d[|d| - 1]
  }

  function DigitsNum(s: string): nat
    requires InAlphabet(s)
  {
    if s == "" then 0 else DigitsNum(s[..|s| - 1]) * 64 + Rev(s[|s| - 1])
  }

  lemma {:induction false} BytesInjective(a: seq<Byte>, b: seq<Byte>)
    requires |a| == |b| && BytesNum(a) == BytesNum(b)
    ensures a == b
  {
    if a != [] {
      var n := |a| - 1;
      assert BytesNum(a[..n]) * 256 + a[n] == BytesNum(b[..n]) * 256 + b[n];
      BytesInjective(a[..n], b[..n]);
      assert a == a[..n] + [a[n]] && b == b[..n] + [b[n]];
    }
  }

  lemma BytesPush(d: seq<Byte>, b: Byte)
    ensures BytesNum(d + [b]) == BytesNum(d) * 256 + b
  {
    assert (d + [b])[..|d|] == d;
  }

  lemma DigitsPush(s: string, v: Sextet)
    requires InAlphabet(s)
    ensures InAlphabet(s + [Letter(v)]) && DigitsNum(s + [Letter(v)]) == DigitsNum(s) * 64 + v
  {
    RevOfLetter(v);
    assert (s + [Letter(v)])[..|s|] == s;
  }

  /** Bits that k digits hold beyond whole bytes. */
  function Spare(k: nat): (bits: nat)
    ensures bits in {0, 2, 4, 6} && bits == 6 * k - 8 * (6 * k / 8)
  {
    SixEighths(k / 4, k % 4);
    if k % 4 == 0 then 0 else if k % 4 == 1 then 6 else if k % 4 == 2 then 4 else 2
  }

  lemma SixEighths(q: nat, r: nat)
    requires r < 4
    ensures 6 * (4 * q + r) / 8 == 3 * q + 6 * r / 8
  {
    assert 6 * (4 * q + r) == 8 * (3 * q) + 6 * r;
  }

  /** One more digit: a byte is complete unless no bit was left over. */
  lemma SpareStep(k: nat)
    ensures Spare(k + 1) == (if Spare(k) == 0 then 6 else Spare(k) - 2)
    ensures 6 * (k + 1) / 8 == 6 * k / 8 + (if Spare(k) == 0 then 0 else 1)
  {
    var q, r := k / 4, k % 4;
    assert k == 4 * q + r;
    SixEighths(q, r);
    if r == 3 {
      assert k + 1 == 4 * (q + 1);
      SixEighths(q + 1, 0);
    } else {
      assert k + 1 == 4 * q + (r + 1);
      SixEighths(q, r + 1);
    }
  }

  function DigitCount(n: nat): nat { 4 * (n / 3) + if n % 3 == 0 then 0 else n % 3 + 1 }

  /** A number shifted down, or up, by 0, 2, 4 or 6 bits. */
  function Down(n: nat, bits: nat): nat {
    if bits == 0 then n else if bits == 2 then n / 4 else if bits == 4 then n / 16 else n / 64
  }

  function Up(n: nat, bits: nat): nat {
    if bits == 0 then n else if bits == 2 then n * 4 else if bits == 4 then n * 16 else n * 64
  }

  // ---- Encoding ----

  /** Unpadded digits of some bytes: as few as hold all bits, the missing low bits zero. */
  ghost predicate Digits(d: seq<Byte>, s: string) {
    |s| == DigitCount(|d|) && InAlphabet(s) && DigitsNum(s) == Up(BytesNum(d), Spare(|s|))
  }

  function Padding(n: nat): string { if n % 3 == 0 then "" else if n % 3 == 1 then "==" else "=" }

  function Word(a: Byte, b: Byte, c: Byte): (v: nat)
    ensures v < 16777216
  {
    var x: int, y: int, z: int := a, b, c;
    x * 65536 + y * 256 + z
  }

  /** The four digits of a word. */
  function Sextet0(v: nat): Sextet { v / 262144 % 64 }
  function Sextet1(v: nat): Sextet { v / 4096 % 64 }
  function Sextet2(v: nat): Sextet { v / 64 % 64 }
  function Sextet3(v: nat): Sextet { v % 64 }

  lemma WordSplits(v: nat)
    requires v < 16777216
    ensures v == Join4(Sextet0(v), Sextet1(v), Sextet2(v), Sextet3(v))
  {
    var a, b, c := v / 64, v / 4096, v / 262144;
    assert b == a / 64 && c == b / 64;
    assert v == a * 64 + v % 64;
    assert a == b * 64 + a % 64;
    assert b == c * 64 + b % 64;
  }

  function Join4(p: int, q: int, r: int, u: int): int { p * 262144 + q * 4096 + r * 64 + u }

  function Put(s: string, v: Sextet): string { s + [Letter(v)] }

  lemma FourDigits(s: string, p: Sextet, q: Sextet, r: Sextet, u: Sextet)
    requires InAlphabet(s)
    ensures var t := Put(Put(Put(Put(s, p), q), r), u);
      InAlphabet(t) && |t| == |s| + 4 && DigitsNum(t) == DigitsNum(s) * 16777216 + Join4(p, q, r, u)
  {
    DigitsPush(s, p);
    DigitsPush(Put(s, p), q);
    DigitsPush(Put(Put(s, p), q), r);
    DigitsPush(Put(Put(Put(s, p), q), r), u);
  }

  lemma ThreeBytes(d: seq<Byte>, i: nat)
    requires i + 2 < |d|
    ensures BytesNum(d[..i + 3]) == BytesNum(d[..i]) * 16777216 + Word(d[i], d[i + 1], d[i + 2])
  {
    assert d[..i + 1] == d[..i] + [d[i]] && d[..i + 2] == d[..i + 1] + [d[i + 1]]
      && d[..i + 3] == d[..i + 2] + [d[i + 2]];
    BytesPush(d[..i], d[i]);
    BytesPush(d[..i + 1], d[i + 1]);
    BytesPush(d[..i + 2], d[i + 2]);
  }

  lemma OneRound(d: seq<Byte>, i: nat, s: string)
    requires i + 2 < |d| && InAlphabet(s) && DigitsNum(s) == BytesNum(d[..i])
    ensures var v := Word(d[i], d[i + 1], d[i + 2]);
      var t := Put(Put(Put(Put(s, Sextet0(v)), Sextet1(v)), Sextet2(v)), Sextet3(v));
      InAlphabet(t) && |t| == |s| + 4 && DigitsNum(t) == BytesNum(d[..i + 3])
  {
    var v := Word(d[i], d[i + 1], d[i + 2]);
    FourDigits(s, Sextet0(v), Sextet1(v), Sextet2(v), Sextet3(v));
    WordSplits(v);
    ThreeBytes(d, i);
  }

  /** Three bytes become four digits. */
  method EncodeGroup(data: seq<Byte>, i: nat, s: string) returns (out: string)
    requires i + 2 < |data| && InAlphabet(s) && DigitsNum(s) == BytesNum(data[..i])
    ensures InAlphabet(out) && |out| == |s| + 4 && DigitsNum(out) == BytesNum(data[..i + 3])
  {
    OneRound(data, i, s);
    var v := Word(data[i], data[i + 1], data[i + 2]);
    out := Put(Put(Put(Put(s, Sextet0(v)), Sextet1(v)), Sextet2(v)), Sextet3(v));
  }

  /** The loop of base64_encode over whole groups of three bytes. */
  method EncodeGroups(data: seq<Byte>) returns (out: string, i: nat)
    ensures i == 3 * (|data| / 3) && |out| == 4 * (|data| / 3)
    ensures InAlphabet(out) && DigitsNum(out) == BytesNum(data[..i])
  {
    out, i := "", 0;
    ghost var groups := 0;
    while i + 2 < |data|
      invariant i == 3 * groups && i <= |data| && |out| == 4 * groups
      invariant InAlphabet(out) && DigitsNum(out) == BytesNum(data[..i])
    {
      out := EncodeGroup(data, i, out);
      i := i + 3;
      groups := groups + 1;
    }
  }

  /** One byte is left: two digits and "==". */
  method FinishOne(data: seq<Byte>, s: string) returns (out: string, ghost t: string)
    requires |data| % 3 == 1 && |s| == 4 * (|data| / 3) && InAlphabet(s) && DigitsNum(s) == BytesNum(data[..|data| - 1])
    ensures Digits(data, t) && out == t + "==" && |out| == |s| + 4
  {
    var v := Word(data[|data| - 1], 0, 0);
    t := LastOne(data, s);
    out := Put(s, Sextet0(v));
    out := Put(out, Sextet1(v));
    out := out + "==";
  }

  /** Two bytes are left: three digits and "=". */
  method FinishTwo(data: seq<Byte>, s: string) returns (out: string, ghost t: string)
    requires |data| % 3 == 2 && |s| == 4 * (|data| / 3) && InAlphabet(s) && DigitsNum(s) == BytesNum(data[..|data| - 2])
    ensures Digits(data, t) && out == t + "=" && |out| == |s| + 4
  {
    var v := Word(data[|data| - 2], data[|data| - 1], 0);
    t := LastTwo(data, s);
    out := Put(s, Sextet0(v));
    out := Put(out, Sextet1(v));
    out := Put(out, Sextet2(v));
    out := out + "=";
  }

  /** base64_encode: the digits of the data, padded to a multiple of four. */
  method Encode(data: seq<Byte>) returns (out: string)
    ensures |out| == 4 * ((|data| + 2) / 3)
    ensures exists s :: Digits(data, s) && out == s + Padding(|data|)
  {
    var i;
    out, i := EncodeGroups(data);
    ghost var s := out;
    if i + 1 == |data| {
      out, s := FinishOne(data, out);
    } else if i + 2 == |data| {
      out, s := FinishTwo(data, out);
    } else {
      assert data[..i] == data && out == out + "";
    }
    assert Digits(data, s) && out == s + Padding(|data|);
  }

  lemma TwoDigits(s: string, p: Sextet, q: Sextet)
    requires InAlphabet(s)
    ensures var t := Put(Put(s, p), q);
      InAlphabet(t) && |t| == |s| + 2 && DigitsNum(t) == DigitsNum(s) * 4096 + (p * 64 + q)
  {
    DigitsPush(s, p);
    DigitsPush(Put(s, p), q);
  }

  lemma LastOne(data: seq<Byte>, s: string) returns (t: string)
    requires |data| % 3 == 1 && |s| == 4 * (|data| / 3) && InAlphabet(s) && DigitsNum(s) == BytesNum(data[..|data| - 1])
    ensures var v := Word(data[|data| - 1], 0, 0);
      t == Put(Put(s, Sextet0(v)), Sextet1(v)) && Digits(data, t)
  {
    var v := Word(data[|data| - 1], 0, 0);
    t := Put(Put(s, Sextet0(v)), Sextet1(v));
    TwoDigits(s, Sextet0(v), Sextet1(v));
    OneByteBits(data[|data| - 1]);
    assert Spare(|t|) == 4;
  }

  lemma OneByteBits(a: int)
    requires 0 <= a < 256
    ensures Sextet0(a * 65536) * 64 + Sextet1(a * 65536) == a * 16
  {
    assert a * 65536 / 262144 == a / 4 && a * 65536 / 4096 == a * 16;
  }

  lemma TwoByteBits(w: int)
    requires 0 <= w < 65536
    ensures Sextet0(w * 256) * 4096 + Sextet1(w * 256) * 64 + Sextet2(w * 256) == w * 4
  {
    WordSplits(w * 256);
    LowZero(w * 4);
  }

  lemma LowZero(k: int)
    ensures 64 * k % 64 == 0
  {
  }

  lemma ThreeDigits(s: string, p: Sextet, q: Sextet, r: Sextet)
    requires InAlphabet(s)
    ensures var t := Put(Put(Put(s, p), q), r);
      InAlphabet(t) && |t| == |s| + 3 && DigitsNum(t) == DigitsNum(s) * 262144 + (p * 4096 + q * 64 + r)
  {
    DigitsPush(s, p);
    DigitsPush(Put(s, p), q);
    DigitsPush(Put(Put(s, p), q), r);
  }

  lemma TwoBytes(d: seq<Byte>)
    requires |d| >= 2
    ensures BytesNum(d) == BytesNum(d[..|d| - 2]) * 65536 + Word(0, d[|d| - 2], d[|d| - 1])
  {
    var n := |d|;
    assert d[..n - 1] == d[..n - 2] + [d[n - 2]] && d == d[..n - 1] + [d[n - 1]];
    BytesPush(d[..n - 2], d[n - 2]);
    BytesPush(d[..n - 1], d[n - 1]);
    assert BytesNum(d[..n - 1]) == BytesNum(d[..n - 2]) * 256 + d[n - 2] as int;
  }

  lemma LastTwo(data: seq<Byte>, s: string) returns (t: string)
    requires |data| % 3 == 2 && |s| == 4 * (|data| / 3) && InAlphabet(s) && DigitsNum(s) == BytesNum(data[..|data| - 2])
    ensures var v := Word(data[|data| - 2], data[|data| - 1], 0);
      t == Put(Put(Put(s, Sextet0(v)), Sextet1(v)), Sextet2(v)) && Digits(data, t)
  {
    var n, w := |data|, Word(0, data[|data| - 2], data[|data| - 1]);
    var v := Word(data[n - 2], data[n - 1], 0);
    assert v == w * 256;
    t := Put(Put(Put(s, Sextet0(v)), Sextet1(v)), Sextet2(v));
    ThreeDigits(s, Sextet0(v), Sextet1(v), Sextet2(v));
    TwoBytes(data);
    TwoByteBits(w);
    assert Spare(|t|) == 2;
  }

  // ---- Decoding ----

  function StripPadding(s: string): (r: string)
    ensures r == "" || r[|r| - 1] != '='
  {
    if s != "" && s[|s| - 1] == '=' then StripPadding(s[..|s| - 1]) else s
  }

  /** The whole bytes at the front of a digit string; left-over bits are dropped. */
  ghost predicate Leading(s: string, out: seq<Byte>)
    requires InAlphabet(s)
  {
    |out| == 6 * |s| / 8 && BytesNum(out) == Down(DigitsNum(s), Spare(|s|))
  }

  const TWO32: nat := 0x1_0000_0000

  /** One digit in the accumulator that wraps at 32 bits: the pending low bits stay right. */
  lemma OneDigit(n: nat, v: Sextet, outNum: nat, acc: nat, bits: nat)
    requires bits in {0, 2, 4, 6} && acc == n % TWO32 && outNum == Down(n, bits)
    ensures var m, acc' := n * 64 + v, (acc * 64 + v) % TWO32;
      && acc' == m % TWO32
      && (bits == 0 ==> outNum == Down(m, 6))
      && (bits > 0 ==> outNum * 256 + Down(acc', bits - 2) % 256 == Down(m, bits - 2))
  {
    Wraps(n, v);
    if bits > 0 {
      Carry(n, v, bits);
    }
  }

  lemma Wraps(n: nat, v: Sextet)
    ensures (n % TWO32 * 64 + v) % TWO32 == (n * 64 + v) % TWO32
  {
    var q := n / TWO32;
    assert n * 64 + v == (n % TWO32 * 64 + v) + TWO32 * (64 * q);
    ModAdd(n % TWO32 * 64 + v, 64 * q);
  }

  lemma ModAdd(a: nat, q: nat)
    ensures (a + TWO32 * q) % TWO32 == a % TWO32
  {
    if q > 0 {
      ModAdd(a, q - 1);
      assert a + TWO32 * q == (a + TWO32 * (q - 1)) + TWO32;
    }
  }

  lemma Carry(n: nat, v: Sextet, bits: nat)
    requires bits in {2, 4, 6}
    ensures var m := n * 64 + v;
      Down(n, bits) * 256 + Down(m % TWO32, bits - 2) % 256 == Down(m, bits - 2)
  {
    var m := n * 64 + v;
    LowBits(m, bits - 2);
    Nibbles(n, v);
  }

  lemma ModShift(a: nat, c: nat)
    ensures (a + 256 * c) % 256 == a % 256
  {
  }

  /** The byte above the pending bits is not touched by the wrap. */
  lemma LowBits(m: nat, bits: nat)
    requires bits in {0, 2, 4}
    ensures Down(m % TWO32, bits) % 256 == Down(m, bits) % 256
  {
    var q, r := m / TWO32, m % TWO32;
    assert m == r + TWO32 * q;
    if bits == 0 {
      ModShift(r, 16777216 * q);
    } else if bits == 2 {
      assert m / 4 == r / 4 + 1073741824 * q;
      ModShift(r / 4, 4194304 * q);
    } else {
      assert m / 16 == r / 16 + 268435456 * q;
      ModShift(r / 16, 1048576 * q);
    }
  }

  lemma Nibbles(n: nat, v: Sextet)
    ensures var m := n * 64 + v;
      && n / 4 * 256 + m % 256 == m
      && n / 16 * 256 + m / 4 % 256 == m / 4
      && n / 64 * 256 + m / 16 % 256 == m / 16
  {
    var m := n * 64 + v;
    assert m / 256 == n / 4;
    assert m / 4 / 256 == m / 1024 == n / 16;
    assert m / 16 / 256 == m / 4096 == n / 64;
  }

  /** What the decoder knows after k digits with number n. */
  ghost predicate Reading(n: nat, k: nat, out: seq<Byte>, acc: nat, bits: nat) {
    && bits == Spare(k) && |out| == 6 * k / 8
    && acc == n % TWO32 && BytesNum(out) == Down(n, bits)
  }

  method TakeDigit(ghost n: nat, ghost k: nat, v: Sextet, out: seq<Byte>, acc: nat, bits: nat)
    returns (out': seq<Byte>, acc': nat, bits': nat)
    requires Reading(n, k, out, acc, bits)
    ensures Reading(n * 64 + v, k + 1, out', acc', bits')
  {
    OneDigit(n, v, BytesNum(out), acc, bits);
    SpareStep(k);
    out' := out;
    acc' := (acc * 64 + v) % TWO32;
    bits' := bits + 6;
    if bits' >= 8 {
      bits' := bits' - 8;
      BytesPush(out, Down(acc', bits') % 256);
      out' := out + [Down(acc', bits') % 256];
    }
  }

  method DropPadding(text: string) returns (s: string)
    ensures s == StripPadding(text)
  {
    s := text;
    while s != "" && s[|s| - 1] == '='
      invariant StripPadding(s) == StripPadding(text)
      decreases |s|
    {
      s := s[..|s| - 1];
    }
  }

  /** base64_decode: trailing padding is ignored, every other character must be a digit, and
      the result is the whole bytes at the front, in spite of the 32-bit accumulator. */
  method Decode(text: string) returns (r: Option<seq<Byte>>)
    ensures r.Some? <==> InAlphabet(StripPadding(text))
    ensures r.Some? ==> Leading(StripPadding(text), r.value)
  {
    var s := DropPadding(text);
    var out: seq<Byte> := [];
    var acc: nat := 0;
    var bits := 0;
    for k := 0 to |s|
      invariant InAlphabet(s[..k]) && Reading(DigitsNum(s[..k]), k, out, acc, bits)
    {
      var v := Rev(s[k]);
      if v < 0 {
        return None;
      }
      NextPrefix(s, k);
      out, acc, bits := TakeDigit(DigitsNum(s[..k]), k, v, out, acc, bits);
    }
    assert s[..|s|] == s;
    return Some(out);
  }

  lemma NextPrefix(s: string, k: nat)
    requires k < |s|
    ensures s[..k + 1] == s[..k] + [s[k]] && s[..k + 1][..k] == s[..k]
  {
  }

  // ---- Round trip ----

  lemma StripOne(s: string)
    ensures StripPadding(s + "=") == StripPadding(s)
  {
    assert (s + "=")[..|s|] == s;
  }

  lemma PaddingStrips(s: string, n: nat)
    requires s == "" || s[|s| - 1] != '='
    ensures StripPadding(s + Padding(n)) == s
  {
    if n % 3 == 0 {
      assert s + "" == s;
    } else {
      StripOne(s);
      StripOne(s + "=");
      assert s + "==" == s + "=" + "=";
    }
  }

  lemma NoPadInside(s: string)
    requires InAlphabet(s) && s != ""
    ensures s[|s| - 1] != '='
  {
    assert Rev(s[|s| - 1]) >= 0;
  }

  lemma CountsMatch(n: nat)
    ensures 6 * DigitCount(n) / 8 == n
  {
    var q := n / 3;
    assert n == 3 * q + n % 3;
  }

  lemma DownUp(n: nat, bits: nat)
    ensures Down(Up(n, bits), bits) == n
  {
  }

  /** What a decoder accepts is fixed by its text: any two answers agree. */
  lemma LeadingUnique(s: string, a: seq<Byte>, b: seq<Byte>)
    requires InAlphabet(s) && Leading(s, a) && Leading(s, b)
    ensures a == b
  {
    BytesInjective(a, b);
  }

  /** Decoding what was encoded gives the data back, for every byte sequence: an encoded text
      is accepted and leads to no other bytes. */
  lemma RoundTrip(d: seq<Byte>, s: string, out: seq<Byte>)
    requires Digits(d, s)
    ensures StripPadding(s + Padding(|d|)) == s
    ensures Leading(s, out) <==> out == d
  {
    if s != "" { NoPadInside(s); }
    PaddingStrips(s, |d|);
    CountsMatch(|d|);
    DownUp(BytesNum(d), Spare(|s|));
    if Leading(s, out) {
      LeadingUnique(s, out, d);
    }
  }

  /** The two methods one after the other. */
  method EncodeThenDecode(data: seq<Byte>) returns (text: string, back: Option<seq<Byte>>)
    ensures back == Some(data) && |text| == 4 * ((|data| + 2) / 3)
  {
    text := Encode(data);
    back := Decode(text);
    ghost var s :| Digits(data, s) && text == s + Padding(|data|);
    RoundTrip(data, s, data);
    RoundTrip(data, s, back.value);
  }
}
