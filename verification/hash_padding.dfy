// What SHA-256 (section 5.1.1 of FIPS 180-4) and MD5 (sections 3.1 and 3.2 of RFC 1321) do with a
// message: padding to whole blocks and folding a compression function over them.
module HashPadding {
  import opened Wrappers

  /** The chaining value; the compression function itself is a parameter. */
  type State = seq<nat>
  type Compress = (State, Bytes) -> State

  const BLOCK: nat := 64
  const TWO64: nat := 0x1_0000_0000_0000_0000

  function Zeros(n: nat): (z: Bytes)
    ensures |z| == n && forall k :: 0 <= k < n ==> z[k] == 0
  {
    seq(n, k => 0)
  }

  function Pow256(k: nat): (p: nat)
    ensures p > 0
  {
    if k == 0 then 1 else 256 * Pow256(k - 1)
  }

  /** Byte k of a number, least significant first. */
  function ByteAt(n: nat, k: nat): Byte { n / Pow256(k) % 256 }

  function BigEndian(n: nat): (r: Bytes)
    ensures |r| == 8
  {
    [ByteAt(n, 7), ByteAt(n, 6), ByteAt(n, 5), ByteAt(n, 4), ByteAt(n, 3), ByteAt(n, 2), ByteAt(n, 1), ByteAt(n, 0)]
  }

  function LittleEndian(n: nat): (r: Bytes)
    ensures |r| == 8
  {
    [ByteAt(n, 0), ByteAt(n, 1), ByteAt(n, 2), ByteAt(n, 3), ByteAt(n, 4), ByteAt(n, 5), ByteAt(n, 6), ByteAt(n, 7)]
  }

  function BitLength(n: nat): nat { 8 * n % TWO64 }

  /** Zero bytes between the marker and the length: as few as make whole blocks. */
  function Gap(n: nat): (z: nat)
    ensures z < BLOCK && (n + 1 + z + 8) % BLOCK == 0
  {
    (119 - n % BLOCK) % BLOCK
  }

  function Tail(n: nat, length: Bytes): Bytes { [0x80] + (Zeros(Gap(n)) + length) }

  /** The padded message. */
  function Padded(m: Bytes, length: Bytes): Bytes { m + Tail(|m|, length) }

  /** The compression function over the blocks of a padded message, one after the other. */
  function Fold(compress: Compress, s: State, blocks: Bytes): State
    decreases |blocks|
  {
    if |blocks| < BLOCK then s else Fold(compress, compress(s, blocks[..BLOCK]), blocks[BLOCK..])
  }

  lemma {:induction false} FoldAppend(compress: Compress, s: State, a: Bytes, b: Bytes)
    requires |a| % BLOCK == 0
    ensures Fold(compress, s, a + b) == Fold(compress, Fold(compress, s, a), b)
    decreases |a|
  {
    if a == [] {
      assert a + b == b;
    } else {
      assert (a + b)[..BLOCK] == a[..BLOCK] && (a + b)[BLOCK..] == a[BLOCK..] + b;
      FoldAppend(compress, compress(s, a[..BLOCK]), a[BLOCK..], b);
    }
  }

  lemma FoldOne(compress: Compress, s: State, block: Bytes)
    requires |block| == BLOCK
    ensures Fold(compress, s, block) == compress(s, block)
  {
    assert block[..BLOCK] == block && block[BLOCK..] == [];
  }

  /** One block ends the message when its rest leaves room for marker and length, else two. */
  lemma OneOrTwoBlocks(n: nat)
    ensures n % BLOCK < 56 ==> Gap(n) == 55 - n % BLOCK
    ensures n % BLOCK >= 56 ==> Gap(n) == 119 - n % BLOCK
  {
  }

  /** A message that is whole blocks plus a short rest: what the last one or two blocks are. */
  lemma LastBlocks(compress: Compress, s: State, head: Bytes, rest: Bytes, length: Bytes)
    requires |head| % BLOCK == 0 && |rest| < BLOCK && |length| == 8
    ensures |rest| < 56 ==>
      Fold(compress, s, Padded(head + rest, length))
      == compress(Fold(compress, s, head), rest + [0x80] + Zeros(55 - |rest|) + length)
    ensures |rest| >= 56 ==>
      Fold(compress, s, Padded(head + rest, length))
      == compress(compress(Fold(compress, s, head), rest + [0x80] + Zeros(63 - |rest|)), Zeros(56) + length)
  {
    RestOf(|head|, |rest|);
    OneOrTwoBlocks(|head + rest|);
    var tail := Tail(|head + rest|, length);
    Assoc(head, rest, tail);
    FoldAppend(compress, s, head, rest + tail);
    if |rest| < 56 {
      OneBlock(rest, length);
      FoldOne(compress, Fold(compress, s, head), rest + tail);
    } else {
      var a, b := rest + [0x80] + Zeros(63 - |rest|), Zeros(56) + length;
      TwoBlocks(rest, length);
      FoldAppend(compress, Fold(compress, s, head), a, b);
      FoldOne(compress, Fold(compress, s, head), a);
      FoldOne(compress, compress(Fold(compress, s, head), a), b);
    }
  }

  lemma RestOf(h: nat, r: nat)
    requires h % BLOCK == 0 && r < BLOCK
    ensures (h + r) % BLOCK == r
  {
  }

  lemma Assoc(a: Bytes, b: Bytes, c: Bytes)
    ensures (a + b) + c == a + (b + c)
  {
  }

  lemma OneBlock(rest: Bytes, length: Bytes)
    requires |rest| < 56
    ensures rest + ([0x80] + (Zeros(55 - |rest|) + length)) == rest + [0x80] + Zeros(55 - |rest|) + length
  {
  }

  lemma TwoBlocks(rest: Bytes, length: Bytes)
    requires 56 <= |rest| < BLOCK
    ensures rest + ([0x80] + (Zeros(119 - |rest|) + length))
      == (rest + [0x80] + Zeros(63 - |rest|)) + (Zeros(56) + length)
  {
    assert Zeros(119 - |rest|) == Zeros(63 - |rest|) + Zeros(56);
  }

  /** The bytes of the state words, most significant first as SHA-256 wants them. */
  function WordsBig(s: State): (r: Bytes)
    ensures |r| == 4 * |s|
  {
    seq(4 * |s|, k requires 0 <= k < 4 * |s| => ByteAt(s[k / 4], 3 - k % 4))
  }

  /** And least significant first as MD5 wants them. */
  function WordsLittle(s: State): (r: Bytes)
    ensures |r| == 4 * |s|
  {
    seq(4 * |s|, k requires 0 <= k < 4 * |s| => ByteAt(s[k / 4], k % 4))
  }

  /** The digest of a whole message, from its definition. */
  function Sha256(compress: Compress, init: State, m: Bytes): Bytes {
    WordsBig(Fold(compress, init, Padded(m, BigEndian(BitLength(|m|)))))
  }

  function Md5(compress: Compress, init: State, m: Bytes): Bytes {
    WordsLittle(Fold(compress, init, Padded(m, LittleEndian(BitLength(|m|)))))
  }

  /** A compression function keeps the number of state words. */
  ghost predicate Keeps(compress: Compress, words: nat) {
    forall s, b :: |s| == words && |b| == BLOCK ==> |compress(s, b)| == words
  }

  lemma {:induction false} FoldKeeps(compress: Compress, s: State, blocks: Bytes)
    requires Keeps(compress, |s|)
    ensures |Fold(compress, s, blocks)| == |s|
    decreases |blocks|
  {
    if |blocks| >= BLOCK {
      FoldKeeps(compress, compress(s, blocks[..BLOCK]), blocks[BLOCK..]);
    }
  }

  /** The ghost message of a hash in progress: whole blocks folded, the rest in the buffer. */
  ghost predicate Buffered(compress: Compress, init: State, m: Bytes, state: State, buffer: Bytes) {
    && |buffer| < BLOCK && |buffer| <= |m| && (|m| - |buffer|) % BLOCK == 0
    && m[|m| - |buffer|..] == buffer
    && state == Fold(compress, init, m[..|m| - |buffer|])
  }

  /** One more byte: it stays in the buffer, or completes a block. */
  lemma BufferPush(compress: Compress, init: State, m: Bytes, state: State, buffer: Bytes, b: Byte)
    requires Buffered(compress, init, m, state, buffer)
    ensures |buffer| + 1 < BLOCK ==> Buffered(compress, init, m + [b], state, buffer + [b])
    ensures |buffer| + 1 == BLOCK ==> Buffered(compress, init, m + [b], compress(state, buffer + [b]), [])
  {
    var m', n := m + [b], |m| - |buffer|;
    assert m'[n..] == buffer + [b] && m'[..n] == m[..n];
    if |buffer| + 1 == BLOCK {
      assert m' == m[..n] + (buffer + [b]);
      FoldAppend(compress, init, m[..n], buffer + [b]);
      FoldOne(compress, state, buffer + [b]);
      assert m'[..|m'|] == m' && m'[|m'|..] == [];
      assert |m'| == n + BLOCK;
    }
  }
}
