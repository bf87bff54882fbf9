// The two incremental hashes of the repository, with the fields their code has: SHA-256
// (src/image.cpp) and MD5 (src/xdg_thumbnail.cpp). Both classes keep the digest definition of
// module HashPadding over any split of the message.
module StreamingHash {
  import opened Wrappers
  import opened HashPadding

  class Sha256Hash {
    const data: array<Byte>
    var datalen: nat
    var bitlen: nat
    var state: State
    const compress: Compress
    const init: State
    ghost var message: Bytes

    ghost predicate Valid()
      reads this, data
    {
      && data.Length == BLOCK && datalen < BLOCK && |init| == 8 && Keeps(compress, 8)
      && Buffered(compress, init, message, state, data[..datalen])
      && bitlen == BitLength(|message| - datalen)
    }

    constructor (compress: Compress, init: State)
      requires |init| == 8 && Keeps(compress, 8)
      ensures Valid() && fresh(data) && message == [] && this.compress == compress && this.init == init
    {
      this.data := new Byte[BLOCK](i => 0);
      this.compress, this.init := compress, init;
      datalen, bitlen, state, message := 0, 0, init, [];
    }

    /** update: a full buffer is compressed, and counted, at once. */
    method Update(bytes: Bytes)
      requires Valid()
      modifies this, data
      ensures Valid() && message == old(message) + bytes
    {
      assert bytes[..0] == [] && old(message) + [] == old(message);
      for i := 0 to |bytes|
        invariant Valid() && message == old(message) + bytes[..i]
      {
        assert bytes[..i + 1] == bytes[..i] + [bytes[i]];
        Assoc(old(message), bytes[..i], [bytes[i]]);
        PushByte(bytes[i]);
      }
      assert bytes[..|bytes|] == bytes;
    }

    method PushByte(b: Byte)
      requires Valid()
      modifies this, data
      ensures Valid() && message == old(message) + [b]
    {
      BufferPush(compress, init, message, state, data[..datalen], b);
      ghost var was := data[..datalen];
      data[datalen] := b;
      datalen := datalen + 1;
      assert data[..datalen] == was + [b];
      message := message + [b];
      if datalen == 64 {
        assert data[..] == data[..datalen];
        state := compress(state, data[..]);
        CountBlock(|message| - 64);
        bitlen := (bitlen + 512) % TWO64;
        datalen := 0;
        assert data[..datalen] == [];
      }
    }

    lemma CountBlock(n: int)
      requires n >= 0
      ensures (BitLength(n) + 512) % TWO64 == BitLength(n + 64)
    {
      AddMod(8 * n, 512);
    }

    /** The eight length bytes, most significant first. */
    method PutLength()
      requires data.Length == BLOCK
      modifies data
      ensures data[..56] == old(data[..56]) && data[56..] == BigEndian(bitlen)
    {
      data[63] := ByteAt(bitlen, 0);
      data[62] := ByteAt(bitlen, 1);
      data[61] := ByteAt(bitlen, 2);
      data[60] := ByteAt(bitlen, 3);
      data[59] := ByteAt(bitlen, 4);
      data[58] := ByteAt(bitlen, 5);
      data[57] := ByteAt(bitlen, 6);
      data[56] := ByteAt(bitlen, 7);
      assert data[56..] == BigEndian(bitlen);
    }

    /** Marker and zeros up to a position. */
    method PadTo(end: nat)
      requires data.Length == BLOCK && datalen < end <= BLOCK
      modifies data
      ensures data[..end] == old(data[..datalen]) + [0x80] + Zeros(end - datalen - 1)
    {
      ghost var rest := data[..datalen];
      data[datalen] := 0x80;
      var i := datalen + 1;
      while i < end
        invariant datalen < i <= end && data[..i] == rest + [0x80] + Zeros(i - datalen - 1)
      {
        data[i] := 0;
        i := i + 1;
        assert Zeros(i - datalen - 1) == Zeros(i - datalen - 2) + [0];
      }
    }

    /** Marker and zeros in the last block or two; only the length is missing then. */
    method PadMessage(ghost head: Bytes, ghost length: Bytes)
      requires Valid() && message == head + data[..datalen] && |length| == 8
      modifies this`state, data
      ensures Fold(compress, init, Padded(message, length)) == compress(state, data[..56] + length)
    {
      assert |head| % BLOCK == 0 && state == Fold(compress, init, head) by {
        assert message[..|message| - datalen] == head;
      }
      LastBlocks(compress, init, head, data[..datalen], length);
      if datalen < 56 {
        PadTo(56);
      } else {
        PadTo(64);
        assert data[..] == data[..64];
        state := compress(state, data[..]);
        ClearFront();
      }
    }

    /** final: the digest of everything that was fed in, however it was split. */
    method Final() returns (hash: Bytes)
      requires Valid()
      modifies this, data
      ensures hash == Sha256(compress, init, old(message))
    {
      ghost var m := message;
      ghost var head, length := m[..|m| - datalen], BigEndian(BitLength(|m|));
      assert m == head + data[..datalen];
      FoldKeeps(compress, init, Padded(m, length));
      AddLength(|m| - datalen, datalen);
      PadMessage(head, length);
      bitlen := (bitlen + datalen * 8) % TWO64;
      ghost var front := data[..56];
      PutLength();
      assert data[..] == front + length by { assert data[..] == data[..56] + data[56..]; }
      state := compress(state, data[..]);
      hash := WordsBig(state);
    }

    lemma AddLength(n: int, k: nat)
      requires n >= 0
      ensures (BitLength(n) + k * 8) % TWO64 == BitLength(n + k)
    {
      AddMod(8 * n, k * 8);
    }

    method ClearFront()
      requires data.Length == BLOCK
      modifies data
      ensures data[..56] == Zeros(56)
    {
      for i := 0 to 56
        invariant data[..i] == Zeros(i)
      {
        data[i] := 0;
        assert data[..i + 1] == data[..i] + [0] && Zeros(i + 1) == Zeros(i) + [0];
      }
    }
  }

  lemma AddMod(a: nat, b: nat)
    ensures (a % TWO64 + b) % TWO64 == (a + b) % TWO64
  {
    var q := a / TWO64;
    assert a + b == (a % TWO64 + b) + TWO64 * q;
    ModShift(a % TWO64 + b, q);
  }

  lemma {:induction false} ModShift(a: nat, q: nat)
    ensures (a + TWO64 * q) % TWO64 == a % TWO64
  {
    if q > 0 {
      ModShift(a, q - 1);
      assert a + TWO64 * q == (a + TWO64 * (q - 1)) + TWO64;
    }
  }

  class Md5Hash {
    const buffer: array<Byte>
    var buflen: nat
    var bitlen: nat
    var state: State
    const compress: Compress
    const init: State
    ghost var message: Bytes

    ghost predicate Valid()
      reads this, buffer
    {
      && buffer.Length == BLOCK && buflen < BLOCK && |init| == 4 && Keeps(compress, 4)
      && Buffered(compress, init, message, state, buffer[..buflen])
      && bitlen == BitLength(|message|)
    }

    constructor (compress: Compress, init: State)
      requires |init| == 4 && Keeps(compress, 4)
      ensures Valid() && fresh(buffer) && message == [] && this.compress == compress && this.init == init
    {
      this.buffer := new Byte[BLOCK](i => 0);
      this.compress, this.init := compress, init;
      buflen, bitlen, state, message := 0, 0, init, [];
    }

    /** md5_update: the length is counted first, then the bytes are copied chunk by chunk. */
    method Update(bytes: Bytes)
      requires Valid()
      modifies this, buffer
      ensures Valid() && message == old(message) + bytes
    {
      AddMod(8 * |message|, 8 * |bytes|);
      bitlen := (bitlen + |bytes| * 8) % TWO64;
      var data := bytes;
      ghost var fed: Bytes := [];
      assert old(message) + [] == old(message);
      while data != []
        invariant bytes == fed + data && message == old(message) + fed && Ready()
        invariant bitlen == BitLength(|old(message)| + |bytes|)
        decreases |data|
      {
        var n := if |data| < 64 - buflen then |data| else 64 - buflen;
        Assoc(old(message), fed, data[..n]);
        Assoc(fed, data[..n], data[n..]);
        assert data == data[..n] + data[n..];
        Copy(data[..n]);
        fed := fed + data[..n];
        data := data[n..];
      }
      assert bytes == fed + [] == fed;
    }

    /** Valid but for the length, which md5_update has already counted. */
    ghost predicate Ready()
      reads this, buffer
    {
      && buffer.Length == BLOCK && buflen < BLOCK && |init| == 4 && Keeps(compress, 4)
      && Buffered(compress, init, message, state, buffer[..buflen])
    }

    /** memcpy of a chunk behind what is in the buffer. */
    method Fill(chunk: Bytes)
      requires buffer.Length == BLOCK && buflen + |chunk| <= BLOCK
      modifies buffer
      ensures buffer[..buflen + |chunk|] == old(buffer[..buflen]) + chunk
    {
      ghost var was := buffer[..buflen];
      for i := 0 to |chunk|
        invariant buffer[..buflen + i] == was + chunk[..i]
      {
        assert chunk[..i + 1] == chunk[..i] + [chunk[i]];
        buffer[buflen + i] := chunk[i];
        assert buffer[..buflen + i + 1] == buffer[..buflen + i] + [chunk[i]];
      }
      assert chunk[..|chunk|] == chunk;
    }

    /** A chunk that fits, and the transform of a full buffer. */
    method Copy(chunk: Bytes)
      requires Ready() && 0 < |chunk| <= 64 - buflen
      modifies this`buflen, this`state, this`message, buffer
      ensures Ready() && message == old(message) + chunk
    {
      ChunkPush(compress, init, message, state, buffer[..buflen], chunk);
      Fill(chunk);
      buflen := buflen + |chunk|;
      message := message + chunk;
      if buflen == 64 {
        assert buffer[..] == buffer[..buflen];
        state := compress(state, buffer[..]);
        buflen := 0;
        assert buffer[..buflen] == [];
      }
    }

    /** 0x80 and zeros until the end of the block or the length field, as md5_final appends them. */
    method PadTo(end: nat)
      requires buffer.Length == BLOCK && buflen <= end <= BLOCK
      modifies this`buflen, buffer
      ensures buflen == end && buffer[..end] == old(buffer[..buflen]) + Zeros(end - old(buflen))
    {
      ghost var rest, n := buffer[..buflen], buflen;
      assert rest + Zeros(0) == rest;
      while buflen < end
        invariant n <= buflen <= end && buffer[..buflen] == rest + Zeros(buflen - n)
      {
        buffer[buflen] := 0;
        assert buffer[..buflen + 1] == buffer[..buflen] + [0];
        assert Zeros(buflen + 1 - n) == Zeros(buflen - n) + [0];
        buflen := buflen + 1;
      }
    }

    method PutLength()
      requires buffer.Length == BLOCK
      modifies buffer
      ensures buffer[..56] == old(buffer[..56]) && buffer[56..] == LittleEndian(bitlen)
    {
      for i := 0 to 8
        invariant buffer[..56] == old(buffer[..56])
        invariant forall k :: 0 <= k < i ==> buffer[56 + k] == ByteAt(bitlen, k)
      {
        buffer[56 + i] := ByteAt(bitlen, i);
      }
      assert buffer[56..] == LittleEndian(bitlen);
    }

    /** Marker and zeros in the last block or two; only the length is missing then. */
    method PadMessage(ghost head: Bytes, ghost length: Bytes)
      requires Valid() && message == head + buffer[..buflen] && |length| == 8
      modifies this`state, this`buflen, buffer
      ensures Fold(compress, init, Padded(message, length)) == compress(state, buffer[..56] + length)
    {
      ghost var rest := buffer[..buflen];
      assert |head| % BLOCK == 0 && state == Fold(compress, init, head) by {
        assert message[..|message| - buflen] == head;
      }
      LastBlocks(compress, init, head, rest, length);
      buffer[buflen] := 0x80;
      buflen := buflen + 1;
      assert buffer[..buflen] == rest + [0x80];
      if buflen > 56 {
        PadTo(64);
        assert buffer[..] == buffer[..64];
        state := compress(state, buffer[..]);
        buflen := 0;
        assert buffer[..buflen] == [] && [] + Zeros(56) == Zeros(56);
      }
      PadTo(56);
    }

    /** md5_final. */
    method Final() returns (out: Bytes)
      requires Valid()
      modifies this, buffer
      ensures out == Md5(compress, init, old(message))
    {
      ghost var m := message;
      ghost var head, length := m[..|m| - buflen], LittleEndian(bitlen);
      assert m == head + buffer[..buflen];
      FoldKeeps(compress, init, Padded(m, length));
      PadMessage(head, length);
      ghost var front := buffer[..56];
      PutLength();
      assert buffer[..] == front + length by { assert buffer[..] == buffer[..56] + buffer[56..]; }
      state := compress(state, buffer[..]);
      out := WordsLittle(state);
    }
  }

  /** A chunk that at most fills the buffer, at once or byte by byte: the same. */
  lemma {:induction false} ChunkPush(compress: Compress, init: State, m: Bytes, state: State, buffer: Bytes,
                                     chunk: Bytes)
    decreases |chunk|
    requires Buffered(compress, init, m, state, buffer) && 0 < |chunk| <= BLOCK - |buffer|
    ensures |buffer| + |chunk| < BLOCK ==> Buffered(compress, init, m + chunk, state, buffer + chunk)
    ensures |buffer| + |chunk| == BLOCK ==> Buffered(compress, init, m + chunk, compress(state, buffer + chunk), [])
  {
    var b, rest := chunk[0], chunk[1..];
    assert chunk == [b] + rest;
    BufferPush(compress, init, m, state, buffer, b);
    if rest != [] {
      ChunkPush(compress, init, m + [b], state, buffer + [b], rest);
    } else {
      assert chunk == [b];
    }
    Assoc(m, [b], rest);
    Assoc(buffer, [b], rest);
  }

  function Concat(parts: seq<Bytes>): Bytes {
    if parts == [] then [] else Concat(parts[..|parts| - 1]) + parts[|parts| - 1]
  }

  /** Feeding a message to SHA-256 in parts, any parts, gives the digest of the whole message. */
  method HashParts(compress: Compress, init: State, parts: seq<Bytes>) returns (hash: Bytes)
    requires |init| == 8 && Keeps(compress, 8)
    ensures hash == Sha256(compress, init, Concat(parts))
  {
    var h := new Sha256Hash(compress, init);
    for i := 0 to |parts|
      invariant h.Valid() && h.message == Concat(parts[..i]) && fresh(h) && fresh(h.data)
      invariant h.compress == compress && h.init == init
    {
      assert parts[..i + 1][..i] == parts[..i];
      h.Update(parts[i]);
    }
    assert parts[..|parts|] == parts;
    hash := h.Final();
  }

  /** The same for MD5. */
  method HashPartsMd5(compress: Compress, init: State, parts: seq<Bytes>) returns (hash: Bytes)
    requires |init| == 4 && Keeps(compress, 4)
    ensures hash == Md5(compress, init, Concat(parts))
  {
    var h := new Md5Hash(compress, init);
    for i := 0 to |parts|
      invariant h.Valid() && h.message == Concat(parts[..i]) && fresh(h) && fresh(h.buffer)
      invariant h.compress == compress && h.init == init
    {
      assert parts[..i + 1][..i] == parts[..i];
      h.Update(parts[i]);
    }
    assert parts[..|parts|] == parts;
    hash := h.Final();
  }
}
