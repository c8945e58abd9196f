/**
 * The binary data frames of the transfer channel,
 * `[fileId length: int32 little-endian][fileId bytes][chunk bytes]`,
 * and the slicing of each block of a file's stream into chunks of at most
 * CHUNK_SIZE bytes.
 */
module Frames {
  import opened Wrappers
  import opened Bytes

  /** WebRTCHandler.CHUNK_SIZE. */
  const CHUNK_SIZE: nat := 16384
  /** The bufferedAmount above which sendFile waits before the next frame: 16 MiB. */
  const MAX_BUFFERED: nat := 16 * 1024 * 1024

  /** A fileId is its UTF-8 encoding. */
  type FileId = seq<byte>

  /** A decoded binary frame. */
  datatype Frame = Frame(id: FileId, chunk: seq<byte>)

  /** The frame sendFile builds for one chunk. */
  function EncodeFrame(id: FileId, chunk: seq<byte>): (r: seq<byte>)
    ensures |r| == 4 + |id| + |chunk|
    ensures r[..4] == Int32LE(|id|) && r[4..4 + |id|] == id && r[4 + |id|..] == chunk
  {
    Int32LE(|id|) + id + chunk
  }

  /**
   * What the receiving handler reads out of a binary message: the id length
   * from the first four bytes (fewer than four bytes make `getInt32` throw,
   * None here), the id from bytes [4, 4 + length) and the chunk after them,
   * both with JavaScript's clamping `slice`, so a corrupt length is not rejected.
   */
  function DecodeFrame(data: seq<byte>): (r: Option<Frame>)
    ensures r.None? <==> |data| < 4
    ensures r.Some? && 0 <= ReadInt32LE(data) <= |data| - 4 ==>
      r.value.id == data[4..4 + ReadInt32LE(data)] && r.value.chunk == data[4 + ReadInt32LE(data)..]
  {
    if |data| < 4 then None
    else
      var len := ReadInt32LE(data);
      Some(Frame(Slice(data, 4, 4 + len), SliceFrom(data, 4 + len)))
  }

  /** Decoding a frame built by sendFile gives back its fileId and its chunk. */
  lemma DecodeEncode(id: FileId, chunk: seq<byte>)
    requires |id| < TWO_31
    ensures DecodeFrame(EncodeFrame(id, chunk)) == Some(Frame(id, chunk))
  {
    var r := EncodeFrame(id, chunk);
    Int32RoundTrip(|id|);
    assert r == Int32LE(|id|) + (id + chunk);
    assert ReadInt32LE(r) == |id|;
  }

  /** One base-256 digit step of Int32Reencode: the low digit and the rest of x. */
  lemma DivMod256(x: int, a: int, y: int)
    requires 0 <= a < 256 && x == a + 256 * y
    ensures x % 256 == a && x / 256 == y
  {
  }

  /** The four length bytes of any frame are the encoding of the length they hold. */
  lemma {:induction false} Int32Reencode(b: seq<byte>)
    requires |b| >= 4
    ensures Int32LE(ReadInt32LE(b)) == b[..4]
  {
    var y2 := b[2] as int + 256 * b[3] as int;
    var y1 := b[1] as int + 256 * y2;
    var u := b[0] as int + 256 * y1;
    assert 0 <= u < TWO_32;
    var n := ReadInt32LE(b);
    assert n % TWO_32 == u;
    DivMod256(u, b[0], y1);
    DivMod256(y1, b[1], y2);
    DivMod256(y2, b[2], b[3]);
    var e := Int32LE(n);
    assert e[0] == b[0] && e[1] == b[1] && e[2] == b[2] && e[3] == b[3];
  }

  /** Every frame whose length field fits is the encoding of what it decodes to. */
  lemma EncodeDecode(data: seq<byte>)
    requires |data| >= 4 && 0 <= ReadInt32LE(data) <= |data| - 4
    ensures DecodeFrame(data).Some?
    ensures EncodeFrame(DecodeFrame(data).value.id, DecodeFrame(data).value.chunk) == data
  {
    var len := ReadInt32LE(data);
    Int32Reencode(data);
    var f := DecodeFrame(data).value;
    assert |f.id| == len;
    assert data == data[..4] + data[4..4 + len] + data[4 + len..];
  }

  // ----- chunking -----

  /**
   * The chunks `value.slice(i, i + CHUNK_SIZE)` for i = 0, CHUNK_SIZE, ... while
   * i < |value|: a full chunk while more than CHUNK_SIZE bytes are left, then the rest.
   */
  function Chunks(v: seq<byte>): (r: seq<seq<byte>>)
    decreases |v|
  {
    if |v| == 0 then []
    else if |v| <= CHUNK_SIZE then [v]
    else [v[..CHUNK_SIZE]] + Chunks(v[CHUNK_SIZE..])
  }

  /** Every chunk is non-empty and at most CHUNK_SIZE bytes; all but the last are full. */
  lemma {:induction false} ChunkBounds(v: seq<byte>)
    ensures forall k :: 0 <= k < |Chunks(v)| ==> 0 < |Chunks(v)[k]| <= CHUNK_SIZE
    ensures forall k :: 0 <= k < |Chunks(v)| - 1 ==> |Chunks(v)[k]| == CHUNK_SIZE
    decreases |v|
  {
    if |v| > CHUNK_SIZE {
      ChunkBounds(v[CHUNK_SIZE..]);
      var r := Chunks(v);
      assert forall k :: 1 <= k < |r| ==> r[k] == Chunks(v[CHUNK_SIZE..])[k - 1];
    }
  }

  /** The chunks of a block laid end to end are the block. */
  lemma {:induction false} ChunksConcat(v: seq<byte>)
    ensures Concat(Chunks(v)) == v
    decreases |v|
  {
    if |v| == 0 {
    } else if |v| <= CHUNK_SIZE {
      assert Concat([v]) == v + Concat([v][1..]);
    } else {
      var rest := Chunks(v[CHUNK_SIZE..]);
      ChunksConcat(v[CHUNK_SIZE..]);
      assert Chunks(v)[1..] == rest;
      assert v == v[..CHUNK_SIZE] + v[CHUNK_SIZE..];
    }
  }

  /** One block of n bytes is sent as ceil(n / CHUNK_SIZE) frames. */
  lemma {:induction false} ChunkCount(v: seq<byte>)
    ensures |Chunks(v)| == (|v| + CHUNK_SIZE - 1) / CHUNK_SIZE
    decreases |v|
  {
    if |v| > CHUNK_SIZE {
      ChunkCount(v[CHUNK_SIZE..]);
      assert |v| + CHUNK_SIZE - 1 == (|v| - CHUNK_SIZE + CHUNK_SIZE - 1) + CHUNK_SIZE;
    }
  }

  /** The inner loop's step: the chunks from offset i are the slice at i followed by the chunks after it. */
  lemma {:induction false} ChunksFrom(v: seq<byte>, i: nat)
    requires i < |v|
    ensures Chunks(v[i..]) == [Slice(v, i, i + CHUNK_SIZE)] + Chunks(Rest(v, i + CHUNK_SIZE))
  {
    if i + CHUNK_SIZE < |v| {
      assert v[i..][..CHUNK_SIZE] == v[i..i + CHUNK_SIZE];
      assert v[i..][CHUNK_SIZE..] == v[i + CHUNK_SIZE..];
    } else {
      assert Slice(v, i, i + CHUNK_SIZE) == v[i..];
    }
  }

  /** The bytes of v from offset i on, none when i is past the end. */
  function Rest(v: seq<byte>, i: nat): (r: seq<byte>)
    ensures i <= |v| ==> r == v[i..]
    ensures i >= |v| ==> r == []
  {
    if i < |v| then v[i..] else []
  }

  /** The chunks of every block of a stream, block after block. */
  function AllChunks(blocks: seq<seq<byte>>): (r: seq<seq<byte>>)
  {
    if blocks == [] then [] else Chunks(blocks[0]) + AllChunks(blocks[1..])
  }

  /** The chunks of a stream carry exactly its bytes, in order. */
  lemma {:induction false} AllChunksConcat(blocks: seq<seq<byte>>)
    ensures Concat(AllChunks(blocks)) == Concat(blocks)
    ensures TotalLength(AllChunks(blocks)) == TotalLength(blocks)
  {
    if blocks != [] {
      AllChunksConcat(blocks[1..]);
      ChunksConcat(blocks[0]);
      ConcatAppend(Chunks(blocks[0]), AllChunks(blocks[1..]));
    }
  }

  /** Every chunk of a stream is non-empty and at most CHUNK_SIZE bytes. */
  lemma {:induction false} AllChunksBounds(blocks: seq<seq<byte>>)
    ensures forall k :: 0 <= k < |AllChunks(blocks)| ==> 0 < |AllChunks(blocks)[k]| <= CHUNK_SIZE
  {
    if blocks != [] {
      AllChunksBounds(blocks[1..]);
      ChunkBounds(blocks[0]);
      var a := Chunks(blocks[0]);
      var b := AllChunks(blocks[1..]);
      assert forall k :: |a| <= k < |a + b| ==> (a + b)[k] == b[k - |a|];
    }
  }
}
