/**
 * The transfer-channel protocol engine of the browser client: the control
 * messages and data frames exchanged over the RTC data channel, the table of
 * files being received, and the sender's chunked, back-pressured send loop.
 */
module Transfer {
  import opened Wrappers
  import opened Bytes
  import opened Frames

  /** One entry of a `file-list` message: the `{id, name, size, type}` projection of a shared file. */
  datatype FileInfo = FileInfo(id: FileId, name: string, size: nat, mimeType: string)

  /** The JSON control messages, told apart by their `type` tag. */
  datatype Control =
    | FileList(files: seq<FileInfo>)
    | FileRequest(fileId: FileId)
    | FileStart(fileId: FileId, name: string, size: nat, mimeType: string)
    | FileEnd(fileId: FileId)
    | Unrecognized(tag: string)

  /** What the data channel carries: a text (control) message or a binary frame. */
  datatype ChannelMessage = Text(control: Control) | Binary(data: seq<byte>)

  datatype ReadyState = Connecting | Open | Closing | Closed

  datatype IceState = IceNew | IceChecking | IceConnected | IceCompleted | IceDisconnected | IceFailed | IceClosed

  /** An entry of `receivingFiles`: the announced metadata with the chunks received so far. */
  datatype Incoming = Incoming(name: string, size: nat, mimeType: string, chunks: seq<seq<byte>>, receivedSize: nat)

  /** The callback the handler invokes for a message, if any. */
  datatype Notice =
    | FileListReceived(files: seq<FileInfo>)
    | FileRequested(fileId: FileId)
    | FileProgress(fileId: FileId, receivedSize: nat, size: nat)
    | FileReceived(fileId: FileId, blob: seq<byte>, mimeType: string, name: string)

  type Table = map<FileId, Incoming>

  /** The entry a table holds for id, if any. */
  function EntryOf(t: Table, id: FileId): Option<Incoming>
  {
    if id in t then Some(t[id]) else None
  }

  /** `file.type || 'application/octet-stream'`. */
  function MimeOrDefault(mime: string): (r: string)
    ensures mime == "" ==> r == "application/octet-stream"
    ensures mime != "" ==> r == mime
  {
    if mime == "" then "application/octet-stream" else mime
  }

  /**
   * `_handleDataChannelMessage` as a function of the receive table: the new
   * table and the callback invoked. A binary message too short to hold a
   * length throws in the handler and changes nothing.
   */
  function Receive(t: Table, m: ChannelMessage): (r: (Table, Option<Notice>))
    ensures m.Text? && m.control.FileList? ==> r == (t, Some(FileListReceived(m.control.files)))
    ensures m.Text? && m.control.FileRequest? ==> r == (t, Some(FileRequested(m.control.fileId)))
    ensures m.Text? && m.control.Unrecognized? ==> r == (t, None)
    ensures m.Text? && m.control.FileStart? ==>
      var c := m.control;
      && r.1 == None
      && EntryOf(r.0, c.fileId) == Some(Incoming(c.name, c.size, c.mimeType, [], 0))
      && forall j :: j != c.fileId ==> EntryOf(r.0, j) == EntryOf(t, j)
    ensures m.Text? && m.control.FileEnd? && m.control.fileId in t ==>
      var id := m.control.fileId;
      && id !in r.0
      && r.1 == Some(FileReceived(id, Concat(t[id].chunks), t[id].mimeType, t[id].name))
      && forall j :: j != id ==> EntryOf(r.0, j) == EntryOf(t, j)
    ensures m.Text? && m.control.FileEnd? && m.control.fileId !in t ==> r == (t, None)
    ensures m.Binary? && (DecodeFrame(m.data).None? || DecodeFrame(m.data).value.id !in t) ==> r == (t, None)
    ensures m.Binary? && DecodeFrame(m.data).Some? && DecodeFrame(m.data).value.id in t ==>
      var f := DecodeFrame(m.data).value;
      var e := t[f.id];
      && EntryOf(r.0, f.id) == Some(e.(chunks := e.chunks + [f.chunk], receivedSize := e.receivedSize + |f.chunk|))
      && r.1 == Some(FileProgress(f.id, e.receivedSize + |f.chunk|, e.size))
      && forall j :: j != f.id ==> EntryOf(r.0, j) == EntryOf(t, j)
  {
    match m
    case Text(c) =>
      (match c
       case FileList(files) => (t, Some(FileListReceived(files)))
       case FileRequest(id) => (t, Some(FileRequested(id)))
       case FileStart(id, name, size, mime) => (t[id := Incoming(name, size, mime, [], 0)], None)
       case FileEnd(id) =>
         if id in t then
           (t - {id}, Some(FileReceived(id, Concat(t[id].chunks), t[id].mimeType, t[id].name)))
         else (t, None)
       case Unrecognized(_) => (t, None))
    case Binary(data) =>
      match DecodeFrame(data)
      case None => (t, None)
      case Some(f) =>
        if f.id in t then
          var e := t[f.id];
          var e' := e.(chunks := e.chunks + [f.chunk], receivedSize := e.receivedSize + |f.chunk|);
          (t[f.id := e'], Some(FileProgress(f.id, e'.receivedSize, e.size)))
        else (t, None)
  }

  /** Every entry's receivedSize is the number of bytes in its chunks. */
  ghost predicate Accounted(t: Table)
  {
    forall id :: id in t ==> t[id].receivedSize == TotalLength(t[id].chunks)
  }

  /** Every message keeps receivedSize equal to the bytes received. */
  lemma ReceiveKeepsAccounting(t: Table, m: ChannelMessage)
    requires Accounted(t)
    ensures Accounted(Receive(t, m).0)
  {
    if m.Binary? && DecodeFrame(m.data).Some? && DecodeFrame(m.data).value.id in t {
      var f := DecodeFrame(m.data).value;
      ConcatAppend(t[f.id].chunks, [f.chunk]);
      assert TotalLength([f.chunk]) == |f.chunk| + TotalLength([f.chunk][1..]);
    }
  }

  /** The frame sendFile builds for a chunk of a known file is appended to that file's entry alone. */
  lemma ReceiveFrame(t: Table, id: FileId, chunk: seq<byte>)
    requires |id| < TWO_31
    ensures id in t ==>
      var r := Receive(t, Binary(EncodeFrame(id, chunk)));
      && EntryOf(r.0, id) == Some(t[id].(chunks := t[id].chunks + [chunk], receivedSize := t[id].receivedSize + |chunk|))
      && r.1 == Some(FileProgress(id, t[id].receivedSize + |chunk|, t[id].size))
      && forall j :: j != id ==> EntryOf(r.0, j) == EntryOf(t, j)
    ensures id !in t ==> Receive(t, Binary(EncodeFrame(id, chunk))) == (t, None)
  {
    DecodeEncode(id, chunk);
  }

  /** Receive over a sequence of messages, collecting the callbacks in order. */
  function ReceiveAll(t: Table, ms: seq<ChannelMessage>): (Table, seq<Notice>)
    decreases |ms|
  {
    if ms == [] then (t, [])
    else
      var (t1, n) := Receive(t, ms[0]);
      var (t2, ns) := ReceiveAll(t1, ms[1..]);
      (t2, (if n.Some? then [n.value] else []) + ns)
  }

  /** Receiving a + b is receiving a, then b from where a left the table. */
  lemma {:induction false} ReceiveAllAppend(t: Table, a: seq<ChannelMessage>, b: seq<ChannelMessage>)
    ensures ReceiveAll(t, a + b).0 == ReceiveAll(ReceiveAll(t, a).0, b).0
    ensures ReceiveAll(t, a + b).1 == ReceiveAll(t, a).1 + ReceiveAll(ReceiveAll(t, a).0, b).1
    decreases |a|
  {
    if a == [] {
      assert a + b == b;
    } else {
      assert (a + b)[0] == a[0];
      assert (a + b)[1..] == a[1..] + b;
      ReceiveAllAppend(Receive(t, a[0]).0, a[1..], b);
    }
  }

  /** The data frames for a sequence of chunks of one file, in order. */
  function FramesOf(id: FileId, chunks: seq<seq<byte>>): (r: seq<ChannelMessage>)
    ensures |r| == |chunks|
    ensures forall k :: 0 <= k < |r| ==> r[k] == Binary(EncodeFrame(id, chunks[k]))
  {
    seq(|chunks|, k requires 0 <= k < |chunks| => Binary(EncodeFrame(id, chunks[k])))
  }

  /** The frames of a + b are the frames of a followed by the frames of b. */
  lemma FramesOfAppend(id: FileId, a: seq<seq<byte>>, b: seq<seq<byte>>)
    ensures FramesOf(id, a + b) == FramesOf(id, a) + FramesOf(id, b)
  {
    assert forall k :: 0 <= k < |a| ==> (a + b)[k] == a[k];
    assert forall k :: |a| <= k < |a| + |b| ==> (a + b)[k] == b[k - |a|];
  }

  /** The data frames sendFile sends for a whole stream: one binary frame for id per chunk of every block. */
  function FileFrames(id: FileId, blocks: seq<seq<byte>>): (r: seq<ChannelMessage>)
    ensures |r| == |AllChunks(blocks)|
  {
    FramesOf(id, AllChunks(blocks))
  }

  /** The frames of a known file add their chunks, in order, to its entry. */
  lemma {:induction false} ReceiveFrames(t: Table, id: FileId, chunks: seq<seq<byte>>)
    requires |id| < TWO_31 && id in t
    ensures var t' := ReceiveAll(t, FramesOf(id, chunks)).0;
      id in t' && t'[id] == t[id].(chunks := t[id].chunks + chunks, receivedSize := t[id].receivedSize + TotalLength(chunks))
    ensures forall j :: j != id ==> EntryOf(ReceiveAll(t, FramesOf(id, chunks)).0, j) == EntryOf(t, j)
    decreases |chunks|
  {
    if chunks != [] {
      var fs := FramesOf(id, chunks);
      ReceiveFrame(t, id, chunks[0]);
      var t1 := Receive(t, fs[0]).0;
      assert fs[1..] == FramesOf(id, chunks[1..]);
      ReceiveFrames(t1, id, chunks[1..]);
      assert t[id].chunks + [chunks[0]] + chunks[1..] == t[id].chunks + chunks;
    } else {
      assert t[id].chunks + chunks == t[id].chunks;
    }
  }

  /**
   * A whole transfer as sendFile sends it (file-start, the frames, file-end)
   * delivers the concatenated stream, with its announced name and type, and
   * leaves no entry for the file; the other entries are as they were.
   */
  lemma {:induction false} StreamRoundTrip(t: Table, id: FileId, name: string, size: nat, mime: string, blocks: seq<seq<byte>>)
    requires |id| < TWO_31
    ensures var r := ReceiveAll(t, [Text(FileStart(id, name, size, mime))] + FileFrames(id, blocks) + [Text(FileEnd(id))]);
      && id !in r.0
      && (forall j :: j != id ==> EntryOf(r.0, j) == EntryOf(t, j))
      && |r.1| > 0 && r.1[|r.1| - 1] == FileReceived(id, Concat(blocks), mime, name)
  {
    var start := [Text(FileStart(id, name, size, mime))];
    var frames := FileFrames(id, blocks);
    var end := [Text(FileEnd(id))];
    var t1 := ReceiveAll(t, start).0;
    var t2 := ReceiveAll(t1, frames).0;
    ReceiveAllAppend(t, start, frames);
    ReceiveAllAppend(t, start + frames, end);
    ReceiveFrames(t1, id, AllChunks(blocks));
    AllChunksConcat(blocks);
    assert t2[id].chunks == AllChunks(blocks);
    var r3 := ReceiveAll(t2, end);
    assert r3.1 == [FileReceived(id, Concat(blocks), mime, name)];
  }

  /** The messages that can affect the entry for id: its file-start, data frames and file-end. */
  predicate About(m: ChannelMessage, id: FileId)
  {
    match m
    case Text(c) => (c.FileStart? && c.fileId == id) || (c.FileEnd? && c.fileId == id)
    case Binary(d) => DecodeFrame(d).Some? && DecodeFrame(d).value.id == id
  }

  /** The messages about id, in their order. */
  function Filter(ms: seq<ChannelMessage>, id: FileId): (r: seq<ChannelMessage>)
    ensures |r| <= |ms|
    ensures forall k :: 0 <= k < |r| ==> About(r[k], id)
  {
    if ms == [] then [] else (if About(ms[0], id) then [ms[0]] else []) + Filter(ms[1..], id)
  }

  /** A message about another file leaves the entry for id as it is. */
  lemma StepLocal(t: Table, m: ChannelMessage, id: FileId)
    requires !About(m, id)
    ensures EntryOf(Receive(t, m).0, id) == EntryOf(t, id)
  {
  }

  /** What a message does to the entry for id depends on that entry alone. */
  lemma StepCongruent(t1: Table, t2: Table, m: ChannelMessage, id: FileId)
    requires EntryOf(t1, id) == EntryOf(t2, id)
    ensures EntryOf(Receive(t1, m).0, id) == EntryOf(Receive(t2, m).0, id)
  {
  }

  /** From tables that agree on id, all the messages and only those about id leave the same entry for id. */
  lemma {:induction false} DemuxFrom(t1: Table, t2: Table, ms: seq<ChannelMessage>, id: FileId)
    requires EntryOf(t1, id) == EntryOf(t2, id)
    ensures EntryOf(ReceiveAll(t1, ms).0, id) == EntryOf(ReceiveAll(t2, Filter(ms, id)).0, id)
    decreases |ms|
  {
    if ms != [] {
      var m := ms[0];
      var t1' := Receive(t1, m).0;
      if About(m, id) {
        var f := Filter(ms, id);
        assert f == [m] + Filter(ms[1..], id);
        assert f[0] == m && f[1..] == Filter(ms[1..], id);
        StepCongruent(t1, t2, m, id);
        DemuxFrom(t1', Receive(t2, m).0, ms[1..], id);
      } else {
        assert Filter(ms, id) == Filter(ms[1..], id);
        StepLocal(t1, m, id);
        DemuxFrom(t1', t2, ms[1..], id);
      }
    }
  }

  /**
   * Transfers of different files may be interleaved on the channel: the entry
   * for a file ends up as if only the messages about that file had arrived.
   */
  lemma Demultiplexed(t: Table, ms: seq<ChannelMessage>, id: FileId)
    ensures EntryOf(ReceiveAll(t, ms).0, id) == EntryOf(ReceiveAll(t, Filter(ms, id)).0, id)
  {
    DemuxFrom(t, t, ms, id);
  }

  /** What a message adds to the channel's bufferedAmount: a frame its length; text is not counted. */
  function BufferedSize(m: ChannelMessage): (n: nat)
    ensures m.Binary? ==> n == |m.data|
    ensures m.Text? ==> n == 0
  {
    if m.Binary? then |m.data| else 0
  }

  /**
   * The sending side of an RTCDataChannel: its state, the bytes queued but not
   * yet transmitted, and everything sent on it. `bufferedAtSend[k]` is the
   * bufferedAmount observed when `outbox[k]` was sent.
   */
  class DataChannel {
    var readyState: ReadyState
    var bufferedAmount: nat
    var outbox: seq<ChannelMessage>
    var bufferedAtSend: seq<nat>

    ghost predicate Valid()
      reads this
    {
      |bufferedAtSend| == |outbox|
    }

    constructor ()
      ensures Valid()
      ensures readyState == Connecting && bufferedAmount == 0 && outbox == [] && bufferedAtSend == []
    {
      readyState := Connecting;
      bufferedAmount := 0;
      outbox := [];
      bufferedAtSend := [];
    }

    /** The transport opened the channel. */
    method Opened()
      modifies this
      ensures readyState == Open
      ensures bufferedAmount == old(bufferedAmount) && outbox == old(outbox) && bufferedAtSend == old(bufferedAtSend)
    {
      readyState := Open;
    }

    /** `send(m)` on an open channel queues m. */
    method Send(m: ChannelMessage)
      requires Valid() && readyState == Open
      modifies this
      ensures Valid() && readyState == Open
      ensures outbox == old(outbox) + [m]
      ensures bufferedAtSend == old(bufferedAtSend) + [old(bufferedAmount)]
      ensures bufferedAmount == old(bufferedAmount) + BufferedSize(m)
    {
      bufferedAtSend := bufferedAtSend + [bufferedAmount];
      outbox := outbox + [m];
      bufferedAmount := bufferedAmount + BufferedSize(m);
    }

    /**
     * One 50 ms wait of the sender: the transport has meanwhile transmitted
     * some of the queued bytes. How many is not known, only that it is some.
     */
    method Drain()
      requires bufferedAmount > 0
      modifies this
      ensures bufferedAmount < old(bufferedAmount)
      ensures readyState == old(readyState) && outbox == old(outbox) && bufferedAtSend == old(bufferedAtSend)
    {
      var d :| 0 < d <= bufferedAmount;
      bufferedAmount := bufferedAmount - d;
    }

    /** `close()`. */
    method Close()
      modifies this
      ensures readyState == Closed
      ensures outbox == old(outbox) && bufferedAtSend == old(bufferedAtSend) && bufferedAmount == old(bufferedAmount)
    {
      readyState := Closed;
    }
  }

  /** A `File` being sent: its name and type, and the blocks its stream reader delivers. */
  datatype FileSource = FileSource(name: string, mimeType: string, blocks: seq<seq<byte>>)

  /** `file.size`: the bytes its stream delivers. */
  function FileSize(f: FileSource): nat
  {
    TotalLength(f.blocks)
  }

  /** The error sendFile throws before sending anything. */
  datatype SendError = ChannelNotReady

  /** The messages one successful sendFile call queues: file-start, the frames, file-end, all for id. */
  function SendFileMessages(f: FileSource, id: FileId): (r: seq<ChannelMessage>)
    ensures |r| == |AllChunks(f.blocks)| + 2
    ensures r[0] == Text(FileStart(id, f.name, FileSize(f), MimeOrDefault(f.mimeType)))
    ensures r[|r| - 1] == Text(FileEnd(id))
  {
    [Text(FileStart(id, f.name, FileSize(f), MimeOrDefault(f.mimeType)))] + FileFrames(id, f.blocks) + [Text(FileEnd(id))]
  }

  /**
   * What sendFile sends, received from any table: exactly the file's bytes,
   * as many as the size announced, with its name and defaulted type; no
   * entry is left for the file and the other entries are as they were.
   */
  lemma SendFileDelivers(t: Table, f: FileSource, id: FileId)
    requires |id| < TWO_31
    ensures var r := ReceiveAll(t, SendFileMessages(f, id));
      && id !in r.0
      && (forall j :: j != id ==> EntryOf(r.0, j) == EntryOf(t, j))
      && |r.1| > 0 && r.1[|r.1| - 1] == FileReceived(id, Concat(f.blocks), MimeOrDefault(f.mimeType), f.name)
      && |Concat(f.blocks)| == FileSize(f)
  {
    StreamRoundTrip(t, id, f.name, FileSize(f), MimeOrDefault(f.mimeType), f.blocks);
  }

  /** sendFile's wait: poll until no more than MAX_BUFFERED bytes are queued. */
  method AwaitBufferRoom(ch: DataChannel)
    modifies ch
    ensures ch.bufferedAmount <= MAX_BUFFERED
    ensures ch.readyState == old(ch.readyState) && ch.outbox == old(ch.outbox) && ch.bufferedAtSend == old(ch.bufferedAtSend)
  {
    while ch.bufferedAmount > MAX_BUFFERED
      invariant ch.readyState == old(ch.readyState) && ch.outbox == old(ch.outbox) && ch.bufferedAtSend == old(ch.bufferedAtSend)
      decreases ch.bufferedAmount
    {
      ch.Drain();
    }
  }

  /**
   * Backpressure: every frame queued on ch from position `from` on was
   * queued while no more than MAX_BUFFERED bytes were waiting.
   */
  ghost predicate Throttled(ch: DataChannel, from: nat)
    reads ch
  {
    forall k :: from <= k < |ch.outbox| && k < |ch.bufferedAtSend| && ch.outbox[k].Binary? ==>
      ch.bufferedAtSend[k] <= MAX_BUFFERED
  }

  /** One send of sendFile: wait for room in the buffer, then queue m. */
  method SendThrottled(ch: DataChannel, m: ChannelMessage, ghost from: nat)
    requires ch.Valid() && ch.readyState == Open && Throttled(ch, from)
    modifies ch
    ensures ch.Valid() && ch.readyState == Open && Throttled(ch, from)
    ensures ch.outbox == old(ch.outbox) + [m]
    ensures Extends(ch.bufferedAtSend, old(ch.bufferedAtSend))
  {
    AwaitBufferRoom(ch);
    ch.Send(m);
  }

  /** The frames of value from offset i on: the one chunk at i, then the frames of the rest. */
  lemma FramesFrom(id: FileId, value: seq<byte>, i: nat)
    requires i < |value|
    ensures FramesOf(id, Chunks(Rest(value, i))) ==
      [Binary(EncodeFrame(id, Slice(value, i, i + CHUNK_SIZE)))] + FramesOf(id, Chunks(Rest(value, i + CHUNK_SIZE)))
    ensures |Slice(value, i, i + CHUNK_SIZE)| + |Rest(value, i + CHUNK_SIZE)| == |Rest(value, i)|
  {
    ChunksFrom(value, i);
    FramesOfAppend(id, [Slice(value, i, i + CHUNK_SIZE)], Chunks(Rest(value, i + CHUNK_SIZE)));
  }

  /** Sending the frame of the chunk at i moves it from the frames still to send to the queue. */
  lemma ChunkSent(queued: seq<ChannelMessage>, id: FileId, value: seq<byte>, i: nat, target: seq<ChannelMessage>)
    requires i < |value| && queued + FramesOf(id, Chunks(Rest(value, i))) == target
    ensures queued + [Binary(EncodeFrame(id, Slice(value, i, i + CHUNK_SIZE)))] +
      FramesOf(id, Chunks(Rest(value, i + CHUNK_SIZE))) == target
  {
    FramesFrom(id, value, i);
  }

  /** a begins with b. */
  ghost predicate Extends(a: seq<nat>, b: seq<nat>)
  {
    |b| <= |a| && a[..|b|] == b
  }

  /** A sequence that begins with one that begins with c begins with c. */
  lemma ExtendsTrans(a: seq<nat>, b: seq<nat>, c: seq<nat>)
    requires Extends(a, b) && Extends(b, c)
    ensures Extends(a, c)
  {
    assert a[..|c|] == a[..|b|][..|c|];
  }

  /**
   * sendFile's inner loop for one block of the stream: `value.slice(i, i +
   * CHUNK_SIZE)` for i = 0, CHUNK_SIZE, ... framed with id, each sent once
   * no more than MAX_BUFFERED bytes are queued; returns the bytes sent.
   */
  method SendChunks(ch: DataChannel, id: FileId, value: seq<byte>, ghost from: nat) returns (sent: nat)
    requires ch.Valid() && ch.readyState == Open && Throttled(ch, from)
    modifies ch
    ensures ch.Valid() && ch.readyState == Open && Throttled(ch, from)
    ensures ch.outbox == old(ch.outbox) + FramesOf(id, Chunks(value))
    ensures sent == |value|
    ensures Extends(ch.bufferedAtSend, old(ch.bufferedAtSend))
  {
    ghost var target := ch.outbox + FramesOf(id, Chunks(value));
    ghost var at0 := ch.bufferedAtSend;
    sent := 0;
    var i: nat := 0;
    assert value[0..] == value;
    while i < |value|
      invariant ch.Valid() && ch.readyState == Open && Throttled(ch, from)
      invariant ch.outbox + FramesOf(id, Chunks(Rest(value, i))) == target
      invariant sent + |Rest(value, i)| == |value|
      invariant Extends(ch.bufferedAtSend, at0)
      decreases |value| - i
    {
      var chunk := Slice(value, i, i + CHUNK_SIZE);
      ChunkSent(ch.outbox, id, value, i, target);
      FramesFrom(id, value, i);
      ghost var before := ch.bufferedAtSend;
      SendThrottled(ch, Binary(EncodeFrame(id, chunk)), from);
      ExtendsTrans(ch.bufferedAtSend, before, at0);
      sent := sent + |chunk|;
      i := i + CHUNK_SIZE;
    }
  }

  /** sendFile's outer loop: every block the stream reader delivers, in order, chunk by chunk. */
  method SendBlocks(ch: DataChannel, id: FileId, blocks: seq<seq<byte>>, ghost from: nat) returns (sent: nat)
    requires ch.Valid() && ch.readyState == Open && Throttled(ch, from)
    modifies ch
    ensures ch.Valid() && ch.readyState == Open && Throttled(ch, from)
    ensures ch.outbox == old(ch.outbox) + FileFrames(id, blocks)
    ensures sent == TotalLength(blocks)
    ensures Extends(ch.bufferedAtSend, old(ch.bufferedAtSend))
  {
    ghost var target := ch.outbox + FramesOf(id, AllChunks(blocks));
    ghost var at0 := ch.bufferedAtSend;
    sent := 0;
    var b := 0;
    assert blocks[0..] == blocks;
    while b < |blocks|
      invariant 0 <= b <= |blocks|
      invariant ch.Valid() && ch.readyState == Open && Throttled(ch, from)
      invariant ch.outbox + FramesOf(id, AllChunks(blocks[b..])) == target
      invariant sent + TotalLength(blocks[b..]) == TotalLength(blocks)
      invariant Extends(ch.bufferedAtSend, at0)
    {
      assert blocks[b..][1..] == blocks[b + 1..];
      FramesOfAppend(id, Chunks(blocks[b]), AllChunks(blocks[b + 1..]));
      ghost var before := ch.bufferedAtSend;
      var n := SendChunks(ch, id, blocks[b], from);
      ExtendsTrans(ch.bufferedAtSend, before, at0);
      sent := sent + n;
      b := b + 1;
    }
    assert blocks[b..] == [];
  }

  /** sendFile on an open channel: file-start, the frames of every block, file-end; returns the bytes sent. */
  method StreamFile(ch: DataChannel, file: FileSource, id: FileId) returns (sent: nat)
    requires ch.Valid() && ch.readyState == Open
    modifies ch
    ensures ch.Valid() && ch.readyState == Open
    ensures ch.outbox == old(ch.outbox) + SendFileMessages(file, id)
    ensures sent == FileSize(file)
    ensures Throttled(ch, |old(ch.outbox)|)
    ensures Extends(ch.bufferedAtSend, old(ch.bufferedAtSend))
  {
    ghost var queued := ch.outbox;
    ghost var at0 := ch.bufferedAtSend;
    ch.Send(Text(FileStart(id, file.name, FileSize(file), MimeOrDefault(file.mimeType))));
    ghost var at1 := ch.bufferedAtSend;
    assert Extends(at1, at0);
    sent := SendBlocks(ch, id, file.blocks, |queued|);
    ExtendsTrans(ch.bufferedAtSend, at1, at0);
    ghost var at2 := ch.bufferedAtSend;
    ch.Send(Text(FileEnd(id)));
    assert Extends(ch.bufferedAtSend, at2);
    ExtendsTrans(ch.bufferedAtSend, at2, at0);
  }

  /** The callback the handler invokes on an ICE state change. */
  datatype LinkEvent = LinkUp | LinkDown

  /** The client's peer-to-peer link: one RTC connection with its data channel at a time. */
  class WebRTCHandler {
    /** `dataChannel`, null when there is none. */
    var channel: DataChannel?
    /** The ICE state of `peerConnection`, None when there is no connection. */
    var iceState: Option<IceState>
    var remoteSocketId: Option<string>
    var remotePeerId: Option<string>
    var receivingFiles: Table
    /** Cleared by close; nothing in the client ever adds to it. */
    var sendingFiles: map<FileId, FileInfo>

    ghost predicate Valid()
      reads this, channel
    {
      channel != null ==> channel.Valid()
    }

    constructor ()
      ensures Valid()
      ensures channel == null && iceState == None && remoteSocketId == None && remotePeerId == None
      ensures receivingFiles == map[] && sendingFiles == map[]
    {
      channel := null;
      iceState := None;
      remoteSocketId := None;
      remotePeerId := None;
      receivingFiles := map[];
      sendingFiles := map[];
    }

    /** `isConnected()`: ICE connected and the data channel open, so that a send goes through. */
    predicate IsConnected()
      reads this, channel
      ensures IsConnected() ==> channel != null && channel.readyState == Open
    {
      iceState == Some(IceConnected) && channel != null && channel.readyState == Open
    }

    /** The calling side of `createConnection`: remember the target and open a new connection with a new channel. */
    method CreateConnection(targetSocketId: string, targetPeerId: string)
      modifies this
      ensures Valid() && fresh(channel)
      ensures remoteSocketId == Some(targetSocketId) && remotePeerId == Some(targetPeerId)
      ensures iceState == Some(IceNew) && channel.readyState == Connecting && channel.outbox == []
      ensures receivingFiles == old(receivingFiles) && sendingFiles == old(sendingFiles)
    {
      remoteSocketId := Some(targetSocketId);
      remotePeerId := Some(targetPeerId);
      iceState := Some(IceNew);
      channel := new DataChannel();
    }

    /** The answering side of `handleOffer`: remember the caller and open a new connection; the channel comes later. */
    method HandleOffer(fromSocketId: string, fromPeerId: string)
      modifies this
      ensures remoteSocketId == Some(fromSocketId) && remotePeerId == Some(fromPeerId)
      ensures iceState == Some(IceNew)
      ensures channel == old(channel) && receivingFiles == old(receivingFiles) && sendingFiles == old(sendingFiles)
    {
      remoteSocketId := Some(fromSocketId);
      remotePeerId := Some(fromPeerId);
      iceState := Some(IceNew);
    }

    /** `ondatachannel`: the channel the caller created arrives. */
    method OnDataChannel(c: DataChannel)
      requires c.Valid()
      modifies this
      ensures Valid() && channel == c
      ensures iceState == old(iceState) && remoteSocketId == old(remoteSocketId) && remotePeerId == old(remotePeerId)
      ensures receivingFiles == old(receivingFiles) && sendingFiles == old(sendingFiles)
    {
      channel := c;
    }

    /** `oniceconnectionstatechange`: connected raises onConnected, disconnected or failed onDisconnected. */
    method OnIceStateChange(s: IceState) returns (e: Option<LinkEvent>)
      requires iceState.Some?
      modifies this
      ensures iceState == Some(s)
      ensures e == Some(LinkUp) <==> s == IceConnected
      ensures e == Some(LinkDown) <==> s == IceDisconnected || s == IceFailed
      ensures channel == old(channel) && remoteSocketId == old(remoteSocketId) && remotePeerId == old(remotePeerId)
      ensures receivingFiles == old(receivingFiles) && sendingFiles == old(sendingFiles)
    {
      iceState := Some(s);
      if s == IceConnected {
        e := Some(LinkUp);
      } else if s == IceDisconnected || s == IceFailed {
        e := Some(LinkDown);
      } else {
        e := None;
      }
    }

    /** `_handleDataChannelMessage`: update receivingFiles in place and report the callback it invokes. */
    method HandleMessage(m: ChannelMessage) returns (notice: Option<Notice>)
      modifies this
      ensures (receivingFiles, notice) == Receive(old(receivingFiles), m)
      ensures channel == old(channel) && iceState == old(iceState) && sendingFiles == old(sendingFiles)
      ensures remoteSocketId == old(remoteSocketId) && remotePeerId == old(remotePeerId)
    {
      notice := None;
      if m.Text? {
        var c := m.control;
        if c.FileList? {
          notice := Some(FileListReceived(c.files));
        } else if c.FileRequest? {
          notice := Some(FileRequested(c.fileId));
        } else if c.FileStart? {
          receivingFiles := receivingFiles[c.fileId := Incoming(c.name, c.size, c.mimeType, [], 0)];
        } else if c.FileEnd? {
          if c.fileId in receivingFiles {
            var file := receivingFiles[c.fileId];
            notice := Some(FileReceived(c.fileId, Concat(file.chunks), file.mimeType, file.name));
            receivingFiles := receivingFiles - {c.fileId};
          }
        }
      } else {
        var frame := DecodeFrame(m.data);
        if frame.Some? {
          var id := frame.value.id;
          var chunk := frame.value.chunk;
          if id in receivingFiles {
            var file := receivingFiles[id];
            file := file.(chunks := file.chunks + [chunk]);
            file := file.(receivedSize := file.receivedSize + |chunk|);
            receivingFiles := receivingFiles[id := file];
            notice := Some(FileProgress(id, file.receivedSize, file.size));
          }
        }
      }
    }

    /** `sendFileList`: one file-list message, only on an open channel. */
    method SendFileList(files: seq<FileInfo>)
      requires Valid()
      modifies channel
      ensures Valid()
      ensures old(channel != null && channel.readyState == Open) ==>
        && channel.readyState == Open
        && channel.outbox == old(channel.outbox) + [Text(FileList(files))]
        && channel.bufferedAmount == old(channel.bufferedAmount)
        && channel.bufferedAtSend == old(channel.bufferedAtSend) + [old(channel.bufferedAmount)]
      ensures channel != null && old(channel.readyState) != Open ==> unchanged(channel)
    {
      if channel != null && channel.readyState == Open {
        channel.Send(Text(FileList(files)));
      }
    }

    /** `requestFile`: one file-request message, only on an open channel. */
    method RequestFile(fileId: FileId)
      requires Valid()
      modifies channel
      ensures Valid()
      ensures old(channel != null && channel.readyState == Open) ==>
        && channel.readyState == Open
        && channel.outbox == old(channel.outbox) + [Text(FileRequest(fileId))]
        && channel.bufferedAmount == old(channel.bufferedAmount)
        && channel.bufferedAtSend == old(channel.bufferedAtSend) + [old(channel.bufferedAmount)]
      ensures channel != null && old(channel.readyState) != Open ==> unchanged(channel)
    {
      if channel != null && channel.readyState == Open {
        channel.Send(Text(FileRequest(fileId)));
      }
    }

    /**
     * `sendFile(file, fileId)`: fails before sending anything unless the
     * channel is open; otherwise sends file-start (type defaulted), every
     * block in slices of at most CHUNK_SIZE bytes as data frames, waiting
     * before each frame while more than MAX_BUFFERED bytes are queued, and
     * file-end. `generatedId` stands for the random id used when fileId is empty.
     */
    method SendFile(file: FileSource, fileId: FileId, generatedId: FileId) returns (r: Result<FileId, SendError>, sendSize: nat)
      requires Valid()
      modifies channel
      ensures Valid()
      ensures r.Success? <==> old(channel != null && channel.readyState == Open)
      ensures r.Failure? ==> sendSize == 0 && (channel != null ==> unchanged(channel))
      ensures r.Success? ==> r.value == (if fileId != [] then fileId else generatedId)
      ensures r.Success? ==> channel.outbox == old(channel.outbox) + SendFileMessages(file, r.value)
      ensures r.Success? ==> sendSize == FileSize(file)
      ensures r.Success? ==> channel.readyState == Open && Extends(channel.bufferedAtSend, old(channel.bufferedAtSend))
      ensures r.Success? ==> forall k :: old(|channel.outbox|) <= k < |channel.outbox| && channel.outbox[k].Binary? ==>
        channel.bufferedAtSend[k] <= MAX_BUFFERED
    {
      if channel == null || channel.readyState != Open {
        return Failure(ChannelNotReady), 0;
      }
      var id := if fileId != [] then fileId else generatedId;
      sendSize := StreamFile(channel, file, id);
      return Success(id), sendSize;
    }

    /** `close()`: drop the channel and the connection, forget the remote peer and clear both tables. */
    method Close()
      requires Valid()
      modifies this, channel
      ensures Valid()
      ensures channel == null && iceState == None && remoteSocketId == None && remotePeerId == None
      ensures receivingFiles == map[] && sendingFiles == map[]
      ensures old(channel) != null ==> old(channel).readyState == Closed && old(channel).outbox == old(channel.outbox)
      ensures !IsConnected()
    {
      if channel != null {
        channel.Close();
        channel := null;
      }
      iceState := None;
      remoteSocketId := None;
      remotePeerId := None;
      receivingFiles := map[];
      sendingFiles := map[];
    }
  }
}
