/**
 * The browser client's bookkeeping: the catalog of files it shares, the
 * mirror of the connected peer's catalog, the files received and the
 * transfers requested; the guards on the connect and rename inputs; and the
 * icon classifiers for MIME types.
 */
module ClientApp {
  import opened Wrappers
  import opened Bytes
  import opened Text
  import opened OrderedMaps
  import opened Frames
  import opened Transfer
  import Signaling

  // ----- MIME-type classifiers -----

  const DOC_EMOJI: string := "\U{1F4C4}"
  const IMAGE_EMOJI: string := "\U{1F5BC}\U{FE0F}"
  const VIDEO_EMOJI: string := "\U{1F3AC}"
  const AUDIO_EMOJI: string := "\U{1F3B5}"
  const PDF_EMOJI: string := "\U{1F4D5}"
  const ARCHIVE_EMOJI: string := "\U{1F4E6}"
  const TEXT_EMOJI: string := "\U{1F4DD}"
  const SHEET_EMOJI: string := "\U{1F4CA}"

  /** `getFileEmoji`: the first matching test of prefix and substring checks decides. */
  function FileEmoji(mime: string): (e: string)
    ensures mime == "" ==> e == DOC_EMOJI
    ensures StartsWith(mime, "image/") ==> e == IMAGE_EMOJI
    ensures e in {DOC_EMOJI, IMAGE_EMOJI, VIDEO_EMOJI, AUDIO_EMOJI, PDF_EMOJI, ARCHIVE_EMOJI, TEXT_EMOJI, SHEET_EMOJI}
  {
    if mime == "" then DOC_EMOJI
    else if StartsWith(mime, "image/") then IMAGE_EMOJI
    else if StartsWith(mime, "video/") then VIDEO_EMOJI
    else if StartsWith(mime, "audio/") then AUDIO_EMOJI
    else if Contains(mime, "pdf") then PDF_EMOJI
    else if Contains(mime, "zip") || Contains(mime, "rar") || Contains(mime, "7z") then ARCHIVE_EMOJI
    else if Contains(mime, "word") || Contains(mime, "document") then TEXT_EMOJI
    else if Contains(mime, "excel") || Contains(mime, "spreadsheet") then SHEET_EMOJI
    else DOC_EMOJI
  }

  /** `getFileIconClass`: the CSS class of a file's icon. */
  function FileIconClass(mime: string): (c: string)
    ensures mime == "" ==> c == "default"
    ensures StartsWith(mime, "image/") ==> c == "image"
    ensures c in {"default", "image", "video", "audio", "document", "archive"}
  {
    if mime == "" then "default"
    else if StartsWith(mime, "image/") then "image"
    else if StartsWith(mime, "video/") then "video"
    else if StartsWith(mime, "audio/") then "audio"
    else if Contains(mime, "pdf") || Contains(mime, "word") || Contains(mime, "document") then "document"
    else if Contains(mime, "zip") || Contains(mime, "rar") then "archive"
    else "default"
  }

  /**
   * The two classifiers agree: the media classes go with their emoji both
   * ways, an archive class has the archive emoji, the pdf and word-processor
   * emoji have the document class, and the spreadsheet emoji the default class.
   */
  lemma ClassifiersAgree(mime: string)
    ensures FileIconClass(mime) == "image" <==> FileEmoji(mime) == IMAGE_EMOJI
    ensures FileIconClass(mime) == "video" <==> FileEmoji(mime) == VIDEO_EMOJI
    ensures FileIconClass(mime) == "audio" <==> FileEmoji(mime) == AUDIO_EMOJI
    ensures FileIconClass(mime) == "archive" ==> FileEmoji(mime) == ARCHIVE_EMOJI
    ensures FileEmoji(mime) == PDF_EMOJI || FileEmoji(mime) == TEXT_EMOJI ==> FileIconClass(mime) == "document"
    ensures FileEmoji(mime) == SHEET_EMOJI ==> FileIconClass(mime) == "default"
  {
    assert IMAGE_EMOJI != VIDEO_EMOJI && IMAGE_EMOJI != AUDIO_EMOJI && VIDEO_EMOJI != AUDIO_EMOJI;
    assert IMAGE_EMOJI != DOC_EMOJI && VIDEO_EMOJI != DOC_EMOJI && AUDIO_EMOJI != DOC_EMOJI;
    assert PDF_EMOJI != ARCHIVE_EMOJI && TEXT_EMOJI != ARCHIVE_EMOJI && SHEET_EMOJI != ARCHIVE_EMOJI;
    assert IMAGE_EMOJI[0] != PDF_EMOJI[0] && IMAGE_EMOJI[0] != TEXT_EMOJI[0] && IMAGE_EMOJI[0] != SHEET_EMOJI[0];
  }

  // ----- input guards -----

  /** The connect button: the trimmed, upper-cased target, unless it is empty or one's own id. */
  function ConnectTarget(input: string, myId: Option<string>): (r: Option<string>)
    ensures r.None? <==> AllSpace(input) || myId == Some(ToUpper(Trim(input)))
    ensures r.Some? ==> r.value == ToUpper(Trim(input)) && r.value != "" && myId != Some(r.value)
    ensures r.Some? ==> !IsJsSpace(r.value[0]) && !IsJsSpace(r.value[|r.value| - 1])
    ensures r.Some? ==> forall k :: 0 <= k < |r.value| ==> !('a' <= r.value[k] <= 'z')
  {
    var t := Trim(input);
    TrimEmptyIff(input);
    var target := ToUpper(t);
    if target != "" && Some(target) != myId then Some(target) else None
  }

  /** The save-name button: the trimmed name, unless it is empty or the current name. */
  function SaveNameRequest(input: string, myName: string): (r: Option<string>)
    ensures r.None? <==> AllSpace(input) || Trim(input) == myName
    ensures r.Some? ==> r.value == Trim(input) && r.value != "" && r.value != myName
    ensures r.Some? ==> !IsJsSpace(r.value[0]) && !IsJsSpace(r.value[|r.value| - 1])
  {
    var t := Trim(input);
    TrimEmptyIff(input);
    if t != "" && t != myName then Some(t) else None
  }

  /** `peers.find(p => p.id === id)`: the first listed peer with the short id. */
  function FindPeer(peers: seq<Signaling.PeerEntry>, id: string): (r: Option<Signaling.PeerEntry>)
    ensures r.None? <==> forall i :: 0 <= i < |peers| ==> peers[i].id != id
    ensures r.Some? ==> r.value.id == id
    ensures r.Some? ==> exists i :: 0 <= i < |peers| && peers[i] == r.value && (forall j :: 0 <= j < i ==> peers[j].id != id)
  {
    if peers == [] then None
    else if peers[0].id == id then Some(peers[0])
    else
      var r := FindPeer(peers[1..], id);
      assert forall i :: 1 <= i < |peers| ==> peers[i] == peers[1..][i - 1];
      r
  }

  // ----- catalogs -----

  /** An entry of `mySharedFiles`: the file with its id, name, size and type. */
  datatype SharedFile = SharedFile(file: FileSource, id: FileId, name: string, size: nat, mimeType: string)

  /** The entry `addFilesToShare` makes for a file under an id. */
  function ShareEntry(f: FileSource, id: FileId): (s: SharedFile)
    ensures s.file == f && s.id == id && s.name == f.name && s.size == FileSize(f) && s.mimeType == f.mimeType
  {
    SharedFile(f, id, f.name, FileSize(f), f.mimeType)
  }

  /** The entries for files[i] under ids[i]. */
  function ShareEntries(files: seq<FileSource>, ids: seq<FileId>): (r: seq<SharedFile>)
    requires |files| == |ids|
    ensures |r| == |files| && forall i :: 0 <= i < |r| ==> r[i] == ShareEntry(files[i], ids[i])
  {
    seq(|files|, i requires 0 <= i < |files| => ShareEntry(files[i], ids[i]))
  }

  /** Every shared entry is stored under its own id. */
  ghost predicate Keyed(m: OrderedMap<FileId, SharedFile>)
  {
    forall k :: k in m.entries ==> m.entries[k].id == k
  }

  /** Storing an entry under its own id keeps every entry under its own id. */
  lemma SetKeepsKeyed(m: OrderedMap<FileId, SharedFile>, k: FileId, e: SharedFile)
    requires OrderedMaps.Valid(m) && Keyed(m) && e.id == k
    ensures Keyed(Set(m, k, e))
  {
  }

  /** The `{id, name, size, type}` projection sent to the peer. */
  function Describe(s: SharedFile): (r: FileInfo)
    ensures r.id == s.id && r.name == s.name && r.size == s.size && r.mimeType == s.mimeType
  {
    FileInfo(s.id, s.name, s.size, s.mimeType)
  }

  /** `sendFileList`'s list: the projection of every shared entry, in insertion order. */
  function Catalog(m: OrderedMap<FileId, SharedFile>): (r: seq<FileInfo>)
    requires OrderedMaps.Valid(m)
    ensures |r| == |m.keys|
    ensures forall i :: 0 <= i < |r| ==> r[i] == Describe(m.entries[m.keys[i]])
    ensures Keyed(m) ==> forall i :: 0 <= i < |r| ==> r[i].id == m.keys[i]
  {
    var vs := Values(m);
    seq(|vs|, i requires 0 <= i < |vs| => Describe(vs[i]))
  }

  /** The ids of a file list, in order. */
  function Ids(files: seq<FileInfo>): (r: seq<FileId>)
    ensures |r| == |files| && forall i :: 0 <= i < |r| ==> r[i] == files[i].id
  {
    seq(|files|, i requires 0 <= i < |files| => files[i].id)
  }

  /** `peerSharedFiles` after a file list: cleared, then every entry set under its id. */
  function Mirror(files: seq<FileInfo>): (r: OrderedMap<FileId, FileInfo>)
    ensures OrderedMaps.Valid(r)
  {
    SetAll(Empty(), Ids(files), files)
  }

  /**
   * After a file list, the mirrored catalog has exactly the listed ids, each
   * with the last entry listed under it; an empty list leaves it empty.
   */
  lemma MirrorContents(files: seq<FileInfo>)
    ensures forall k :: k in Mirror(files).entries <==> exists i :: 0 <= i < |files| && files[i].id == k
    ensures forall i :: 0 <= i < |files| && (forall j :: i < j < |files| ==> files[j].id != files[i].id) ==>
      Mirror(files).entries[files[i].id] == files[i]
    ensures files == [] ==> Mirror(files).entries == map[]
  {
    var ids := Ids(files);
    forall k ensures k in ids <==> exists i :: 0 <= i < |files| && files[i].id == k {
      if k in ids {
        var i :| 0 <= i < |ids| && ids[i] == k;
        assert files[i].id == k;
      }
    }
    forall i | 0 <= i < |files| && (forall j :: i < j < |files| ==> files[j].id != files[i].id)
      ensures Mirror(files).entries[files[i].id] == files[i]
    {
      SetAllLastWins(Empty(), ids, files, i);
    }
  }

  /**
   * The peer that receives this client's catalog mirrors it exactly: the same
   * ids, each with its entry's projection.
   */
  lemma CatalogMirrored(m: OrderedMap<FileId, SharedFile>)
    requires OrderedMaps.Valid(m) && Keyed(m)
    ensures forall k :: k in Mirror(Catalog(m)).entries <==> k in m.entries
    ensures forall k :: k in m.entries ==> Mirror(Catalog(m)).entries[k] == Describe(m.entries[k])
  {
    var c := Catalog(m);
    MirrorContents(c);
    forall k | k in m.entries ensures k in Mirror(c).entries && Mirror(c).entries[k] == Describe(m.entries[k]) {
      var i :| 0 <= i < |m.keys| && m.keys[i] == k;
      assert c[i].id == k;
      forall j | i < j < |c| ensures c[j].id != c[i].id {
        assert c[j].id == m.keys[j];
      }
    }
    forall k | k in Mirror(c).entries ensures k in m.entries {
      var i :| 0 <= i < |c| && c[i].id == k;
      assert c[i].id == m.keys[i];
    }
  }

  /** Adding files under ids that are new and distinct keeps every existing entry and adds one per file. */
  lemma AddedFilesShared(m: OrderedMap<FileId, SharedFile>, files: seq<FileSource>, ids: seq<FileId>)
    requires OrderedMaps.Valid(m) && |files| == |ids| && Distinct(ids)
    ensures var r := SetAll(m, ids, ShareEntries(files, ids));
      && (forall k :: k in m.entries && k !in ids ==> r.entries[k] == m.entries[k])
      && (forall i :: 0 <= i < |ids| ==> r.entries[ids[i]] == ShareEntry(files[i], ids[i]))
      && (forall k :: k in r.entries <==> k in m.entries || k in ids)
  {
    var es := ShareEntries(files, ids);
    forall k | k in m.entries && k !in ids ensures SetAll(m, ids, es).entries[k] == m.entries[k] {
      SetAllUntouched(m, ids, es, k);
    }
    forall i | 0 <= i < |ids| ensures SetAll(m, ids, es).entries[ids[i]] == ShareEntry(files[i], ids[i]) {
      SetAllLastWins(m, ids, es, i);
    }
  }

  /** An entry of `receivedFiles`. */
  datatype ReceivedFile = ReceivedFile(blob: seq<byte>, name: string)

  datatype Direction = Sending | Receiving

  /** An entry of `transfers`. */
  datatype TransferRecord = TransferRecord(name: string, size: nat, direction: Direction, startTime: int)

  /** What the client emits on its signalling socket. */
  datatype ClientEmission = ChangeNameRequest(name: string)

  /** The client page's state. */
  class Client {
    var rtc: WebRTCHandler
    var mySocketId: Option<string>
    var myId: Option<string>
    var myName: string
    var peers: seq<Signaling.PeerEntry>
    var mySharedFiles: OrderedMap<FileId, SharedFile>
    var peerSharedFiles: OrderedMap<FileId, FileInfo>
    var receivedFiles: map<FileId, ReceivedFile>
    var transfers: map<FileId, TransferRecord>
    var socketOutbox: seq<ClientEmission>

    ghost predicate Valid()
      reads this, rtc, rtc.channel
    {
      && OrderedMaps.Valid(mySharedFiles) && Keyed(mySharedFiles)
      && OrderedMaps.Valid(peerSharedFiles)
      && rtc.Valid()
    }

    constructor ()
      ensures Valid() && fresh(rtc)
      ensures mySharedFiles.keys == [] && peerSharedFiles.keys == [] && receivedFiles == map[] && transfers == map[]
      ensures myId == None && peers == [] && socketOutbox == []
    {
      rtc := new WebRTCHandler();
      mySocketId := None;
      myId := None;
      myName := "";
      peers := [];
      mySharedFiles := Empty();
      peerSharedFiles := Empty();
      receivedFiles := map[];
      transfers := map[];
      socketOutbox := [];
    }

    /** `your-id`: remember the socket, the short id and the default name. */
    method OnYourId(socketId: string, peerId: string, animalName: string)
      modifies this
      ensures mySocketId == Some(socketId) && myId == Some(peerId) && myName == animalName + " " + peerId
      ensures rtc == old(rtc) && mySharedFiles == old(mySharedFiles) && peerSharedFiles == old(peerSharedFiles)
      ensures receivedFiles == old(receivedFiles) && transfers == old(transfers) && peers == old(peers)
      ensures socketOutbox == old(socketOutbox)
    {
      mySocketId := Some(socketId);
      myId := Some(peerId);
      myName := animalName + " " + peerId;
    }

    /** `name-changed`: adopt the name the server stored. */
    method OnNameChanged(name: string)
      modifies this
      ensures myName == name
      ensures rtc == old(rtc) && mySharedFiles == old(mySharedFiles) && peerSharedFiles == old(peerSharedFiles)
      ensures receivedFiles == old(receivedFiles) && transfers == old(transfers)
      ensures mySocketId == old(mySocketId) && myId == old(myId) && peers == old(peers) && socketOutbox == old(socketOutbox)
    {
      myName := name;
    }

    /** `peer-list`: replace the known peers. */
    method OnPeerList(list: seq<Signaling.PeerEntry>)
      modifies this
      ensures peers == list
      ensures rtc == old(rtc) && mySharedFiles == old(mySharedFiles) && peerSharedFiles == old(peerSharedFiles)
      ensures receivedFiles == old(receivedFiles) && transfers == old(transfers)
      ensures mySocketId == old(mySocketId) && myId == old(myId) && myName == old(myName) && socketOutbox == old(socketOutbox)
    {
      peers := list;
    }

    /** The save-name button: emit `change-name` only for a new, non-empty trimmed name. */
    method SaveNameClicked(input: string)
      modifies this
      ensures SaveNameRequest(input, old(myName)).Some? ==>
        socketOutbox == old(socketOutbox) + [ChangeNameRequest(SaveNameRequest(input, old(myName)).value)]
      ensures SaveNameRequest(input, old(myName)).None? ==> socketOutbox == old(socketOutbox)
      ensures myName == old(myName) && rtc == old(rtc) && mySharedFiles == old(mySharedFiles)
      ensures peerSharedFiles == old(peerSharedFiles) && receivedFiles == old(receivedFiles) && transfers == old(transfers)
      ensures mySocketId == old(mySocketId) && myId == old(myId) && peers == old(peers)
    {
      var name := SaveNameRequest(input, myName);
      if name.Some? {
        socketOutbox := socketOutbox + [ChangeNameRequest(name.value)];
      }
    }

    /** `connectToPeer`: open a connection to the listed peer with the short id; nothing for an unknown one. */
    method ConnectToPeer(targetId: string)
      requires Valid()
      modifies rtc
      ensures Valid()
      ensures FindPeer(peers, targetId).Some? ==>
        && rtc.remoteSocketId == Some(FindPeer(peers, targetId).value.socketId)
        && rtc.remotePeerId == Some(targetId)
        && fresh(rtc.channel) && rtc.channel.readyState == Connecting && rtc.channel.outbox == []
        && rtc.iceState == Some(IceNew)
        && rtc.receivingFiles == old(rtc.receivingFiles) && rtc.sendingFiles == old(rtc.sendingFiles)
      ensures FindPeer(peers, targetId).None? ==> unchanged(rtc)
    {
      var target := FindPeer(peers, targetId);
      if target.Some? {
        rtc.CreateConnection(target.value.socketId, targetId);
      }
    }

    /** The connect button: normalise the input and connect, except to nobody or to oneself. */
    method ConnectClicked(input: string)
      requires Valid()
      modifies rtc
      ensures Valid()
      ensures ConnectTarget(input, myId).None? ==> unchanged(rtc)
      ensures ConnectTarget(input, myId).Some? && FindPeer(peers, ConnectTarget(input, myId).value).Some? ==>
        && rtc.remoteSocketId == Some(FindPeer(peers, ConnectTarget(input, myId).value).value.socketId)
        && rtc.remotePeerId == ConnectTarget(input, myId)
        && fresh(rtc.channel) && rtc.channel.readyState == Connecting && rtc.channel.outbox == []
        && rtc.iceState == Some(IceNew)
        && rtc.receivingFiles == old(rtc.receivingFiles) && rtc.sendingFiles == old(rtc.sendingFiles)
      ensures ConnectTarget(input, myId).Some? && FindPeer(peers, ConnectTarget(input, myId).value).None? ==>
        unchanged(rtc)
    {
      var target := ConnectTarget(input, myId);
      if target.Some? {
        ConnectToPeer(target.value);
      }
    }

    /** `sendFileList`: announce the catalog, only while connected. */
    method SendFileList()
      requires Valid()
      modifies rtc.channel
      ensures Valid()
      ensures old(rtc.IsConnected()) ==>
        && rtc.IsConnected()
        && rtc.channel.outbox == old(rtc.channel.outbox) + [Text(FileList(Catalog(mySharedFiles)))]
        && rtc.channel.bufferedAmount == old(rtc.channel.bufferedAmount)
        && rtc.channel.bufferedAtSend == old(rtc.channel.bufferedAtSend) + [old(rtc.channel.bufferedAmount)]
      ensures !old(rtc.IsConnected()) && rtc.channel != null ==> unchanged(rtc.channel)
    {
      if rtc.IsConnected() {
        rtc.SendFileList(Catalog(mySharedFiles));
      }
    }

    /** The files given to share, under the random ids drawn for them, then a new announcement. */
    method AddFilesToShare(files: seq<FileSource>, ids: seq<FileId>)
      requires Valid() && |ids| == |files|
      modifies this, rtc.channel
      ensures Valid() && rtc == old(rtc)
      ensures mySharedFiles == SetAll(old(mySharedFiles), ids, ShareEntries(files, ids))
      ensures old(rtc.IsConnected()) ==>
        && rtc.IsConnected()
        && rtc.channel.outbox == old(rtc.channel.outbox) + [Text(FileList(Catalog(mySharedFiles)))]
        && rtc.channel.bufferedAmount == old(rtc.channel.bufferedAmount)
        && rtc.channel.bufferedAtSend == old(rtc.channel.bufferedAtSend) + [old(rtc.channel.bufferedAmount)]
      ensures !old(rtc.IsConnected()) && rtc.channel != null ==> unchanged(rtc.channel)
      ensures peerSharedFiles == old(peerSharedFiles) && receivedFiles == old(receivedFiles) && transfers == old(transfers)
      ensures mySocketId == old(mySocketId) && myId == old(myId) && myName == old(myName)
      ensures peers == old(peers) && socketOutbox == old(socketOutbox)
    {
      var shared := AddAll(mySharedFiles, files, ids);
      mySharedFiles := shared;
      SendFileList();
    }

    /** The loop of `addFilesToShare`: set each file's entry under its id, in order. */
    static method AddAll(m: OrderedMap<FileId, SharedFile>, files: seq<FileSource>, ids: seq<FileId>)
      returns (r: OrderedMap<FileId, SharedFile>)
      requires OrderedMaps.Valid(m) && Keyed(m) && |ids| == |files|
      ensures r == SetAll(m, ids, ShareEntries(files, ids))
      ensures OrderedMaps.Valid(r) && Keyed(r)
    {
      var entries := ShareEntries(files, ids);
      r := m;
      var i := 0;
      assert ids[..0] == [] && entries[..0] == [];
      while i < |files|
        invariant 0 <= i <= |files|
        invariant OrderedMaps.Valid(r) && Keyed(r)
        invariant r == SetAll(m, ids[..i], entries[..i])
      {
        SetAllStep(m, ids, entries, i);
        SetKeepsKeyed(r, ids[i], entries[i]);
        r := Set(r, ids[i], entries[i]);
        i := i + 1;
      }
      assert ids[..i] == ids && entries[..i] == entries;
    }

    /** `removeSharedFile`: drop the one entry, then announce the catalog again. */
    method RemoveSharedFile(fileId: FileId)
      requires Valid()
      modifies this, rtc.channel
      ensures Valid() && rtc == old(rtc)
      ensures mySharedFiles == Delete(old(mySharedFiles), fileId)
      ensures old(rtc.IsConnected()) ==>
        && rtc.IsConnected()
        && rtc.channel.outbox == old(rtc.channel.outbox) + [Text(FileList(Catalog(mySharedFiles)))]
        && rtc.channel.bufferedAmount == old(rtc.channel.bufferedAmount)
        && rtc.channel.bufferedAtSend == old(rtc.channel.bufferedAtSend) + [old(rtc.channel.bufferedAmount)]
      ensures !old(rtc.IsConnected()) && rtc.channel != null ==> unchanged(rtc.channel)
      ensures peerSharedFiles == old(peerSharedFiles) && receivedFiles == old(receivedFiles) && transfers == old(transfers)
      ensures mySocketId == old(mySocketId) && myId == old(myId) && myName == old(myName)
      ensures peers == old(peers) && socketOutbox == old(socketOutbox)
    {
      mySharedFiles := Delete(mySharedFiles, fileId);
      SendFileList();
    }

    /** `onFileListReceived`: replace the mirrored catalog with the list. */
    method OnFileListReceived(files: seq<FileInfo>)
      requires Valid()
      modifies this
      ensures Valid()
      ensures peerSharedFiles == Mirror(files)
      ensures rtc == old(rtc) && mySharedFiles == old(mySharedFiles)
      ensures receivedFiles == old(receivedFiles) && transfers == old(transfers)
      ensures mySocketId == old(mySocketId) && myId == old(myId) && myName == old(myName)
      ensures peers == old(peers) && socketOutbox == old(socketOutbox)
    {
      var ids := Ids(files);
      peerSharedFiles := Empty();
      var i := 0;
      assert ids[..0] == [] && files[..0] == [];
      while i < |files|
        invariant 0 <= i <= |files|
        invariant peerSharedFiles == SetAll(Empty(), ids[..i], files[..i])
        invariant rtc == old(rtc) && mySharedFiles == old(mySharedFiles)
        invariant receivedFiles == old(receivedFiles) && transfers == old(transfers)
        invariant mySocketId == old(mySocketId) && myId == old(myId) && myName == old(myName)
        invariant peers == old(peers) && socketOutbox == old(socketOutbox)
      {
        SetAllStep(Empty(), ids, files, i);
        peerSharedFiles := Set(peerSharedFiles, files[i].id, files[i]);
        i := i + 1;
      }
      assert ids[..i] == ids && files[..i] == files;
    }

    /**
     * `onFileRequest`: send the shared file with that id; nothing for an
     * unknown id. `generatedId` is the random id sendFile draws for an empty one.
     */
    method OnFileRequest(fileId: FileId, generatedId: FileId)
      requires Valid()
      modifies rtc.channel
      ensures Valid()
      ensures fileId in mySharedFiles.entries && old(rtc.channel != null && rtc.channel.readyState == Open) ==>
        rtc.channel.outbox == old(rtc.channel.outbox) +
          SendFileMessages(mySharedFiles.entries[fileId].file, if fileId != [] then fileId else generatedId)
      ensures fileId in mySharedFiles.entries && old(rtc.channel != null && rtc.channel.readyState == Open) ==>
        rtc.channel.readyState == Open && Extends(rtc.channel.bufferedAtSend, old(rtc.channel.bufferedAtSend))
      ensures old(rtc.IsConnected()) ==> rtc.IsConnected()
      ensures !(fileId in mySharedFiles.entries && old(rtc.channel != null && rtc.channel.readyState == Open))
        ==> rtc.channel != null ==> unchanged(rtc.channel)
    {
      if fileId in mySharedFiles.entries {
        var entry := mySharedFiles.entries[fileId];
        var _, _ := rtc.SendFile(entry.file, fileId, generatedId);
      }
    }

    /** `requestFile`: record the incoming transfer and ask for the file, only for a listed id while connected. */
    method RequestFile(fileId: FileId, now: int)
      requires Valid()
      modifies this, rtc.channel
      ensures Valid() && rtc == old(rtc)
      ensures fileId in peerSharedFiles.entries && old(rtc.IsConnected()) ==>
        var f := peerSharedFiles.entries[fileId];
        && transfers == old(transfers)[fileId := TransferRecord(f.name, f.size, Receiving, now)]
        && rtc.IsConnected()
        && rtc.channel.outbox == old(rtc.channel.outbox) + [Text(FileRequest(fileId))]
        && rtc.channel.bufferedAmount == old(rtc.channel.bufferedAmount)
        && rtc.channel.bufferedAtSend == old(rtc.channel.bufferedAtSend) + [old(rtc.channel.bufferedAmount)]
      ensures !(fileId in peerSharedFiles.entries && old(rtc.IsConnected())) ==>
        transfers == old(transfers) && (rtc.channel != null ==> unchanged(rtc.channel))
      ensures mySharedFiles == old(mySharedFiles) && peerSharedFiles == old(peerSharedFiles)
      ensures receivedFiles == old(receivedFiles)
      ensures mySocketId == old(mySocketId) && myId == old(myId) && myName == old(myName)
      ensures peers == old(peers) && socketOutbox == old(socketOutbox)
    {
      if fileId in peerSharedFiles.entries && rtc.IsConnected() {
        var f := peerSharedFiles.entries[fileId];
        transfers := transfers[fileId := TransferRecord(f.name, f.size, Receiving, now)];
        rtc.RequestFile(fileId);
      }
    }

    /** `hideConnectedUI`: besides the page, it empties all four file maps. */
    method HideConnectedUI()
      modifies this
      ensures mySharedFiles.keys == [] && mySharedFiles.entries == map[]
      ensures peerSharedFiles.keys == [] && peerSharedFiles.entries == map[]
      ensures receivedFiles == map[] && transfers == map[]
      ensures rtc == old(rtc) && mySocketId == old(mySocketId) && myId == old(myId) && myName == old(myName)
      ensures peers == old(peers) && socketOutbox == old(socketOutbox)
    {
      mySharedFiles := Empty();
      peerSharedFiles := Empty();
      receivedFiles := map[];
      transfers := map[];
    }

    /** `disconnectPeer`: close the link and empty every file map. */
    method DisconnectPeer()
      requires Valid()
      modifies this, rtc, rtc.channel
      ensures Valid() && rtc == old(rtc)
      ensures rtc.channel == null && rtc.iceState == None && rtc.remotePeerId == None && rtc.remoteSocketId == None
      ensures rtc.receivingFiles == map[] && rtc.sendingFiles == map[]
      ensures old(rtc.channel) != null ==>
        old(rtc.channel).readyState == Closed && old(rtc.channel).outbox == old(rtc.channel.outbox)
      ensures mySharedFiles.keys == [] && mySharedFiles.entries == map[]
      ensures peerSharedFiles.keys == [] && peerSharedFiles.entries == map[]
      ensures receivedFiles == map[] && transfers == map[]
      ensures mySocketId == old(mySocketId) && myId == old(myId) && myName == old(myName)
      ensures peers == old(peers) && socketOutbox == old(socketOutbox)
    {
      rtc.Close();
      HideConnectedUI();
      peerSharedFiles := Empty();
      transfers := map[];
    }

    /** `onDataChannelOpen`: announce the catalog to the new peer. */
    method OnDataChannelOpen()
      requires Valid()
      modifies rtc.channel
      ensures Valid()
      ensures old(rtc.IsConnected()) ==>
        && rtc.IsConnected()
        && rtc.channel.outbox == old(rtc.channel.outbox) + [Text(FileList(Catalog(mySharedFiles)))]
        && rtc.channel.bufferedAmount == old(rtc.channel.bufferedAmount)
        && rtc.channel.bufferedAtSend == old(rtc.channel.bufferedAtSend) + [old(rtc.channel.bufferedAmount)]
      ensures !old(rtc.IsConnected()) && rtc.channel != null ==> unchanged(rtc.channel)
    {
      SendFileList();
    }

    /**
     * A message on the data channel: the handler updates its table and the
     * callback it raises is acted on here. A file list replaces the mirror,
     * a request sends the file, a completed file is kept for saving.
     */
    method OnChannelMessage(m: ChannelMessage, generatedId: FileId)
      requires Valid()
      modifies this, rtc, rtc.channel
      ensures Valid() && rtc == old(rtc)
      ensures rtc.channel == old(rtc.channel) && rtc.iceState == old(rtc.iceState)
      ensures old(rtc.IsConnected()) ==> rtc.IsConnected()
      ensures rtc.remoteSocketId == old(rtc.remoteSocketId) && rtc.remotePeerId == old(rtc.remotePeerId)
      ensures rtc.sendingFiles == old(rtc.sendingFiles)
      ensures rtc.receivingFiles == Receive(old(rtc.receivingFiles), m).0
      ensures var n := Receive(old(rtc.receivingFiles), m).1;
        && (n.Some? && n.value.FileListReceived? ==> peerSharedFiles == Mirror(n.value.files))
        && (n.Some? && n.value.FileReceived? ==>
              receivedFiles == old(receivedFiles)[n.value.fileId := ReceivedFile(n.value.blob, n.value.name)])
        && (!(n.Some? && n.value.FileListReceived?) ==> peerSharedFiles == old(peerSharedFiles))
        && (!(n.Some? && n.value.FileReceived?) ==> receivedFiles == old(receivedFiles))
      ensures var n := Receive(old(rtc.receivingFiles), m).1;
        var sends := n.Some? && n.value.FileRequested? && n.value.fileId in mySharedFiles.entries &&
          old(rtc.channel != null && rtc.channel.readyState == Open);
        && (sends ==>
              rtc.channel.outbox == old(rtc.channel.outbox) +
                SendFileMessages(mySharedFiles.entries[n.value.fileId].file,
                                 if n.value.fileId != [] then n.value.fileId else generatedId))
        && (sends ==>
              rtc.channel.readyState == Open && Extends(rtc.channel.bufferedAtSend, old(rtc.channel.bufferedAtSend)))
        && (!sends && old(rtc.channel) != null ==> unchanged(old(rtc.channel)))
      ensures mySharedFiles == old(mySharedFiles) && transfers == old(transfers)
      ensures mySocketId == old(mySocketId) && myId == old(myId) && myName == old(myName)
      ensures peers == old(peers) && socketOutbox == old(socketOutbox)
    {
      var notice := rtc.HandleMessage(m);
      if notice.Some? {
        match notice.value
        case FileListReceived(files) =>
          OnFileListReceived(files);
        case FileRequested(id) =>
          OnFileRequest(id, generatedId);
        case FileReceived(id, blob, _, name) =>
          receivedFiles := receivedFiles[id := ReceivedFile(blob, name)];
        case FileProgress(_, _, _) =>
      }
    }
  }
}
