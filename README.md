# Peer-to-peer file sharing: a Dafny model

This project models the logic of a browser-to-browser file-sharing application.

A small Socket.IO signalling server does three things:
- it registers every connected browser under a random six-character short id and an animal name;
- it broadcasts the peer list;
- it relays WebRTC offers, answers and ICE candidates between sockets.

The browser then opens an RTC data channel to the peer it connected to. On that channel:
- each side announces the catalog of files it shares;
- a side requests files by id;
- the other side streams the requested file as binary frames `[int32 little-endian id length][id bytes][chunk bytes]`, between a `file-start` and a `file-end` control message.

The model is in four parts, one per source file of the core. There are also small shared modules: `Wrappers`, `Bytes`, `Text` and `OrderedMaps`.

- **Transfer channel** (`Frames`, `Transfer`; `public/webrtc.js`):
  - the frame codec and its round trip in both directions;
  - the chunking of every stream block into slices of at most 16384 bytes;
  - the receive table `receivingFiles` as a function of the messages received, plus the class `WebRTCHandler` that updates it in place;
  - the sending side of a data channel as a class `DataChannel`, with a ready state, a `bufferedAmount` and the queue of messages sent;
  - `sendFile`'s nested loops and its backpressure wait as methods over that class.
- **Signalling server** (`Signaling`; `server/index.js`): the registry of peers keyed by socket id in insertion order, as the class `SignalingServer`, with everything it emits. Its handlers are methods. The peer-list snapshot and the rename rule are functions.
- **Client bookkeeping** (`ClientApp`; `public/app.js`):
  - the page's maps `mySharedFiles`, `peerSharedFiles`, `receivedFiles` and `transfers`, as fields of the class `Client`;
  - the handlers that fill and clear those maps;
  - the connect and rename input guards;
  - the two MIME-type classifiers.
- **Client information** (`ClientInfo`; `server/utils.js`): `getClientIP` and `parseUserAgent` as pure functions. `server/index.js` holds copies of both with the same branches, and the model follows `server/utils.js`.

Modelling conventions:
- A JavaScript `Map` whose iteration order is observable (the registry and both catalogs) is an `OrderedMap`: the keys in insertion order, plus a Dafny `map`.
- A file id is the sequence of its UTF-8 bytes.
- JSON control messages are the datatype `Control`.
- A `Blob` is the concatenation of its chunks.
- An emission on a socket is an append to the server's `sent` sequence, tagged with its audience.
- The values the source draws at random are parameters: the short id, the animal, file ids, and the id `sendFile` draws for an empty one.
- The 50 ms wait of the backpressure loop is `DataChannel.Drain`. It removes some positive, unspecified number of queued bytes.

## Model

| member | source | states |
|---|---|---|
| Bytes.Int32LE | public/webrtc.js:276-278 | the length field is exactly four bytes |
| Bytes.ReadInt32LE | public/webrtc.js:207 | `getInt32(0, true)` yields a signed 32-bit value |
| Bytes.Int32RoundTrip | public/webrtc.js:207 | reading back a written 32-bit length gives that length, whatever bytes follow it |
| Bytes.RelativeIndex | public/webrtc.js:273 | a slice index counts from the end when negative and is clamped to the sequence |
| Bytes.Slice | public/webrtc.js:273 | within bounds, `slice(start, end)` is exactly the subrange; it is never longer than its source |
| Bytes.SliceFrom | public/webrtc.js:209 | within bounds, `slice(start)` is exactly the suffix |
| Bytes.Concat | public/webrtc.js:195 | the assembled blob has as many bytes as all chunks together |
| Bytes.ConcatAppend | public/webrtc.js:195 | assembling a + b is assembling a followed by assembling b, and the lengths add up |
| Frames.EncodeFrame | public/webrtc.js:275-282 | the frame is 4 + id length + chunk length bytes: the little-endian length, then the id, then the chunk |
| Frames.DecodeFrame | public/webrtc.js:206-209 | no frame exactly when fewer than 4 bytes arrive; otherwise, for a length field that fits, the id is bytes [4, 4+len) and the chunk the rest |
| Frames.DecodeEncode | public/webrtc.js:206-209 | decoding a frame sendFile built gives back exactly its id and its chunk |
| Frames.Int32Reencode | public/webrtc.js:207 | the four length bytes of any message are the encoding of the length they hold |
| Frames.EncodeDecode | public/webrtc.js:206-209 | every binary message whose length field fits is the frame of what it decodes to |
| Frames.ChunkBounds | public/webrtc.js:272-273 | every chunk of a block is non-empty and at most 16384 bytes; every chunk but the last is full |
| Frames.ChunksConcat | public/webrtc.js:272-273 | the chunks of a block concatenate back to the block |
| Frames.ChunkCount | public/webrtc.js:272-273 | a block of n bytes gives ceil(n / 16384) chunks |
| Frames.Chunks | public/webrtc.js:272-273 | the inner loop's slices `value.slice(i, i + 16384)` for i = 0, 16384, … below the block's length; they are characterised by ChunkBounds, ChunksConcat and ChunkCount |
| Frames.ChunksFrom | public/webrtc.js:272-273 | the chunks from offset i are the slice [i, i+16384) followed by the chunks from i+16384 |
| Frames.Rest | public/webrtc.js:272 | the bytes from offset i on, none once i passes the end |
| Frames.AllChunksConcat | public/webrtc.js:268-297 | the chunks of all blocks carry exactly the stream's bytes, in order, and as many of them |
| Frames.AllChunksBounds | public/webrtc.js:272-273 | every chunk of the whole stream is non-empty and at most 16384 bytes |
| Transfer.MimeOrDefault | public/webrtc.js:260 | an empty type becomes `application/octet-stream`; any other type is kept |
| Transfer.SendFileMessages | public/webrtc.js:255-303 | what sendFile queues: first file-start with the name, the size and the defaulted type, last file-end, and one frame per chunk in between |
| Transfer.SendFileDelivers | public/webrtc.js:255-303 | the receiver of what sendFile queued gets exactly the file's bytes, as many as the announced size, with the file's name and defaulted type, and is left with no entry for the file and every other entry unchanged |
| Transfer.Receive | public/webrtc.js:162-222 | file-list and file-request only raise their callback. file-start sets a fresh entry with no chunks and size 0 for its id, replacing an old one. A frame for a known id appends its chunk and adds its length to that entry alone; an unknown id or a message under 4 bytes changes nothing. file-end of a known id delivers the in-order concatenation of its chunks with its name and type and deletes only that entry; of an unknown id, nothing |
| Transfer.ReceiveKeepsAccounting | public/webrtc.js:213-214 | every message keeps each entry's receivedSize equal to the bytes in its chunks |
| Transfer.ReceiveFrame | public/webrtc.js:211-220 | the frame of a chunk for a known file grows that file's entry alone and reports the new received size; for an unknown file nothing changes |
| Transfer.ReceiveAllAppend | public/webrtc.js:156-158 | receiving a + b is receiving a, then b from the table a left, with the callbacks in order |
| Transfer.FramesOf | public/webrtc.js:289 | one data frame per chunk, in order, each for the same id |
| Transfer.FramesOfAppend | public/webrtc.js:289 | the frames of a + b are the frames of a followed by those of b |
| Transfer.FileFrames | public/webrtc.js:268-297 | one data frame per chunk of every block; what they deliver is stated by StreamRoundTrip and SendFileDelivers |
| Transfer.ReceiveFrames | public/webrtc.js:211-215 | a file's frames append its chunks in order to its entry and its byte count to receivedSize; no other entry changes |
| Transfer.StreamRoundTrip | public/webrtc.js:181-201 | file-start, the frames of a stream and file-end deliver exactly the stream's bytes with the announced name and type, and leave no entry for the file and every other entry as it was |
| Transfer.Filter | public/webrtc.js:211 | the messages kept are exactly those about the given file |
| Transfer.StepLocal | public/webrtc.js:182 | a message about another file leaves a file's entry as it is |
| Transfer.StepCongruent | public/webrtc.js:162-222 | what a message does to a file's entry depends on that entry alone |
| Transfer.DemuxFrom | public/webrtc.js:162-222 | from equal entries, receiving all the messages and receiving only those about the file end at the same entry |
| Transfer.Demultiplexed | public/webrtc.js:211-215 | with transfers interleaved on the channel, each file's entry ends as if only its own messages had arrived |
| Transfer.BufferedSize | public/webrtc.js:289 | a frame adds its length to bufferedAmount |
| Transfer.DataChannel.constructor | public/webrtc.js:50-53 | a new channel is connecting, with nothing queued |
| Transfer.DataChannel.Opened | public/webrtc.js:142-145 | opening changes only the ready state |
| Transfer.DataChannel.Send | public/webrtc.js:289 | a send on an open channel appends the message to the queue, records the bufferedAmount it was sent at and adds the message's size |
| Transfer.DataChannel.Drain | public/webrtc.js:285-287 | a wait strictly lowers bufferedAmount and changes nothing else |
| Transfer.DataChannel.Close | public/webrtc.js:322 | closing sets the ready state and keeps what was sent, its send depths and the bytes still buffered |
| Transfer.AwaitBufferRoom | public/webrtc.js:285-287 | the wait loop ends with bufferedAmount at most 16 MiB, without sending anything |
| Transfer.SendThrottled | public/webrtc.js:285-289 | a send after the wait appends its message, and every frame is still queued at most 16 MiB deep |
| Transfer.FramesFrom | public/webrtc.js:272-273 | the frames from offset i are the frame of the chunk at i followed by the frames of the rest; the byte counts add up |
| Transfer.ChunkSent | public/webrtc.js:289 | sending the chunk at i moves its frame from the frames still to send to the queue |
| Transfer.ExtendsTrans | public/webrtc.js:289 | a record of send depths that extends one that extends another extends the last |
| Transfer.SendChunks | public/webrtc.js:272-296 | one block is queued as the frames of its chunks, in slice order; each frame waits for room; sendSize grows by the block's length |
| Transfer.SendBlocks | public/webrtc.js:264-297 | the whole stream is queued as the frames of all blocks' chunks, in order, with sendSize equal to the total length and every frame sent at most 16 MiB deep |
| Transfer.StreamFile | public/webrtc.js:252-303 | an open channel receives exactly file-start (type defaulted), the frames in slice order and file-end, all for id, and sendSize is the file's length; the channel stays open and its record of send depths only grows |
| Transfer.WebRTCHandler.constructor | public/webrtc.js:7-16 | no connection, no channel, no remote peer and empty tables |
| Transfer.WebRTCHandler.IsConnected | public/webrtc.js:336-341 | connected implies a data channel that is open, so a send on it goes through |
| Transfer.WebRTCHandler.CreateConnection | public/webrtc.js:43-53 | remembers the target socket and peer and creates a fresh, connecting data channel; the tables are kept |
| Transfer.WebRTCHandler.HandleOffer | public/webrtc.js:72-76 | remembers the calling socket and peer and starts a connection, keeping the tables |
| Transfer.WebRTCHandler.OnDataChannel | public/webrtc.js:131-135 | the arriving channel becomes the handler's channel and nothing else changes |
| Transfer.WebRTCHandler.OnIceStateChange | public/webrtc.js:120-129 | connected raises onConnected; disconnected or failed raises onDisconnected; other states raise nothing |
| Transfer.WebRTCHandler.HandleMessage | public/webrtc.js:162-222 | the table is updated in place exactly as `Receive` states and the same callback is raised; the channel and remote ids are untouched |
| Transfer.WebRTCHandler.SendFileList | public/webrtc.js:225-233 | exactly one file-list message, and only on an open channel, which stays open with its bytes buffered unchanged and the depth of that send recorded; otherwise the channel is untouched |
| Transfer.WebRTCHandler.RequestFile | public/webrtc.js:236-244 | exactly one file-request message, and only on an open channel, which stays open with its bytes buffered unchanged and the depth of that send recorded; otherwise the channel is untouched |
| Transfer.WebRTCHandler.SendFile | public/webrtc.js:247-317 | it fails exactly when there is no open channel, before sending anything and with sendSize 0. Otherwise it uses fileId, or the generated id when that is empty. It queues exactly file-start, the frames in slice order and file-end for that id, no frame queued behind more than 16 MiB, and yields sendSize equal to the file's length; the channel stays open and its record of send depths only grows. The source returns only the id; the model also exposes its local `sendSize` as a second output |
| Transfer.WebRTCHandler.Close | public/webrtc.js:320-333 | the channel is closed and dropped, the connection and remote ids are cleared, both tables are emptied, and the handler is no longer connected |
| OrderedMaps.Empty | public/app.js:53-56 | a new Map has no keys |
| OrderedMaps.Set | public/app.js:264 | `set` stores the value under the key, keeps every other entry, keeps the order for an existing key and appends a new key at the end |
| OrderedMaps.SetAll | public/app.js:264 | setting a list of entries leaves exactly the old keys plus the new ones |
| OrderedMaps.SetAllStep | public/app.js:264 | setting one more entry is one more `set` |
| OrderedMaps.SetAllUntouched | public/app.js:379-388 | a key not among those set keeps its value |
| OrderedMaps.SetAllLastWins | public/app.js:264 | a key ends with the value of its last occurrence in the list |
| OrderedMaps.Without | server/index.js:389 | the key order without the deleted key |
| OrderedMaps.WithoutDistinct | server/index.js:389 | removing a key from a duplicate-free order removes exactly that key |
| OrderedMaps.Delete | public/app.js:422 | `delete` removes exactly that key from the entries and the order; every other entry keeps its value |
| OrderedMaps.Values | public/app.js:430 | the values, one per key, in insertion order |
| Signaling.EntryFor | server/index.js:406-409 | a list element carries the socket id and every field of the record |
| Signaling.Snapshot | server/index.js:405-410 | one list element per registry entry, in insertion order |
| Signaling.SnapshotFaithful | server/index.js:405-410 | a socket is in the snapshot exactly when it is registered, exactly once, and with exactly its record |
| Signaling.NewRecord | server/index.js:258-266 | a new record has the short id, the name `animal + " " + id`, status online, the client's address and the parsed device |
| Signaling.UserAgentOf | server/index.js:252 | the handshake's user-agent header, or the empty string when there is none |
| Signaling.RenameTo | server/index.js:287-288 | no new name exactly when the name is missing or all blanks; otherwise the trimmed name when it has at most 30 characters and its first 30 characters when longer, non-empty and starting with a non-blank |
| Signaling.RegisterKeepsIdsUnique | server/index.js:249 | registering under a short id no record has keeps short ids unique; the server itself never checks this |
| Signaling.SignalingServer.constructor | server/index.js:28 | an empty registry and nothing sent |
| Signaling.SignalingServer.FindSocketByPeerId | server/index.js:395-402 | none exactly when no record has the id; otherwise the first socket, in registry order, whose record has it |
| Signaling.SignalingServer.BroadcastPeerList | server/index.js:405-411 | sends the full snapshot to everyone; the registry is unchanged |
| Signaling.SignalingServer.OnConnection | server/index.js:248-281 | the socket's record is set, then your-id goes to that socket and the snapshot to everyone |
| Signaling.SignalingServer.ChangeName | server/index.js:285-293 | for a registered socket and a usable name, only that record's name changes, then a broadcast and a name-changed ack with the stored name; otherwise nothing changes and nothing is sent |
| Signaling.SignalingServer.ConnectToPeer | server/index.js:298-310 | when no record has the id, only the sender gets peer-not-found with that id; otherwise the first matching socket gets connection-request with the sender's short and socket ids |
| Signaling.SignalingServer.RelayTo | server/index.js:314-315 | an event reaches a live target and is silently dropped otherwise |
| Signaling.SignalingServer.RelayOffer | server/index.js:313-323 | the offer reaches a live target unchanged, with the sender's socket and short ids; otherwise nothing is sent |
| Signaling.SignalingServer.RelayAnswer | server/index.js:326-336 | the answer reaches a live target unchanged, with the sender's socket and short ids; otherwise nothing is sent |
| Signaling.SignalingServer.RelayCandidate | server/index.js:339-347 | the candidate reaches a live target unchanged, with only the sender's socket id; otherwise nothing is sent |
| Signaling.SignalingServer.RelayFileRequest | server/index.js:352-362 | the file description reaches a live target with the sender's socket and short ids; otherwise nothing is sent |
| Signaling.SignalingServer.RelayFileAccept | server/index.js:365-373 | file-accepted reaches a live target with the sender's socket id; otherwise nothing is sent |
| Signaling.SignalingServer.RelayFileReject | server/index.js:376-383 | file-rejected reaches a live target with the sender's socket id; otherwise nothing is sent |
| Signaling.SignalingServer.Disconnect | server/index.js:387-391 | exactly the socket's record is removed (every other record keeps its value and order), then the snapshot goes to everyone |
| Text.SkipSpace | server/index.js:288 | the index of the first non-blank character |
| Text.SkipSpaceBack | server/index.js:288 | the index after the last non-blank character |
| Text.TrimBounds | server/index.js:288 | the bounds of the trimmed text |
| Text.IsJsSpace | server/index.js:288 | the blanks `trim` removes: among ASCII exactly tab, line feed, vertical tab, form feed, carriage return and space; never a letter or digit |
| Text.Trim | server/utils.js:115 | `trim()` is a subrange of its input with no blank at either edge |
| Text.TrimEmptyIff | public/app.js:187 | a trimmed text is empty exactly when the text is all blanks |
| Text.Truncate | server/index.js:288 | `substring(0, n)` is the prefix of length min(n, length) |
| Text.IndexFrom | server/utils.js:123 | the first occurrence of a pattern from a position, if any |
| Text.IndexOf | server/utils.js:123 | the first occurrence of a pattern, if any |
| Text.Contains | server/utils.js:134 | `includes` holds exactly when the pattern occurs at some position |
| Text.StartsWith | public/app.js:606 | `startsWith` holds exactly when the pattern occurs at position 0, and then the text includes it |
| Text.OccurrenceContains | server/utils.js:123 | a pattern found at an index is contained in the text |
| Text.OccurrenceHasChar | server/utils.js:115 | a text that contains a pattern contains each of its characters |
| Text.MissingCharNotContained | server/utils.js:115 | a text without some character of a pattern does not contain the pattern |
| Text.FirstSegment | server/utils.js:115 | `split(",")[0]` is a prefix without the separator, ending at the first separator or at the end |
| Text.ReplaceFirst | server/utils.js:122-124 | `replace` of a string pattern rewrites only its first occurrence, or nothing when absent |
| Text.LowerChar | server/utils.js:131 | an ASCII capital becomes its small letter (code point plus 32), any other ASCII character is kept |
| Text.ToLower | server/utils.js:131 | a lower-cased text has no ASCII capital |
| Text.ToLowerAppend | server/utils.js:131 | lower-casing a + b gives the lower case of a followed by that of b |
| Text.LowerOccurs | server/utils.js:131-134 | a pattern found at a position in a text is found, lower-cased, in the lower-cased text |
| Text.ToLowerAscii | server/utils.js:131 | an ASCII text keeps its length when lower-cased, and each character becomes its LowerChar in place |
| Text.LowerHone | server/utils.js:134 | `hone`, the tail of the marker, is its own lower case |
| Text.LowerIPhone | server/utils.js:134 | `iPhone` lower-cases to the marker `iphone` |
| Text.UpperChar | public/app.js:186 | a small ASCII letter becomes its capital (code point minus 32); every other character is kept; no small ASCII letter results |
| Text.ToUpper | public/app.js:186 | an upper-cased text keeps its length; each small ASCII letter becomes its capital and every other character is kept, so no small ASCII letter is left |
| ClientInfo.ClientIP | server/utils.js:110-125 | a forwarded header wins and gives a trimmed text without commas; else a real-ip header is returned verbatim; else the address with `::ffff:` removed once and `::1` renamed once |
| ClientInfo.ForwardedForFirstHop | server/utils.js:113-116 | with a forwarded header, the result is the trimmed first comma-separated segment and depends on nothing else |
| ClientInfo.MappedAddressUnwrapped | server/utils.js:122-124 | without proxy headers, an IPv4-mapped address becomes its IPv4 part |
| ClientInfo.LoopbackRenamed | server/utils.js:122-124 | without proxy headers, `::1` becomes `127.0.0.1` |
| ClientInfo.IPhoneModelAsWritten | server/utils.js:134-144 | the iPhone branch exactly as written always yields an iPhone model name |
| ClientInfo.ProMaxReportedAsPro | server/utils.js:135-138 | as written, an iPhone 13 Pro Max agent is reported as iPhone 13 Pro |
| ClientInfo.IPhoneModel | server/utils.js:134-144 | the corrected chain reports a `13 Pro Max` agent without the `iPhone14,2` code as iPhone 13 Pro Max, and agrees with the written chain on every agent without `13 Pro Max` |
| ClientInfo.ProMaxReported | server/utils.js:137-138 | the corrected chain reports an iPhone 13 Pro Max agent as iPhone 13 Pro Max |
| ClientInfo.AndroidModel | server/utils.js:153-196 | every Android result is one of the Android device names |
| ClientInfo.MacModel | server/utils.js:199-211 | every Mac result is one of the Mac device names |
| ClientInfo.WindowsModel | server/utils.js:214-225 | every Windows result is one of the Windows device names |
| ClientInfo.LinuxModel | server/utils.js:228-234 | every Linux result is one of the Linux device names |
| ClientInfo.Classify | server/utils.js:134-240 | the first matching family, in the fixed order iphone, ipad, android, mac, windows, linux, cros, decides the icon and the set of device names; an iPhone gets the model name given; a generic Android agent is Android Tablet exactly when it says tablet or lacks mobile |
| ClientInfo.ParseUserAgent | server/utils.js:128-240 | as the server computes it: an empty agent is Unknown with the laptop icon. Otherwise the first matching family, in the fixed order iphone, ipad, android, mac, windows, linux, cros, decides the icon (📱 for Android, 🖥️ for Windows, 🐧 for Linux) and the set of device names. An iPhone's model is the as-written chain's. A generic Android agent is Android Tablet exactly when it says tablet or lacks mobile |
| ClientInfo.ParseUserAgentCorrected | server/utils.js:128-240 | with the corrected iPhone chain: the same icon as the server's result always, and the same result on every agent that does not name the iPhone 13 Pro Max |
| ClientInfo.LowerKeepsIPhone | server/utils.js:131-134 | an agent containing `iPhone` falls in the iPhone family |
| ClientInfo.ProMaxParsed | server/utils.js:134-138 | every agent naming the iPhone 13 Pro Max without the `iPhone14,2` code is reported by the server as iPhone 13 Pro, and by the corrected parser as iPhone 13 Pro Max |
| ClientInfo.AndroidBeforeLinux | server/utils.js:153-234 | an agent mentioning both android and linux is in the Android family |
| ClientInfo.NoFamilyUnknown | server/utils.js:239 | an agent matching no family is Unknown Device |
| ClientApp.FileEmoji | public/app.js:604-614 | an empty type gives 📄 and an `image/` prefix 🖼️; every result is one of eight emoji |
| ClientApp.FileIconClass | public/app.js:616-624 | an empty type gives `default` and an `image/` prefix `image`; every result is one of six classes |
| ClientApp.ClassifiersAgree | public/app.js:604-624 | the media classes go with their emoji in both directions; an archive class has the archive emoji; the pdf and word emoji have the document class; the spreadsheet emoji has the default class |
| ClientApp.ConnectTarget | public/app.js:186-189 | no target exactly when the input is all blanks or names one's own id; else the trimmed, upper-cased input, non-empty, without edge blanks or ASCII small letters |
| ClientApp.SaveNameRequest | public/app.js:227-230 | no request exactly when the input is all blanks or its trimmed form is the current name; else that trimmed name |
| ClientApp.FindPeer | public/app.js:300 | none exactly when no listed peer has the id; else the first listed peer with it |
| ClientApp.ShareEntry | public/app.js:381-387 | a shared entry holds the file, its id, and the file's name, size and type |
| ClientApp.ShareEntries | public/app.js:379-388 | one shared entry per file, under its id |
| ClientApp.Describe | public/app.js:430-435 | the `{id, name, size, type}` projection carries exactly the shared entry's four fields |
| ClientApp.SetKeepsKeyed | public/app.js:381-383 | storing an entry under its own id keeps every entry under its own id |
| ClientApp.Catalog | public/app.js:430-435 | the `{id, name, size, type}` projection of every shared entry in insertion order, under ids equal to the keys |
| ClientApp.Ids | public/app.js:264 | the ids of a file list, in order |
| ClientApp.Mirror | public/app.js:263-264 | the mirrored catalog after a file list is a well-formed map |
| ClientApp.MirrorContents | public/app.js:262-266 | after a file list, the mirror's keys are exactly the listed ids, each with the last entry listed under it; after an empty list it is empty |
| ClientApp.CatalogMirrored | public/app.js:428-437 | a peer that receives this client's catalog ends with exactly its ids, each with its entry's projection |
| ClientApp.AddedFilesShared | public/app.js:378-388 | with fresh, distinct ids, adding files keeps every existing entry and adds exactly one entry per file |
| ClientApp.Client.constructor | public/app.js:47-56 | all maps empty, no identity, no peers |
| ClientApp.Client.OnYourId | public/app.js:112-118 | remembers the socket and short id and names itself `animal + " " + id`; nothing else changes |
| ClientApp.Client.OnNameChanged | public/app.js:144-147 | adopts the stored name; every other field stays |
| ClientApp.Client.OnPeerList | public/app.js:149-152 | replaces the known peers with the list; every other field stays |
| ClientApp.Client.SaveNameClicked | public/app.js:226-231 | emits change-name with the trimmed name exactly when the guard allows it, otherwise emits nothing; every other field stays |
| ClientApp.Client.ConnectToPeer | public/app.js:299-307 | connects to the first listed peer with the id: its socket id and the short id are remembered, ICE starts new, and a fresh connecting channel has nothing queued, with the receive and send tables kept; an unlisted id leaves the link untouched |
| ClientApp.Client.ConnectClicked | public/app.js:185-190 | connects only when the guard yields a target, and only to a listed peer, with the same new link state as ConnectToPeer; otherwise the link is untouched |
| ClientApp.Client.SendFileList | public/app.js:428-438 | while connected, sends exactly one file list holding the catalog's projection and stays connected, with the bytes buffered unchanged and the depth of that send recorded; otherwise the channel is untouched |
| ClientApp.Client.AddFilesToShare | public/app.js:378-392 | each file is set under its id, in order, then the catalog is announced when connected, which stays connected with the bytes buffered unchanged and that send's depth recorded, and the channel is untouched otherwise; the other maps, the identity, the peers and the socket outbox are untouched |
| ClientApp.Client.AddAll | public/app.js:379-388 | the loop sets every file's entry under its id and keeps every entry under its own id |
| ClientApp.Client.RemoveSharedFile | public/app.js:421-425 | deletes only that id, then announces the catalog when connected, which stays connected with the bytes buffered unchanged and that send's depth recorded, and leaves the channel untouched otherwise; the other maps, the identity, the peers and the socket outbox are untouched |
| ClientApp.Client.OnFileListReceived | public/app.js:262-266 | the mirror is cleared, then every listed entry is set under its id |
| ClientApp.Client.OnFileRequest | public/app.js:269-275 | a shared id on an open channel sends exactly that file's transfer, and the channel stays open with its record of send depths only growing; a connected link stays connected; an unknown id, or any id while the channel is not open, leaves the channel untouched |
| ClientApp.Client.RequestFile | public/app.js:482-488 | only for a listed id while connected, a receiving transfer with the listed name and size is recorded and one file-request is sent, and the link stays connected with the bytes buffered unchanged and that send's depth recorded; otherwise the transfers and the channel are untouched. The shared maps, the received files, the identity, the peers and the socket outbox always stay |
| ClientApp.Client.HideConnectedUI | public/app.js:326-342 | all four file maps become empty; the identity, the peers and the socket outbox stay |
| ClientApp.Client.DisconnectPeer | public/app.js:309-314 | the old channel is closed with its queue kept, the link's channel, connection and remote ids are dropped, all four file maps are empty, and the identity, the peers and the socket outbox stay |
| ClientApp.Client.OnDataChannelOpen | public/app.js:252-257 | the catalog is announced to the new peer when connected, which stays connected with the bytes buffered unchanged and that send's depth recorded; otherwise the channel is untouched |
| ClientApp.Client.OnChannelMessage | public/app.js:262-291 | the handler's table changes as `Receive` states. A file list replaces the mirror. A request for a shared id on an open channel queues exactly that file's `SendFileMessages`, and the channel stays open with its record of send depths only growing; a connected link stays connected; every other message leaves the channel untouched. A completed file is stored with its blob and name. The channel, the connection state, the remote ids, the identity, the peers, the socket outbox and the other maps stay |

## Left out

- RTCPeerConnection, SDP and ICE: creating and applying offers, answers and candidates is not modelled. Only the remote ids, the ICE state and the data channel are. The `sdp-offer` emission of `createConnection`, `handleAnswer` and `handleIceCandidate` are left out with them.
- `getPublicIP` and its STUN exchange are left out; they are browser networking.
- Socket.IO, Express and HTTP setup are left out. An emission is an append to `sent`, and a live socket is identified with a registered one.
- DOM rendering, toasts, the progress bars and transfer speed are left out. They are presentation, computed with floating point and `Date.now()`. `now` in `ClientApp.Client.RequestFile` stands for the clock.
- `formatBytes` is left out in all three files; it is floating point.
- Randomness: `generatePeerId`, `getRandomAnimal` and the `Math.random` file ids are parameters. Short-id uniqueness is not a property of the code: the server never checks it. `Signaling.RegisterKeepsIdsUnique` therefore takes freshness as an explicit precondition.
- JSON parsing of control messages is not modelled. A text message that is not valid JSON, or has no known `type`, becomes `Unrecognized`, and `Receive` leaves the table as it is for it. Invalid UTF-8 in a file id is not modelled: ids are their bytes.
- Asynchrony: `sendFile` runs as one step apart from its wait. The channel closing, or other messages arriving, while a file is being sent is not modelled. The stream reader's failure path, and the `onFileError` it reports, are left out.
- The progress and completion callbacks on the sending side (`onFileProgress`, `onFileComplete(…, 'sending')`) are left out; they only drive the page.
- `sendingFiles` and `pendingFiles` are declared in the source but never filled. `Close` still empties `sendingFiles`.
- Transfer.BufferedSize: text messages add nothing to `bufferedAmount`, because their serialized size is not modelled. Only data frames count.
- Transfer.WebRTCHandler.OnIceStateChange: `completed` raises nothing, as in the source, and `isConnected` is true only for `connected`.
- ClientApp.Client.AddFilesToShare: the key order the catalog takes after adding files under fresh ids is not proved. Only entries and membership are stated, by `ClientApp.AddedFilesShared`.
- ClientApp.ConnectTarget: `toUpperCase` is modelled for ASCII letters only.
- Text.UpperChar: only the small ASCII letters are upper-cased; every other character is kept, unlike `toUpperCase`.
- Text.ToUpper: upper-cases by Text.UpperChar, so for ASCII letters only.
- Text.ToLower: lower-casing is modelled for ASCII, plus the two characters whose lower case contains an ASCII letter (U+0130 and U+212A). Every other character is kept as it is.
- Text.LowerChar: only ASCII capitals, U+0130 and U+212A are lower-cased; every other character is kept, unlike `toLowerCase`.
- Signaling.RenameTo: the 30-character limit counts Unicode code points, whereas JavaScript counts UTF-16 code units.

## Findings

| source | as written | input that shows it | evidently intended | confidence | as-written member | corrected member |
|---|---|---|---|---|---|---|
| server/utils.js:135-138 | the `"iPhone 13 Pro"` substring test comes before the `"iPhone 13 Pro Max"` test, and every Pro Max agent also contains it; the copy at server/index.js:162-163, which the connection handler calls, has the same order. `ClientInfo.ParseUserAgent`, and so the stored record, follows the code as written; `ClientInfo.ProMaxParsed` carries it through the whole parser | user agent `iPhone 13 Pro Max` is reported as `iPhone 13 Pro` | a Pro Max agent is reported as `iPhone 13 Pro Max` | not executed | ClientInfo.ProMaxReportedAsPro | ClientInfo.ProMaxReported |
