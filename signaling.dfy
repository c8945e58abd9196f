/**
 * The signalling server: a registry of the connected peers, keyed by socket
 * id in insertion order, and the Socket.IO handlers that register, rename and
 * remove peers, broadcast the peer list, look peers up by their short id and
 * relay WebRTC signalling and file-offer messages between sockets.
 */
module Signaling {
  import opened Wrappers
  import opened Text
  import opened OrderedMaps
  import ClientInfo

  type SocketId = string

  /** A session description, ICE candidate or file description: forwarded untouched. */
  type Payload = string

  /** A registry record: `{id, name, status, ip, avatar, device, deviceIcon}`. */
  datatype PeerRecord = PeerRecord(id: string, name: string, status: string, ip: string,
                                   avatar: string, device: string, deviceIcon: string)

  /** An element of the broadcast peer list: the socket id followed by the record's fields. */
  datatype PeerEntry = PeerEntry(socketId: SocketId, id: string, name: string, status: string, ip: string,
                                 avatar: string, device: string, deviceIcon: string)

  /** An element of the animal table, drawn at random for each connection. */
  datatype Animal = Animal(emoji: string, name: string)

  /** What the server reads from a new socket's handshake. */
  datatype Handshake = Handshake(headers: ClientInfo.Headers, userAgent: Option<string>, address: string)

  datatype ServerEvent =
    | YourId(peerId: string, ip: string, avatar: string, animalName: string, device: string, deviceIcon: string)
    | PeerList(list: seq<PeerEntry>)
    | NameChanged(name: string)
    | ConnectionRequest(fromPeerId: string, fromSocketId: SocketId)
    | PeerNotFound(peerId: string)
    | SdpOffer(sdp: Payload, fromSocketId: SocketId, fromPeerId: string)
    | SdpAnswer(sdp: Payload, fromSocketId: SocketId, fromPeerId: string)
    | IceCandidate(candidate: Payload, fromSocketId: SocketId)
    | FileOffer(fileInfo: Payload, fromSocketId: SocketId, fromPeerId: string)
    | FileAccepted(fromSocketId: SocketId)
    | FileRejected(fromSocketId: SocketId)

  /** `socket.emit` goes to one socket, `io.emit` to every connected socket. */
  datatype Audience = ToSocket(socketId: SocketId) | ToEveryone

  datatype Emission = Emission(to: Audience, event: ServerEvent)

  type Registry = OrderedMap<SocketId, PeerRecord>

  /** The list element for one registry entry. */
  function EntryFor(socketId: SocketId, p: PeerRecord): (e: PeerEntry)
    ensures e.socketId == socketId && e.id == p.id && e.name == p.name && e.status == p.status
    ensures e.ip == p.ip && e.avatar == p.avatar && e.device == p.device && e.deviceIcon == p.deviceIcon
  {
    PeerEntry(socketId, p.id, p.name, p.status, p.ip, p.avatar, p.device, p.deviceIcon)
  }

  /** The list `broadcastPeerList` sends: every registry entry, in insertion order. */
  function Snapshot(peers: Registry): (list: seq<PeerEntry>)
    requires Valid(peers)
    ensures |list| == |peers.keys|
    ensures forall i :: 0 <= i < |list| ==> list[i] == EntryFor(peers.keys[i], peers.entries[peers.keys[i]])
  {
    seq(|peers.keys|, i requires 0 <= i < |peers.keys| && peers.keys[i] in peers.entries =>
      EntryFor(peers.keys[i], peers.entries[peers.keys[i]]))
  }

  /** The snapshot lists each connected socket once, with exactly its record. */
  lemma SnapshotFaithful(peers: Registry, s: SocketId)
    requires Valid(peers)
    ensures s in peers.entries <==> exists i :: 0 <= i < |Snapshot(peers)| && Snapshot(peers)[i].socketId == s
    ensures forall i, j :: 0 <= i < j < |Snapshot(peers)| ==> Snapshot(peers)[i].socketId != Snapshot(peers)[j].socketId
    ensures forall i :: 0 <= i < |Snapshot(peers)| && Snapshot(peers)[i].socketId == s ==>
      Snapshot(peers)[i] == EntryFor(s, peers.entries[s])
  {
    var list := Snapshot(peers);
    if s in peers.entries {
      var i :| 0 <= i < |peers.keys| && peers.keys[i] == s;
      assert list[i].socketId == s;
    }
  }

  /** The record of a new connection: named after its animal and short id, and online. */
  function NewRecord(peerId: string, animal: Animal, hs: Handshake): (p: PeerRecord)
    ensures p.id == peerId && p.name == animal.name + " " + peerId && p.status == "online"
    ensures p.ip == ClientInfo.ClientIP(hs.headers, hs.address) && p.avatar == animal.emoji
    ensures var d := ClientInfo.ParseUserAgent(UserAgentOf(hs)); p.device == d.device && p.deviceIcon == d.icon
  {
    var d := ClientInfo.ParseUserAgent(UserAgentOf(hs));
    PeerRecord(peerId, animal.name + " " + peerId, "online", ClientInfo.ClientIP(hs.headers, hs.address),
               animal.emoji, d.device, d.icon)
  }

  /** `headers['user-agent'] || ''`: the agent when the header is present, the empty string otherwise. */
  function UserAgentOf(hs: Handshake): (ua: string)
    ensures hs.userAgent.Some? ==> ua == hs.userAgent.value
    ensures hs.userAgent.None? ==> ua == ""
  {
    if hs.userAgent.Some? then hs.userAgent.value else ""
  }

  /**
   * The name a `change-name` request stores, if any: nothing for a missing
   * name or one of blanks only; otherwise the trimmed name cut to 30 characters.
   */
  function RenameTo(newName: Option<string>): (r: Option<string>)
    ensures r.None? <==> newName.None? || AllSpace(newName.value)
    ensures r.Some? ==> var t := Trim(newName.value);
      && 0 < |r.value| <= 30 && |r.value| <= |t| && r.value == t[..|r.value|]
      && (|t| <= 30 ==> r.value == t)
      && (|t| > 30 ==> r.value == t[..30])
      && !IsJsSpace(r.value[0])
  {
    if newName.None? then None
    else
      var t := Trim(newName.value);
      TrimEmptyIff(newName.value);
      if t == "" then None else Some(Truncate(t, 30))
  }

  /** No two records share a short id. The server does not check this; it holds while new ids are fresh. */
  ghost predicate UniqueIds(peers: Registry)
  {
    forall a, b :: a in peers.entries && b in peers.entries && a != b ==> peers.entries[a].id != peers.entries[b].id
  }

  /** Registering a new socket under a short id no record has keeps short ids unique. */
  lemma RegisterKeepsIdsUnique(peers: Registry, sid: SocketId, p: PeerRecord)
    requires Valid(peers) && UniqueIds(peers) && sid !in peers.entries
    requires forall s :: s in peers.entries ==> peers.entries[s].id != p.id
    ensures UniqueIds(Set(peers, sid, p))
  {
  }

  /** The first socket, in registry order, whose record has the short id, if any. */
  ghost predicate FirstWithId(peers: Registry, peerId: string, i: nat)
  {
    && i < |peers.keys| && peers.keys[i] in peers.entries && peers.entries[peers.keys[i]].id == peerId
    && forall j :: 0 <= j < i && peers.keys[j] in peers.entries ==> peers.entries[peers.keys[j]].id != peerId
  }

  /** Every record is online: no handler changes a status. */
  ghost predicate AllOnline(peers: Registry)
  {
    forall s :: s in peers.entries ==> peers.entries[s].status == "online"
  }

  /**
   * The server's state: the registry, and everything emitted so far. A
   * socket is live exactly while it is registered.
   */
  class SignalingServer {
    var peers: Registry
    var sent: seq<Emission>

    ghost predicate Valid()
      reads this
    {
      OrderedMaps.Valid(peers) && AllOnline(peers)
    }

    constructor ()
      ensures Valid() && peers.keys == [] && sent == []
    {
      peers := Empty();
      sent := [];
    }

    /** `findSocketByPeerId`: scan the registry in insertion order for the first record with the short id. */
    method FindSocketByPeerId(peerId: string) returns (r: Option<SocketId>)
      requires Valid()
      ensures r.None? <==> forall s :: s in peers.entries ==> peers.entries[s].id != peerId
      ensures r.Some? ==> exists i: nat :: FirstWithId(peers, peerId, i) && peers.keys[i] == r.value
      ensures r.Some? ==> r.value in peers.entries && peers.entries[r.value].id == peerId
    {
      var i := 0;
      while i < |peers.keys|
        invariant 0 <= i <= |peers.keys|
        invariant forall j :: 0 <= j < i ==> peers.entries[peers.keys[j]].id != peerId
      {
        if peers.entries[peers.keys[i]].id == peerId {
          assert FirstWithId(peers, peerId, i);
          return Some(peers.keys[i]);
        }
        i := i + 1;
      }
      forall s | s in peers.entries ensures peers.entries[s].id != peerId {
        var j :| 0 <= j < |peers.keys| && peers.keys[j] == s;
      }
      return None;
    }

    /** `broadcastPeerList`: the full snapshot to every socket. */
    method BroadcastPeerList()
      requires Valid()
      modifies this
      ensures Valid() && peers == old(peers)
      ensures sent == old(sent) + [Emission(ToEveryone, PeerList(Snapshot(peers)))]
    {
      sent := sent + [Emission(ToEveryone, PeerList(Snapshot(peers)))];
    }

    /**
     * `connection`: register the socket under a new short id and animal, tell
     * it its identity, then broadcast the list. peerId and animal stand for
     * the random draws.
     */
    method OnConnection(sid: SocketId, peerId: string, animal: Animal, hs: Handshake)
      requires Valid()
      modifies this
      ensures Valid()
      ensures peers == Set(old(peers), sid, NewRecord(peerId, animal, hs))
      ensures var p := NewRecord(peerId, animal, hs);
        sent == old(sent) + [Emission(ToSocket(sid), YourId(peerId, p.ip, animal.emoji, animal.name, p.device, p.deviceIcon)),
                             Emission(ToEveryone, PeerList(Snapshot(peers)))]
    {
      var clientIP := ClientInfo.ClientIP(hs.headers, hs.address);
      var deviceInfo := ClientInfo.ParseUserAgent(UserAgentOf(hs));
      var record := PeerRecord(peerId, animal.name + " " + peerId, "online", clientIP,
                               animal.emoji, deviceInfo.device, deviceInfo.icon);
      peers := Set(peers, sid, record);
      sent := sent + [Emission(ToSocket(sid), YourId(peerId, clientIP, animal.emoji, animal.name,
                                                     deviceInfo.device, deviceInfo.icon))];
      BroadcastPeerList();
    }

    /**
     * `change-name`: for a registered socket and a name with a non-blank
     * character, store the trimmed name cut to 30 characters in that record
     * only, broadcast, and acknowledge with the stored name; otherwise nothing.
     */
    method ChangeName(sid: SocketId, newName: Option<string>)
      requires Valid()
      modifies this
      ensures Valid()
      ensures sid !in old(peers.entries) || RenameTo(newName).None? ==> peers == old(peers) && sent == old(sent)
      ensures sid in old(peers.entries) && RenameTo(newName).Some? ==>
        var name := RenameTo(newName).value;
        && peers == Set(old(peers), sid, old(peers.entries[sid]).(name := name))
        && sent == old(sent) + [Emission(ToEveryone, PeerList(Snapshot(peers))), Emission(ToSocket(sid), NameChanged(name))]
    {
      if sid in peers.entries {
        var name := RenameTo(newName);
        if name.Some? {
          var peer := peers.entries[sid];
          peers := Set(peers, sid, peer.(name := name.value));
          BroadcastPeerList();
          sent := sent + [Emission(ToSocket(sid), NameChanged(name.value))];
        }
      }
    }

    /**
     * `connect-to-peer`: tell the first socket registered under the short id
     * who asks for it, or tell the sender that no peer has that id.
     */
    method ConnectToPeer(sid: SocketId, targetPeerId: string)
      requires Valid() && sid in peers.entries
      modifies this
      ensures Valid() && peers == old(peers)
      ensures (forall s :: s in peers.entries ==> peers.entries[s].id != targetPeerId) ==>
        sent == old(sent) + [Emission(ToSocket(sid), PeerNotFound(targetPeerId))]
      ensures (exists s :: s in peers.entries && peers.entries[s].id == targetPeerId) ==>
        exists i: nat :: FirstWithId(peers, targetPeerId, i) &&
          sent == old(sent) + [Emission(ToSocket(peers.keys[i]), ConnectionRequest(peers.entries[sid].id, sid))]
    {
      var target := FindSocketByPeerId(targetPeerId);
      if target.Some? {
        sent := sent + [Emission(ToSocket(target.value), ConnectionRequest(peers.entries[sid].id, sid))];
      } else {
        sent := sent + [Emission(ToSocket(sid), PeerNotFound(targetPeerId))];
      }
    }

    /** Emit to a socket if it is live; drop silently otherwise. */
    method RelayTo(target: SocketId, e: ServerEvent)
      requires Valid()
      modifies this
      ensures Valid() && peers == old(peers)
      ensures target in peers.entries ==> sent == old(sent) + [Emission(ToSocket(target), e)]
      ensures target !in peers.entries ==> sent == old(sent)
    {
      if target in peers.entries {
        sent := sent + [Emission(ToSocket(target), e)];
      }
    }

    /** `sdp-offer`: forward the offer to a live target with the sender's socket and short ids. */
    method RelayOffer(sid: SocketId, targetSocketId: SocketId, sdp: Payload)
      requires Valid() && sid in peers.entries
      modifies this
      ensures Valid() && peers == old(peers)
      ensures targetSocketId in peers.entries ==>
        sent == old(sent) + [Emission(ToSocket(targetSocketId), SdpOffer(sdp, sid, peers.entries[sid].id))]
      ensures targetSocketId !in peers.entries ==> sent == old(sent)
    {
      RelayTo(targetSocketId, SdpOffer(sdp, sid, peers.entries[sid].id));
    }

    /** `sdp-answer`: forward the answer to a live target with the sender's socket and short ids. */
    method RelayAnswer(sid: SocketId, targetSocketId: SocketId, sdp: Payload)
      requires Valid() && sid in peers.entries
      modifies this
      ensures Valid() && peers == old(peers)
      ensures targetSocketId in peers.entries ==>
        sent == old(sent) + [Emission(ToSocket(targetSocketId), SdpAnswer(sdp, sid, peers.entries[sid].id))]
      ensures targetSocketId !in peers.entries ==> sent == old(sent)
    {
      RelayTo(targetSocketId, SdpAnswer(sdp, sid, peers.entries[sid].id));
    }

    /** `ice-candidate`: forward the candidate to a live target with the sender's socket id only. */
    method RelayCandidate(sid: SocketId, targetSocketId: SocketId, candidate: Payload)
      requires Valid()
      modifies this
      ensures Valid() && peers == old(peers)
      ensures targetSocketId in peers.entries ==>
        sent == old(sent) + [Emission(ToSocket(targetSocketId), IceCandidate(candidate, sid))]
      ensures targetSocketId !in peers.entries ==> sent == old(sent)
    {
      RelayTo(targetSocketId, IceCandidate(candidate, sid));
    }

    /** `file-request`: forward the file description to a live target with the sender's socket and short ids. */
    method RelayFileRequest(sid: SocketId, targetSocketId: SocketId, fileInfo: Payload)
      requires Valid() && sid in peers.entries
      modifies this
      ensures Valid() && peers == old(peers)
      ensures targetSocketId in peers.entries ==>
        sent == old(sent) + [Emission(ToSocket(targetSocketId), FileOffer(fileInfo, sid, peers.entries[sid].id))]
      ensures targetSocketId !in peers.entries ==> sent == old(sent)
    {
      RelayTo(targetSocketId, FileOffer(fileInfo, sid, peers.entries[sid].id));
    }

    /** `file-accept`: tell a live target that the sender accepted. */
    method RelayFileAccept(sid: SocketId, targetSocketId: SocketId)
      requires Valid()
      modifies this
      ensures Valid() && peers == old(peers)
      ensures targetSocketId in peers.entries ==> sent == old(sent) + [Emission(ToSocket(targetSocketId), FileAccepted(sid))]
      ensures targetSocketId !in peers.entries ==> sent == old(sent)
    {
      RelayTo(targetSocketId, FileAccepted(sid));
    }

    /** `file-reject`: tell a live target that the sender declined. */
    method RelayFileReject(sid: SocketId, targetSocketId: SocketId)
      requires Valid()
      modifies this
      ensures Valid() && peers == old(peers)
      ensures targetSocketId in peers.entries ==> sent == old(sent) + [Emission(ToSocket(targetSocketId), FileRejected(sid))]
      ensures targetSocketId !in peers.entries ==> sent == old(sent)
    {
      RelayTo(targetSocketId, FileRejected(sid));
    }

    /** `disconnect`: remove exactly the socket's record, then broadcast. */
    method Disconnect(sid: SocketId)
      requires Valid()
      modifies this
      ensures Valid()
      ensures peers == Delete(old(peers), sid)
      ensures sent == old(sent) + [Emission(ToEveryone, PeerList(Snapshot(peers)))]
    {
      peers := Delete(peers, sid);
      BroadcastPeerList();
    }
  }
}
