/**
 * The sequential logic of the WireGuard controller: a peer's session slots
 * (a primary and a secondary transport, plus the handshake in progress),
 * the `id_map` from local indices to peers that must stay in step with
 * those slots, the dispatch of incoming datagrams with their length gates,
 * the handshake-timestamp check, the reverse-path filter on decrypted
 * packets, and the sweep that drops leaked `id_map` entries.
 *
 * Threads, locks, channels and sockets are stripped: a handler is one call
 * that returns what it would send or write.  Noise handshake processing,
 * IP-header parsing and the longest-prefix routing tables are function values
 * supplied by the caller.
 */
module Controller {
  import opened Bytes
  import opened Wrappers
  import opened Aead
  import opened WgTypes
  import opened Transport

  /** A handshake this peer has initiated and not finished: the index it sent. */
  datatype Handshake = Handshake(selfId: Id)

  class PeerState {
    var info: PeerInfo
    var lastHandshake: Option<nat>
    var handshake: Option<Handshake>
    var primary: Option<Transport>
    var secondary: Option<Transport>

    /** A peer as `WgState::new` creates it: no handshake, no sessions. */
    constructor (info: PeerInfo)
      ensures this.info == info && lastHandshake == None && handshake == None
      ensures primary == None && secondary == None
    {
      this.info := info;
      lastHandshake := None;
      handshake := None;
      primary := None;
      secondary := None;
    }

    /** The transports held in the two slots. */
    function Slots(): set<Transport>
      reads this
    {
      (if primary.Some? then {primary.value} else {}) + (if secondary.Some? then {secondary.value} else {})
    }

    /** `find_transport_by_id`: the primary if its index matches, else the secondary if it matches. */
    function FindTransportById(id: Id): (r: Option<Transport>)
      reads this
      ensures r.Some? ==> r.value.selfId == id && r.value in Slots()
      ensures primary.Some? && primary.value.selfId == id ==> r == primary
      ensures r.None? <==>
        && (primary.None? || primary.value.selfId != id)
        && (secondary.None? || secondary.value.selfId != id)
      ensures r.Some? && r != primary ==> r == secondary
    {
      if primary.Some? && primary.value.selfId == id then primary
      else if secondary.Some? && secondary.value.selfId == id then secondary
      else None
    }

    /** `has_id`: the index belongs to the handshake in progress or to a session slot. */
    predicate HasId(id: Id)
      reads this
      ensures HasId(id) <==>
        (handshake.Some? && handshake.value.selfId == id) || exists t :: t in Slots() && t.selfId == id
    {
      || (handshake.Some? && handshake.value.selfId == id)
      || (primary.Some? && primary.value.selfId == id)
      || (secondary.Some? && secondary.value.selfId == id)
    }

    /** `has_id` holds exactly for the handshake's index and the indices `find_transport_by_id` finds. */
    lemma HasIdIffKnown(id: Id)
      ensures HasId(id) <==> (handshake.Some? && handshake.value.selfId == id) || FindTransportById(id).Some?
    {
    }

    /**
     * `rotate_transport`: the new session becomes primary and the old primary
     * secondary; the old secondary is dropped and only its index leaves the map.
     */
    method RotateTransport(t: Transport, wg: WgState)
      modifies this`primary, this`secondary, wg`idMap
      ensures primary == Some(t) && secondary == old(primary)
      ensures wg.idMap == if old(secondary).Some? then old(wg.idMap) - {old(secondary).value.selfId} else old(wg.idMap)
    {
      if secondary.Some? {
        var dropped := secondary.value;
        secondary := None;
        wg.idMap := wg.idMap - {dropped.selfId};
      }
      secondary := primary;
      primary := Some(t);
    }

    /** `remove_peer_by_id`: empty exactly the slots whose session has this index. */
    method RemovePeerById(id: Id)
      modifies this`primary, this`secondary
      ensures primary == if old(primary).Some? && old(primary).value.selfId == id then None else old(primary)
      ensures secondary == if old(secondary).Some? && old(secondary).value.selfId == id then None else old(secondary)
      ensures FindTransportById(id).None?
      ensures HasId(id) <==> handshake.Some? && handshake.value.selfId == id
    {
      if primary.Some? && primary.value.selfId == id {
        primary := None;
      }
      if secondary.Some? && secondary.value.selfId == id {
        secondary := None;
      }
    }
  }

  /** What the first byte and the length of a datagram select. */
  datatype MsgKind = Dropped | HandshakeInit | HandshakeResponse | CookieReply | TransportData | Ignored

  /**
   * The UDP receive loop's dispatch: fewer than 12 bytes are dropped, the
   * first byte 1..4 selects a handler, anything else is ignored.
   */
  function Classify(p: seq<byte>): (k: MsgKind)
    ensures k == Dropped <==> |p| < 12
    ensures k == Ignored <==> |p| >= 12 && !(1 <= p[0] <= 4)
    ensures k == TransportData ==> |p| >= 12 && p[0] == 4
  {
    if |p| < 12 then Dropped
    else if p[0] == 1 then HandshakeInit
    else if p[0] == 2 then HandshakeResponse
    else if p[0] == 3 then CookieReply
    else if p[0] == 4 then TransportData
    else Ignored
  }

  /** A handshake initiation is exactly 148 bytes; the last 16 (mac2) are cut before processing. */
  function InitPayload(p: seq<byte>): (r: Option<seq<byte>>)
    ensures r.Some? <==> |p| == 148
    ensures r.Some? ==> |r.value| == 132 && r.value == p[..132]
  {
    if |p| != 148 then None else Some(p[..132])
  }

  /** A newer handshake timestamp: strictly above the last one accepted (any, when there is none). */
  predicate Newer(ts: nat, last: Option<nat>)
  {
    last.None? || ts > last.value
  }

  /** `Vec::truncate(len)`: keep at most the first len elements. */
  function Truncate(s: seq<byte>, len: nat): (r: seq<byte>)
    ensures |r| == if len < |s| then len else |s|
    ensures r <= s
  {
    if len < |s| then s[..len] else s
  }

  /** A handshake initiation that the (abstract) Noise processing authenticated. */
  datatype Initiation = Initiation(peerPubkey: Key32, timestamp: nat, peerId: Id, hs: HS)

  datatype InitOutcome = WrongLength | AuthFailed | UnknownPeer | StaleTimestamp | Responded(selfId: Id)

  /** What the receive path did with a transport data message. */
  datatype TransportOutcome =
    | UnknownIndex
    | NoSession
    | DecryptFailed
    | NotIp(plain: seq<byte>)
    | Filtered(plain: seq<byte>)
    | Delivered(plain: seq<byte>, written: seq<byte>)

  /** What the response path did: forward it to the handshake thread, drop it, or panic. */
  datatype ResponseOutcome = UnknownReceiver | NoHandshake | OtherHandshake | Forward | Panic

  class WgState {
    const info: WgInfo
    var pubkeyMap: map<Key32, PeerState>
    var idMap: map<Id, PeerState>
    const route: IpAddr -> Option<PeerState>
    const cipher: StreamMac
    const replayCheck: (seq<nat>, nat) -> bool

    constructor (info: WgInfo, pubkeyMap: map<Key32, PeerState>, route: IpAddr -> Option<PeerState>,
                 cipher: StreamMac, replayCheck: (seq<nat>, nat) -> bool)
      ensures this.info == info && this.pubkeyMap == pubkeyMap && idMap == map[]
      ensures this.route == route && this.cipher == cipher && this.replayCheck == replayCheck
    {
      this.info := info;
      this.pubkeyMap := pubkeyMap;
      idMap := map[];
      this.route := route;
      this.cipher := cipher;
      this.replayCheck := replayCheck;
    }

    /** Every index in the map belongs to the peer it maps to. */
    ghost predicate InSync()
      reads this, idMap.Values
    {
      forall i :: i in idMap ==> idMap[i].HasId(i)
    }

    /** Every session reachable through the map. */
    ghost function Sessions(): set<Transport>
      reads this, idMap.Values
    {
      set peer, t | peer in idMap.Values && t in peer.Slots() :: t
    }

    /** Every reachable session is well formed and no younger than `now`. */
    ghost predicate SessionsReady(now: nat)
      reads this, idMap.Values, Sessions()
    {
      forall t :: t in Sessions() ==> t.Valid() && t.created <= now
    }

    /** The session a transport message with receiver index `id` is decrypted with, if any. */
    ghost function SessionFor(id: Id): (r: Option<Transport>)
      reads this, idMap.Values
      ensures r.Some? ==> r.value in Sessions()
    {
      if id in idMap then idMap[id].FindTransportById(id) else None
    }

    /**
     * The maintaining thread's leak sweep: collect every index whose peer does
     * not claim it, then remove those.  Afterwards the map is in sync, and it
     * kept every entry that was.
     */
    method SweepLeaks()
      modifies this`idMap
      ensures InSync()
      ensures idMap == map i | i in old(idMap) && old(idMap)[i].HasId(i) :: old(idMap)[i]
    {
      var toRemove: seq<Id> := [];
      var pending := idMap.Keys;
      while pending != {}
        invariant pending <= idMap.Keys && idMap == old(idMap)
        invariant forall i :: i in toRemove <==> i in idMap && i !in pending && !idMap[i].HasId(i)
        decreases pending
      {
        var i :| i in pending;
        if !idMap[i].HasId(i) {
          toRemove := toRemove + [i];
        }
        pending := pending - {i};
      }
      var j := 0;
      while j < |toRemove|
        invariant 0 <= j <= |toRemove|
        invariant idMap == map i | i in old(idMap) && i !in toRemove[..j] :: old(idMap)[i]
      {
        idMap := idMap - {toRemove[j]};
        j := j + 1;
      }
      assert toRemove[..j] == toRemove;
    }

    /**
     * `udp_get_handshake_init`: gate on length, authenticate, find the peer by
     * its static key, accept only a strictly newer timestamp, then register a
     * fresh session under the new index and rotate it in.
     */
    method HandleInit(p: seq<byte>, addr: SocketAddr, processInitiation: seq<byte> -> Option<Initiation>,
                      newId: Id, now: nat) returns (outcome: InitOutcome)
      modifies this`idMap, pubkeyMap.Values
      // Which gate decides the outcome, both ways.
      ensures InitPayload(p).None? <==> outcome == WrongLength
      ensures InitPayload(p).Some? && processInitiation(InitPayload(p).value).None? <==> outcome == AuthFailed
      ensures InitPayload(p).Some? && processInitiation(InitPayload(p).value).Some? ==>
        var r := processInitiation(InitPayload(p).value).value;
        && (r.peerPubkey !in old(pubkeyMap) <==> outcome == UnknownPeer)
        && (r.peerPubkey in old(pubkeyMap) && !Newer(r.timestamp, old(pubkeyMap[r.peerPubkey].lastHandshake))
            <==> outcome == StaleTimestamp)
        && (r.peerPubkey in old(pubkeyMap) && Newer(r.timestamp, old(pubkeyMap[r.peerPubkey].lastHandshake))
            <==> outcome.Responded?)
      ensures outcome in {WrongLength, AuthFailed, UnknownPeer, StaleTimestamp} ==>
        idMap == old(idMap) && forall q :: q in old(pubkeyMap.Values) ==> unchanged(q)
      ensures outcome == StaleTimestamp || outcome.Responded? ==>
        && InitPayload(p).Some? && processInitiation(InitPayload(p).value).Some?
        && processInitiation(InitPayload(p).value).value.peerPubkey in pubkeyMap
      ensures outcome.Responded? ==> (
        var r := processInitiation(InitPayload(p).value).value;
        var peer := pubkeyMap[r.peerPubkey];
        && outcome.selfId == newId
        && Newer(r.timestamp, old(peer.lastHandshake)) && peer.lastHandshake == Some(r.timestamp)
        && peer.primary.Some? && fresh(peer.primary.value)
        && peer.primary.value.selfId == newId && peer.primary.value.peerId == r.peerId
        && peer.primary.value.created == now && peer.primary.value.sendKey == SendKey(r.hs)
        && peer.primary.value.recvKey == RecvKey(r.hs) && peer.primary.value.isInitiator == r.hs.isInitiator
        && peer.primary.value.sendCounter == 0 && peer.primary.value.accepted == []
        && (forall q :: q in old(pubkeyMap.Values) && q != peer ==> unchanged(q))
        && peer.secondary == old(peer.primary)
        && peer.info == old(peer.info).(endpoint := Some(addr))
        && peer.handshake == old(peer.handshake)
        && idMap == (if old(peer.secondary).Some? then old(idMap)[newId := peer] - {old(peer.secondary).value.selfId}
                     else old(idMap)[newId := peer]))
      ensures outcome == StaleTimestamp ==>
        var r := processInitiation(InitPayload(p).value).value;
        !Newer(r.timestamp, pubkeyMap[r.peerPubkey].lastHandshake)
      ensures old(InSync()) ==> InSync()
    {
      var payload := InitPayload(p);
      if payload.None? {
        return WrongLength;
      }
      var processed := processInitiation(payload.value);
      if processed.None? {
        return AuthFailed;
      }
      var r := processed.value;
      if r.peerPubkey !in pubkeyMap {
        return UnknownPeer;
      }
      var peer := pubkeyMap[r.peerPubkey];

      if Newer(r.timestamp, peer.lastHandshake) {
        peer.lastHandshake := Some(r.timestamp);
      } else {
        return StaleTimestamp;
      }

      var t := new Transport.NewFromHs(newId, r.peerId, r.hs, now, cipher, replayCheck);
      idMap := idMap[newId := peer];
      peer.info := peer.info.(endpoint := Some(addr));
      ghost var before := idMap;
      peer.RotateTransport(t, this);
      assert old(InSync()) ==> InSync() by {
        if old(InSync()) {
          forall i | i in idMap
            ensures idMap[i].HasId(i)
          {
            assert i in before;
            if i != newId {
              assert i in old(idMap);
              var q := old(idMap)[i];
              assert idMap[i] == q;
              assert old(q.HasId(i));
              if q != peer {
                assert unchanged(q);
              }
            }
          }
        }
      }
      outcome := Responded(newId);
    }

    /**
     * `udp_get_transport`: find the session by the receiver index, decrypt,
     * and write the packet to the TUN device only when the longest-prefix
     * match of its source address is the very peer it came from.  Any
     * decrypted message moves the peer's endpoint to the sender's address.
     */
    method HandleTransport(p: seq<byte>, addr: SocketAddr, now: nat,
                           parseIp: seq<byte> -> Option<(nat, IpAddr)>) returns (outcome: TransportOutcome)
      requires |p| >= 12
      requires SessionsReady(now)
      modifies idMap.Values, Sessions()
      ensures idMap == old(idMap)
      // Which check stopped the message, if any.
      ensures outcome == UnknownIndex <==> FromSlice(p[4..8]) !in idMap
      ensures outcome == NoSession <==> FromSlice(p[4..8]) in idMap && old(SessionFor(FromSlice(p[4..8]))).None?
      ensures outcome == DecryptFailed <==>
        old(SessionFor(FromSlice(p[4..8]))).Some? && !old(SessionFor(FromSlice(p[4..8])).value.Admits(p, now))
      // A message that got through is the session's decryption of p, and the session recorded it.
      ensures outcome.NotIp? || outcome.Filtered? || outcome.Delivered? ==>
        && old(SessionFor(FromSlice(p[4..8]))).Some?
        && var t := old(SessionFor(FromSlice(p[4..8]))).value;
           && old(t.Admits(p, now))
           && Some(outcome.plain) == Open(t.cipher, t.recvKey, NoiseNonce(CounterOf(p)), [], p[HEADER_LEN..])
           && |outcome.plain| == |p| - 2 * HEADER_LEN
           && t.accepted == old(t.accepted) + [CounterOf(p)] && t.lastRecv == Some(now)
           && t.sendCounter == old(t.sendCounter) && t.lastSend == old(t.lastSend)
      // The reverse-path filter, both ways.
      ensures outcome.NotIp? || outcome.Filtered? || outcome.Delivered? ==>
        (outcome.NotIp? <==> parseIp(outcome.plain).None?)
      ensures outcome.Filtered? || outcome.Delivered? ==>
        (outcome.Delivered? <==> route(parseIp(outcome.plain).value.1) == Some(idMap[FromSlice(p[4..8])]))
      ensures outcome.Delivered? ==>
        outcome.written == Truncate(outcome.plain, parseIp(outcome.plain).value.0)
      // The endpoint follows every decrypted message.
      ensures outcome.NotIp? || outcome.Filtered? || outcome.Delivered? ==>
        idMap[FromSlice(p[4..8])].info == old(idMap[FromSlice(p[4..8])].info).(endpoint := Some(addr))
      // Nothing else changes: no peer's slots or handshake state, no other peer, no other session.
      ensures forall q :: q in old(idMap.Values) ==>
        && q.primary == old(q.primary) && q.secondary == old(q.secondary)
        && q.handshake == old(q.handshake) && q.lastHandshake == old(q.lastHandshake)
      ensures forall q :: q in old(idMap.Values) && q.info != old(q.info) ==>
        (outcome.NotIp? || outcome.Filtered? || outcome.Delivered?) && q == idMap[FromSlice(p[4..8])]
      ensures forall s :: s in old(Sessions()) && old(SessionFor(FromSlice(p[4..8]))) != Some(s) ==> unchanged(s)
      ensures outcome in {UnknownIndex, NoSession, DecryptFailed} ==>
        forall s :: s in old(Sessions()) ==> unchanged(s)
    {
      var id := FromSlice(p[4..8]);
      if id !in idMap {
        return UnknownIndex;
      }
      var peer0 := idMap[id];
      var found := peer0.FindTransportById(id);
      if found.None? {
        return NoSession;
      }
      var t := found.value;
      assert t in Sessions();
      var pkt := t.Decrypt(p, now);
      if pkt.Err? {
        return DecryptFailed;
      }
      var parsed := parseIp(pkt.value);
      if parsed.Some? {
        var len := parsed.value.0;
        var src := parsed.value.1;
        var peer1 := route(src);
        if peer1.None? || peer1.value != peer0 {
          outcome := Filtered(pkt.value);
        } else {
          outcome := Delivered(pkt.value, Truncate(pkt.value, len));
        }
      } else {
        outcome := NotIp(pkt.value);
      }
      var shouldSetEndpoint := peer0.info.endpoint != Some(addr);
      if shouldSetEndpoint {
        peer0.info := peer0.info.(endpoint := Some(addr));
      }
    }

    /**
     * `udp_get_handshake_resp` as written: the receiver index (bytes 8..12)
     * finds a peer, and `peer.handshake.as_ref().unwrap()` panics when that
     * peer has no handshake in progress.
     */
    function ResponseAsWritten(p: seq<byte>): (r: ResponseOutcome)
      requires |p| >= 12
      reads this, idMap.Values
      ensures r == Panic <==> FromSlice(p[8..12]) in idMap && idMap[FromSlice(p[8..12])].handshake.None?
      ensures r == Forward ==> FromSlice(p[8..12]) in idMap && idMap[FromSlice(p[8..12])].handshake == Some(Handshake(FromSlice(p[8..12])))
    {
      var id := FromSlice(p[8..12]);
      if id !in idMap then UnknownReceiver
      else
        var peer := idMap[id];
        if peer.handshake.None? then Panic
        else if peer.handshake.value.selfId != id then OtherHandshake
        else Forward
    }

    /**
     * `udp_get_handshake_resp` with the unwrap replaced by a check: a
     * response is forwarded exactly when its receiver index is the index of
     * the handshake in progress, and it never panics.
     */
    function Response(p: seq<byte>): (r: ResponseOutcome)
      requires |p| >= 12
      reads this, idMap.Values
      ensures r != Panic
      ensures r == Forward <==>
        FromSlice(p[8..12]) in idMap && idMap[FromSlice(p[8..12])].handshake == Some(Handshake(FromSlice(p[8..12])))
      ensures ResponseAsWritten(p) != Panic ==> r == ResponseAsWritten(p)
    {
      var id := FromSlice(p[8..12]);
      if id !in idMap then UnknownReceiver
      else
        var peer := idMap[id];
        if peer.handshake.None? then NoHandshake
        else if peer.handshake.value.selfId != id then OtherHandshake
        else Forward
    }
  }

  /**
   * A concrete state that makes the response handler panic: a peer that
   * answered a handshake (so it holds a session under index 1,2,3,4 and has no
   * handshake of its own in progress) receives a 12-byte type-2 datagram
   * naming that index.
   */
  method ResponsePanicWitness(cipher: StreamMac, replayCheck: (seq<nat>, nat) -> bool,
                              key: Key32, peerInfo: PeerInfo, hs: HS)
    returns (asWritten: ResponseOutcome, corrected: ResponseOutcome)
    ensures asWritten == Panic && corrected == NoHandshake
  {
    var peer := new PeerState(peerInfo);
    var wg := new WgState(WgInfo(None, key, key), map[peerInfo.peerPubkey := peer], _ => None, cipher, replayCheck);
    var id := Id([1, 2, 3, 4]);
    var t := new Transport.NewFromHs(id, Id([9, 9, 9, 9]), hs, 0, cipher, replayCheck);
    wg.idMap := wg.idMap[id := peer];
    peer.RotateTransport(t, wg);
    assert wg.InSync();
    var p: seq<byte> := [2, 0, 0, 0, 0, 0, 0, 0, 1, 2, 3, 4];
    assert FromSlice(p[8..12]) == id;
    assert wg.idMap == map[id := peer];
    asWritten := wg.ResponseAsWritten(p);
    corrected := wg.Response(p);
  }
}
