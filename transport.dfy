/**
 * A WireGuard transport session (section 5.4.6 of the WireGuard paper):
 * the send counter and the last-send time move on every `encrypt`, the
 * anti-replay window and the last-receive time on every accepted `decrypt`,
 * and the timer predicates of section 6.1 read that state.
 *
 * The cipher is ChaCha20-Poly1305 with the Noise nonce layout (4 zero bytes,
 * then the counter as a little-endian u64).  The anti-replay window is not
 * part of this model beyond its verdict: `replayCheck(accepted, c)` says
 * whether counter c passes, given the counters accepted so far.
 */
module Transport {
  import opened Bytes
  import opened Wrappers
  import opened Aead
  import opened WgTypes

  /** What a completed handshake hands over: the role, and the two cipher keys in Noise order. */
  datatype HS = HS(isInitiator: bool, first: Key32, second: Key32)

  /** The initiator sends with the first key; the responder swaps the pair. */
  function SendKey(hs: HS): Key32 { if hs.isInitiator then hs.first else hs.second }

  function RecvKey(hs: HS): Key32 { if hs.isInitiator then hs.second else hs.first }

  /** The other end of the same handshake. */
  function Peer(hs: HS): HS { hs.(isInitiator := !hs.isInitiator) }

  /** What one side sends with is what the other side receives with. */
  lemma KeysMirror(hs: HS)
    ensures SendKey(hs) == RecvKey(Peer(hs)) && RecvKey(hs) == SendKey(Peer(hs))
    ensures SendKey(hs) != RecvKey(hs) ==> SendKey(hs) != SendKey(Peer(hs))
  {
  }

  /**
   * The 12-byte ChaCha20-Poly1305 nonce Noise derives from a counter: four
   * zero bytes, then eight that read back (little-endian) as the counter, so
   * distinct counters never share a nonce.
   */
  function NoiseNonce(counter: nat): (n: seq<byte>)
    requires counter < U64_LIMIT
    ensures |n| == 12 && n[..4] == Zeros(4) && FromLe(n[4..]) == counter
  {
    Pow256Of8();
    LeRoundTrip(counter, 8);
    var n := Zeros(4) + LeBytes(counter, 8);
    assert n[4..] == LeBytes(counter, 8);
    n
  }

  const TRANSPORT_TYPE: seq<byte> := [4, 0, 0, 0]
  const HEADER_LEN: nat := 16

  /** A transport data message: type 4, the receiver's index, the counter (little-endian u64), then the AEAD output. */
  function Packet(receiver: Id, counter: nat, body: seq<byte>): (p: seq<byte>)
    requires counter < U64_LIMIT
    ensures |p| == HEADER_LEN + |body|
  {
    TRANSPORT_TYPE + AsSlice(receiver) + LeBytes(counter, 8) + body
  }

  /** The counter field of a message: bytes 8..16 read as a little-endian u64. */
  function CounterOf(msg: seq<byte>): nat
    requires |msg| >= HEADER_LEN
  {
    FromLe(msg[8..16])
  }

  /** Reading a packet's fields gives back what was written into it. */
  lemma PacketFields(receiver: Id, counter: nat, body: seq<byte>)
    requires counter < U64_LIMIT
    ensures var p := Packet(receiver, counter, body);
      && p[..4] == TRANSPORT_TYPE
      && FromSlice(p[4..8]) == receiver
      && CounterOf(p) == counter
      && p[HEADER_LEN..] == body
  {
    var p := Packet(receiver, counter, body);
    assert p[8..16] == LeBytes(counter, 8);
    Pow256Of8();
    LeRoundTrip(counter, 8);
  }

  /** Why `decrypt` turns a message away. */
  datatype Reject = TooShort | NotTransport | Expired | CounterExhausted

  /**
   * The checks `decrypt` makes before it opens anything: at least 32 bytes,
   * the type header 4,0,0,0, a session younger than REJECT_AFTER_TIME, and a
   * counter below REJECT_AFTER_MESSAGES.  The result is the counter.
   */
  function Screen(msg: seq<byte>, age: nat): (r: Result<nat, Reject>)
    ensures r.Ok? ==> |msg| >= 2 * HEADER_LEN && r.value == CounterOf(msg) && r.value < REJECT_AFTER_MESSAGES
  {
    if |msg| < 32 then Err(TooShort)
    else if msg[..4] != TRANSPORT_TYPE then Err(NotTransport)
    else if age >= REJECT_AFTER_TIME * SECOND then Err(Expired)
    else if CounterOf(msg) >= REJECT_AFTER_MESSAGES then Err(CounterExhausted)
    else Ok(CounterOf(msg))
  }

  /**
   * Every message `encrypt` produces with a usable counter passes `decrypt`'s
   * screen with that counter while the session is young enough, and opens
   * to the original plaintext under the same key.
   */
  lemma SealedPacketOpens(c: StreamMac, key: Key32, receiver: Id, counter: nat, msg: seq<byte>, age: nat)
    requires counter < REJECT_AFTER_MESSAGES && age < REJECT_AFTER_TIME * SECOND
    ensures var p := Packet(receiver, counter, Seal(c, key, NoiseNonce(counter), [], msg));
      && Screen(p, age) == Ok(counter)
      && Open(c, key, NoiseNonce(CounterOf(p)), [], p[HEADER_LEN..]) == Some(msg)
  {
    var body := Seal(c, key, NoiseNonce(counter), [], msg);
    PacketFields(receiver, counter, body);
    OpenIffSeal(c, key, NoiseNonce(counter), [], body, msg);
  }

  /** The screen refuses every message of the wrong shape, whatever the session. */
  lemma ScreenRejects(msg: seq<byte>, age: nat)
    ensures |msg| < 32 ==> Screen(msg, age) == Err(TooShort)
    ensures |msg| >= 32 && msg[..4] != TRANSPORT_TYPE ==> Screen(msg, age) == Err(NotTransport)
    ensures age >= REJECT_AFTER_TIME * SECOND ==> Screen(msg, age).Err?
    ensures |msg| >= HEADER_LEN && CounterOf(msg) >= REJECT_AFTER_MESSAGES ==> Screen(msg, age).Err?
  {
  }

  /** Rust's derived order on Option: None below every Some. */
  predicate After(a: Option<nat>, b: Option<nat>)
  {
    a.Some? && (b.None? || a.value > b.value)
  }

  function OrElse(a: Option<nat>, default: nat): nat
  {
    if a.Some? then a.value else default
  }

  class Transport {
    const selfId: Id
    const peerId: Id
    const isInitiator: bool
    const created: nat
    const sendKey: Key32
    const recvKey: Key32
    const cipher: StreamMac
    const replayCheck: (seq<nat>, nat) -> bool

    var accepted: seq<nat>
    var lastRecv: Option<nat>
    var sendCounter: nat
    var lastSend: Option<nat>

    /** The counter never passes REJECT_AFTER_MESSAGES, and no event predates the session. */
    ghost predicate Valid()
      reads this
    {
      && sendCounter <= REJECT_AFTER_MESSAGES
      && (lastSend.Some? ==> lastSend.value >= created)
      && (lastRecv.Some? ==> lastRecv.value >= created)
    }

    /** `Transport::new_from_hs`, created at instant `now`. */
    constructor NewFromHs(selfId: Id, peerId: Id, hs: HS, now: nat, cipher: StreamMac, replayCheck: (seq<nat>, nat) -> bool)
      ensures Valid()
      ensures this.selfId == selfId && this.peerId == peerId && isInitiator == hs.isInitiator
      ensures sendKey == SendKey(hs) && recvKey == RecvKey(hs)
      ensures created == now && this.cipher == cipher && this.replayCheck == replayCheck
      ensures sendCounter == 0 && lastSend == None && lastRecv == None && accepted == []
    {
      this.selfId := selfId;
      this.peerId := peerId;
      isInitiator := hs.isInitiator;
      sendKey := SendKey(hs);
      recvKey := RecvKey(hs);
      created := now;
      this.cipher := cipher;
      this.replayCheck := replayCheck;
      accepted := [];
      lastRecv := None;
      sendCounter := 0;
      lastSend := None;
    }

    /** Time to start a new handshake. */
    predicate ShouldRekey(now: nat)
      reads this
      requires now >= created
      ensures sendCounter >= REKEY_AFTER_MESSAGES ==> ShouldRekey(now)
      ensures now - created >= (REKEY_AFTER_TIME + 2 * REKEY_TIMEOUT) * SECOND ==> ShouldRekey(now)
    {
      || (After(lastSend, lastRecv)
          && lastSend.value - OrElse(lastRecv, created) > (KEEPALIVE_TIMEOUT + REKEY_TIMEOUT) * SECOND)
      || now - created >= (REKEY_AFTER_TIME + (if isInitiator then 0 else 2 * REKEY_TIMEOUT)) * SECOND
      || sendCounter >= REKEY_AFTER_MESSAGES
    }

    /** Time to send an empty (keepalive) message. */
    predicate ShouldKeepalive()
      reads this
      ensures ShouldKeepalive() ==>
        lastRecv.Some? && (lastSend.None? || lastSend.value + KEEPALIVE_TIMEOUT * SECOND <= lastRecv.value)
    {
      After(lastRecv, lastSend) && lastRecv.value - OrElse(lastSend, created) >= KEEPALIVE_TIMEOUT * SECOND
    }

    /** Time to forget the session. */
    predicate ShouldDelete(now: nat)
      requires now >= created
      ensures ShouldDelete(now) ==> forall msg, age :: age >= now - created ==> Screen(msg, age).Err?
    {
      now - created >= REJECT_AFTER_TIME * 3 * SECOND
    }

    /**
     * `encrypt`: the counter is fetched and incremented (wrapping, as
     * AtomicU64::fetch_add does); at REJECT_AFTER_MESSAGES or above the call
     * fails and the counter is pinned there, so it never wraps.
     */
    method Encrypt(msg: seq<byte>, now: nat) returns (r: Result<seq<byte>, ()>)
      requires Valid() && now >= created
      modifies this`sendCounter, this`lastSend
      ensures Valid()
      ensures old(sendCounter) < REJECT_AFTER_MESSAGES ==>
        && r == Ok(Packet(peerId, old(sendCounter), Seal(cipher, sendKey, NoiseNonce(old(sendCounter)), [], msg)))
        && sendCounter == old(sendCounter) + 1 && lastSend == Some(now)
      ensures old(sendCounter) >= REJECT_AFTER_MESSAGES ==>
        r == Err(()) && sendCounter == REJECT_AFTER_MESSAGES && lastSend == old(lastSend)
    {
      var c := sendCounter;
      sendCounter := (sendCounter + 1) % U64_LIMIT;
      if c >= REJECT_AFTER_MESSAGES {
        sendCounter := REJECT_AFTER_MESSAGES;
        return Err(());
      }

      var body := Seal(cipher, sendKey, NoiseNonce(c), [], msg);
      var out := new byte[|msg| + 32](_ => 0);
      var header := TRANSPORT_TYPE + AsSlice(peerId) + LeBytes(c, 8);
      forall i | 0 <= i < 4 {
        out[i] := TRANSPORT_TYPE[i];
      }
      forall i | 4 <= i < 8 {
        out[i] := AsSlice(peerId)[i - 4];
      }
      forall i | 8 <= i < HEADER_LEN {
        out[i] := LeBytes(c, 8)[i - 8];
      }
      forall i | HEADER_LEN <= i < out.Length {
        out[i] := body[i - HEADER_LEN];
      }
      assert out[..] == Packet(peerId, c, body) by {
        var p := Packet(peerId, c, body);
        assert p == header + body;
        forall i | 0 <= i < out.Length
          ensures out[i] == p[i]
        {
          if i < HEADER_LEN {
            assert p[i] == header[i];
          }
        }
      }

      lastSend := Some(now);
      r := Ok(out[..]);
    }

    /** Whether `decrypt` at instant `now` accepts `msg`: the three conditions its contract names. */
    predicate Admits(msg: seq<byte>, now: nat)
      reads this
    {
      && now >= created
      && Screen(msg, now - created).Ok?
      && Open(cipher, recvKey, NoiseNonce(CounterOf(msg)), [], msg[HEADER_LEN..]).Some?
      && replayCheck(accepted, CounterOf(msg))
    }

    /**
     * `decrypt`: screen the message, open it under the receive key with the
     * counter as nonce, then ask the anti-replay window; only a message that
     * passes all three moves the window and the last-receive time.
     */
    method Decrypt(msg: seq<byte>, now: nat) returns (r: Result<seq<byte>, ()>)
      requires Valid() && now >= created
      modifies this`accepted, this`lastRecv
      ensures Valid()
      ensures r.Ok? <==>
        && Screen(msg, now - created).Ok?
        && Open(cipher, recvKey, NoiseNonce(CounterOf(msg)), [], msg[HEADER_LEN..]).Some?
        && replayCheck(old(accepted), CounterOf(msg))
      ensures r.Ok? ==>
        && r.value == Open(cipher, recvKey, NoiseNonce(CounterOf(msg)), [], msg[HEADER_LEN..]).value
        && |r.value| == |msg| - 2 * HEADER_LEN
        && accepted == old(accepted) + [CounterOf(msg)] && lastRecv == Some(now)
      ensures r.Err? ==> accepted == old(accepted) && lastRecv == old(lastRecv)
    {
      if |msg| < 32 {
        return Err(());
      }
      if msg[0..4] != TRANSPORT_TYPE {
        return Err(());
      }
      if now - created >= REJECT_AFTER_TIME * SECOND {
        return Err(());
      }
      var counter := FromLe(msg[8..16]);
      if counter >= REJECT_AFTER_MESSAGES {
        return Err(());
      }

      var plain := Open(cipher, recvKey, NoiseNonce(counter), [], msg[HEADER_LEN..]);
      if plain.None? {
        return Err(());
      }

      if !replayCheck(accepted, counter) {
        return Err(());
      }
      accepted := accepted + [counter];

      lastRecv := Some(now);
      r := Ok(plain.value);
    }
  }

  /**
   * The timers agree with the counters: a session that `decrypt` rejects for
   * age already wants a rekey (either role), one that `should_delete` has
   * long been rejected, and a send counter that makes `encrypt` fail is past
   * the rekey threshold.
   */
  lemma RekeyBeforeReject(t: Transport, now: nat)
    requires t.Valid() && now >= t.created
    ensures now - t.created >= REJECT_AFTER_TIME * SECOND ==> t.ShouldRekey(now)
    ensures t.ShouldDelete(now) ==> now - t.created >= REJECT_AFTER_TIME * SECOND
    ensures t.sendCounter >= REJECT_AFTER_MESSAGES ==> t.ShouldRekey(now)
  {
  }

  /** Once due, deletion stays due: should_delete is monotone in time. */
  lemma DeleteStaysDue(t: Transport, now: nat, later: nat)
    requires now >= t.created && later >= now
    ensures t.ShouldDelete(now) ==> t.ShouldDelete(later)
  {
  }

  /**
   * A keepalive is due only after a receive newer than every send, and a
   * rekey for lack of replies only after a send newer than every receive:
   * the two never hold for the same reason at once.
   */
  lemma KeepaliveExcludesUnansweredSend(t: Transport)
    requires t.Valid()
    ensures t.ShouldKeepalive() ==> !After(t.lastSend, t.lastRecv)
    ensures t.ShouldKeepalive() ==> t.lastRecv.Some? && t.lastRecv.value >= t.created + KEEPALIVE_TIMEOUT * SECOND
  {
  }
}
