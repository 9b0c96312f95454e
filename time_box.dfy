/**
 * The legacy framing around `crypto_secretbox`: a 24-byte nonce whose first
 * 8 bytes are the sender's clock in milliseconds since the UNIX epoch
 * (big-endian) and whose other 16 bytes are random.  The nonce is appended
 * to the sealed box, and the receiver opens the box only if that timestamp
 * is within MAX_DIFF milliseconds of its own clock.
 *
 * Clock readings (in nanoseconds since the epoch) and the random bytes are
 * parameters; the secretbox is the abstract `BoxSeal`/`BoxOpen`.
 */
module TimeBox {
  import opened Bytes
  import opened Wrappers
  import opened Aead

  const MAX_DIFF: nat := 3000
  const NONCE_BYTES: nat := 24
  const RANDOM_BYTES: nat := 16

  /**
   * `system_time_to_millis_epoch`: whole milliseconds since the epoch,
   * rounded down.  The source panics when the clock is before the epoch,
   * which the unsigned reading excludes.
   */
  function MillisSinceEpoch(nanos: nat): (m: nat)
    ensures m * 1_000_000 <= nanos < (m + 1) * 1_000_000
  {
    nanos / 1_000_000
  }

  /** A nonce made at `millis` from 16 random bytes: the big-endian u64 time, then the random bytes. */
  function TimeNonce(millis: nat, random: seq<byte>): (n: seq<byte>)
    requires millis < U64_LIMIT && |random| == RANDOM_BYTES
    ensures |n| == NONCE_BYTES && n[8..] == random
    ensures NonceMillis(n) == millis
  {
    Pow256Of8();
    BeRoundTrip(millis, 8);
    var n := BeBytes(millis, 8) + random;
    assert n[..8] == BeBytes(millis, 8);
    n
  }

  /** The timestamp carried by a nonce: its first 8 bytes as a big-endian u64. */
  function NonceMillis(n: seq<byte>): (m: nat)
    requires |n| >= 8
    ensures m < U64_LIMIT
  {
    FromBeBound(n[..8]);
    Pow256Of8();
    FromBe(n[..8])
  }

  /**
   * `gen_time_nonce`: write the time into out[0..8] and the random bytes
   * into out[8..24] of a zeroed 24-byte buffer.
   */
  method GenTimeNonce(nowNanos: nat, random: seq<byte>) returns (nonce: seq<byte>)
    requires MillisSinceEpoch(nowNanos) < U64_LIMIT && |random| == RANDOM_BYTES
    ensures nonce == TimeNonce(MillisSinceEpoch(nowNanos), random)
  {
    var m := MillisSinceEpoch(nowNanos);
    var out := new byte[NONCE_BYTES](_ => 0);
    var be := BeBytes(m, 8);
    forall i | 0 <= i < 8 {
      out[i] := be[i];
    }
    forall i | 8 <= i < NONCE_BYTES {
      out[i] := random[i - 8];
    }
    nonce := out[..];
    assert nonce == be + random;
  }

  /**
   * |a - b| computed as the source does, subtracting the smaller from the
   * larger, so it never underflows; the two ways round give the same value.
   */
  function Distance(a: nat, b: nat): (d: nat)
    ensures a + d == b || b + d == a
  {
    if b > a then b - a else a - b
  }

  /** `nonce_time_in_range`: the nonce's time is within `maxDiff` ms of `nowMillis`, either way. */
  predicate NonceTimeInRange(n: seq<byte>, nowMillis: nat, maxDiff: nat)
    requires |n| >= 8
    ensures NonceTimeInRange(n, nowMillis, maxDiff) <==>
      nowMillis <= NonceMillis(n) + maxDiff && NonceMillis(n) <= nowMillis + maxDiff
  {
    Distance(NonceMillis(n), nowMillis) <= maxDiff
  }

  /** `encrypt`: the secretbox under a fresh time nonce, with the nonce appended. */
  function Encrypt(c: StreamMac, key: seq<byte>, msg: seq<byte>, millis: nat, random: seq<byte>): (r: seq<byte>)
    requires millis < U64_LIMIT && |random| == RANDOM_BYTES
    ensures |r| == |msg| + TAG_LEN + NONCE_BYTES
    ensures r[..|r| - NONCE_BYTES] == BoxSeal(c, key, TimeNonce(millis, random), msg)
    ensures r[|r| - NONCE_BYTES..] == TimeNonce(millis, random)
  {
    var nonce := TimeNonce(millis, random);
    var e := BoxSeal(c, key, nonce, msg) + nonce;
    assert e[..|e| - NONCE_BYTES] == BoxSeal(c, key, nonce, msg);
    e
  }

  /**
   * `decrypt`: split the last 24 bytes off as the nonce, refuse it if its time
   * is out of range, and otherwise open the box.
   */
  function Decrypt(c: StreamMac, key: seq<byte>, msg: seq<byte>, nowMillis: nat): (r: Option<seq<byte>>)
    ensures |msg| < NONCE_BYTES ==> r.None?
    ensures r.Some? ==> |r.value| + TAG_LEN + NONCE_BYTES == |msg|
    ensures r.Some? ==> NonceTimeInRange(msg[|msg| - NONCE_BYTES..], nowMillis, MAX_DIFF)
  {
    if |msg| < NONCE_BYTES then None
    else
      var box, nonce := msg[..|msg| - NONCE_BYTES], msg[|msg| - NONCE_BYTES..];
      if NonceTimeInRange(nonce, nowMillis, MAX_DIFF) then BoxOpen(c, key, nonce, box) else None
  }

  /**
   * Decryption undoes encryption exactly when the receiver's clock is within
   * MAX_DIFF ms of the sender's; outside that window the message is refused.
   */
  lemma DecryptEncrypt(c: StreamMac, key: seq<byte>, msg: seq<byte>, sealedAt: nat, random: seq<byte>, openedAt: nat)
    requires sealedAt < U64_LIMIT && |random| == RANDOM_BYTES
    ensures Decrypt(c, key, Encrypt(c, key, msg, sealedAt, random), openedAt)
         == if Distance(sealedAt, openedAt) <= MAX_DIFF then Some(msg) else None
  {
    var e := Encrypt(c, key, msg, sealedAt, random);
    var nonce := TimeNonce(sealedAt, random);
    BoxOpenIffSeal(c, key, nonce, e[..|e| - NONCE_BYTES], msg);
  }

  /**
   * Every message `decrypt` accepts is some `encrypt` output: the box sealed
   * under its own trailing nonce, stamped within MAX_DIFF ms of now.
   */
  lemma DecryptAccepts(c: StreamMac, key: seq<byte>, msg: seq<byte>, nowMillis: nat, p: seq<byte>)
    ensures Decrypt(c, key, msg, nowMillis) == Some(p) <==>
      && |msg| >= NONCE_BYTES
      && var nonce := msg[|msg| - NONCE_BYTES..];
         && Distance(NonceMillis(nonce), nowMillis) <= MAX_DIFF
         && msg == Encrypt(c, key, p, NonceMillis(nonce), nonce[8..])
  {
    if |msg| >= NONCE_BYTES {
      var nonce := msg[|msg| - NONCE_BYTES..];
      var box := msg[..|msg| - NONCE_BYTES];
      var m := NonceMillis(nonce);
      assert TimeNonce(m, nonce[8..]) == nonce by {
        assert nonce == BeBytes(m, 8) + nonce[8..] by {
          BeBytesOfFromBe(nonce[..8]);
        }
      }
      BoxOpenIffSeal(c, key, nonce, box, p);
      if msg == Encrypt(c, key, p, m, nonce[8..]) {
        assert box == BoxSeal(c, key, nonce, p);
      }
      if box == BoxSeal(c, key, nonce, p) {
        assert msg == box + nonce;
      }
    }
  }
}
