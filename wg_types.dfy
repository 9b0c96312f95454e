/**
 * WireGuard's shared types: the 4-byte sender/receiver index `Id`, the
 * interface and peer configuration records, and the protocol constants
 * (message counters and timers from section 6 of the WireGuard paper).
 */
module WgTypes {
  import opened Bytes
  import opened Wrappers

  type Bytes4 = s: seq<byte> | |s| == 4 witness [0, 0, 0, 0]

  type Key32 = s: seq<byte> | |s| == 32
    witness [0, 0, 0, 0, 0, 0, 0, 0, 0, 0, 0, 0, 0, 0, 0, 0, 0, 0, 0, 0, 0, 0, 0, 0, 0, 0, 0, 0, 0, 0, 0, 0]

  /** A sender or receiver index, kept as its four wire bytes. */
  datatype Id = Id(bytes: Bytes4)

  /** `Id::from_slice`: copy_from_slice panics unless the slice has 4 bytes. */
  function FromSlice(s: seq<byte>): (id: Id)
    requires |s| == 4
    ensures AsSlice(id) == s
  {
    Id(s)
  }

  function AsSlice(id: Id): (s: seq<byte>)
    ensures |s| == 4
  {
    id.bytes
  }

  /** `Deref for Id` hands out the same bytes as `as_slice`. */
  function Deref(id: Id): (s: seq<byte>)
    ensures s == AsSlice(id) && FromSlice(s) == id
  {
    AsSlice(id)
  }

  /** An Id survives a trip through its byte slice. */
  lemma IdRoundTrip(id: Id)
    ensures FromSlice(AsSlice(id)) == id
  {
  }

  // Message counters.
  const REKEY_AFTER_MESSAGES: nat := 0xfffffffffffeffff
  const REJECT_AFTER_MESSAGES: nat := 0xffffffffffffffef

  // Timers, in seconds.
  const REKEY_AFTER_TIME: nat := 120
  const REJECT_AFTER_TIME: nat := 180
  const REKEY_ATTEMPT_TIME: nat := 90
  const REKEY_TIMEOUT: nat := 5
  const KEEPALIVE_TIMEOUT: nat := 10

  /** Instants and durations are counted in nanoseconds. */
  const SECOND: nat := 1_000_000_000

  /**
   * The counter limits are 2^64 - 2^16 - 1 and 2^64 - 2^4 - 1: rekeying is
   * due strictly before messages are rejected, and both fit a u64.
   */
  lemma CounterLimits()
    ensures REKEY_AFTER_MESSAGES == U64_LIMIT - 0x1_0000 - 1
    ensures REJECT_AFTER_MESSAGES == U64_LIMIT - 0x10 - 1
    ensures REKEY_AFTER_MESSAGES < REJECT_AFTER_MESSAGES < U64_LIMIT
  {
  }

  datatype IpAddr = V4(octets4: Bytes4) | V6(octets16: seq<byte>)

  datatype SocketAddr = SocketAddr(ip: IpAddr, port: nat)

  /** Config info about a WireGuard peer. */
  datatype PeerInfo = PeerInfo(peerPubkey: Key32, endpoint: Option<SocketAddr>, allowedIps: seq<(IpAddr, nat)>)

  /** Config info about a WireGuard interface. */
  datatype WgInfo = WgInfo(psk: Option<Key32>, key: Key32, pubkey: Key32)

  /** `WgInfo::new`: the public key is always the X25519 public key of the private key. */
  function NewWgInfo(x25519Pubkey: Key32 -> Key32, psk: Option<Key32>, key: Key32): (info: WgInfo)
    ensures info.psk == psk && info.key == key
    ensures info.pubkey == x25519Pubkey(info.key)
  {
    WgInfo(psk, key, x25519Pubkey(key))
  }
}
