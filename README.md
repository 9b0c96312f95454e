# titun core, modelled in Dafny

TiTun is a WireGuard implementation in Rust, running over a Linux TUN device. This project models and proves its sequential core:

- **TUN allocation, twice.**
  - The C primitive `alloc_tun` opens `/dev/net/tun` and zeroes a `struct ifreq`. It sets `IFF_TUN | IFF_NO_PI` and `strncpy`s the wanted name into the 16-byte `ifr_name`. It then issues `TUNSETIFF`. If that fails, it closes the descriptor and restores errno. Otherwise it `strncpy`s the kernel's name into the caller's buffer.
  - The Rust `Tun::create` does the same with a checked name: at most 15 bytes and no interior NUL. It decodes the kernel's name up to its first NUL. The Rust side also has `Drop`, `into_raw_fd` and `set_nonblocking`.
- **The kernel as an oracle** (`Linux`). It holds the set of open descriptors and their status flags, errno, and a trace of the calls it served. `open` and `TUNSETIFF` answer with a reply fixed when the oracle is built. The ioctl may overwrite the 16-byte name.
- **WireGuard transport sessions** (`Transport`), as in section 5.4.6 of the WireGuard paper:
  - the header layout and the little-endian counter;
  - the send counter that is pinned and never wraps;
  - the reject checks and the anti-replay gate;
  - the timer predicates of section 6.1.
- **The controller** (`Controller`):
  - a peer's primary/secondary session slots, kept in step with the map from local index to peer;
  - dispatch of datagrams by type and length;
  - the handshake-timestamp check and the reverse-path filter;
  - the sweep that removes leaked index entries.
- **Types and constants** (`WgTypes`), **the time-nonce secretbox framing** (`TimeBox`), **XChaCha20-Poly1305** as section 2.3 of draft-irtf-cfrg-xchacha builds it on section 2.8 of RFC 8439 (`XChaCha`), and **the configuration helpers** (`Config`).

Ciphers, HChaCha20, X25519, base64, IP parsing, DNS, the longest-prefix tables, the anti-replay window, the clock and random bytes are parameters: function values or plain inputs. The two AEADs are modelled structurally, as keystream xor plus a MAC over function values (`Aead`). This makes "open undoes seal, and accepts nothing else" a theorem, not an assumption.

Files:

- `wrappers.dfy`: Option and Result.
- `byte_cast.dfy` and `bytes.dfy`: bytes, little- and big-endian encodings, and the C-string view.
- `aead.dfy`: the two AEADs.
- `linux.dfy`: the kernel oracle.
- `alloc_tun.dfy`, `tun.dfy`, `wg_types.dfy`, `transport.dfy`, `controller.dfy`, `time_box.dfy`, `xchacha.dfy`, `config.dfy`: one per source file.

How the two allocators treat names and descriptors:

- The C code `strncpy`s 16 bytes without a terminator when the requested name has 16 or more bytes (`AllocTun.StrNCpyShape`). The Rust code rejects names longer than 15 bytes with `InvalidInput` (`Tun.EncodeName`).
- The C code closes the descriptor when `TUNSETIFF` fails. The Rust `create` does not; see Findings.

## Model

| member | source | states |
|---|---|---|
| Linux.Iow | src/alloc_tun.c:42 | `_IOW(type, nr, size)` puts the write direction in the top bits, the size in bits 16..29, the type in bits 8..15 and the number in bits 0..7; each field is recovered from the code |
| Linux.TunConstants | src/alloc_tun.c:39-42 | TUNSETIFF = `_IOW('T', 202, int)` = 0x400454CA and IFF_TUN \| IFF_NO_PI = 0x1001 |
| Bytes.CStr | src/tun.rs:85-87 | the C-string view of a buffer has no NUL, is a prefix of the buffer, and ends at the buffer's first NUL when there is one |
| Bytes.LeRoundTrip | src/wireguard/transport.rs:144 | reading back a little-endian u64 write gives the value written |
| Bytes.LeBytesOfFromLe | src/wireguard/transport.rs:167 | writing back a little-endian read gives the bytes read, so every 8-byte counter field is some counter's encoding |
| Bytes.BeRoundTrip | src/crypto.rs:64 | reading back a big-endian u64 write gives the value written |
| Bytes.BeBytesOfFromBe | src/crypto.rs:72 | writing back a big-endian read gives the bytes read |
| AllocTun.StrNCpy | src/alloc_tun.c:64 | `strncpy(dst, src, n)` always fills exactly n bytes of dst |
| AllocTun.StrNCpyShape | src/alloc_tun.c:64 | strncpy copies the first min(strlen, n) bytes, zero-fills the rest, and leaves a terminator in dst[0..n] exactly when strlen < n |
| AllocTun.IfReq.Zero | src/alloc_tun.c:61 | after the memset every name byte and the flags are zero |
| AllocTun.StrNCpyInto | src/alloc_tun.c:73 | the in-place strncpy writes `StrNCpy(src, n)` into dst[0..n] and leaves every byte from n on untouched |
| AllocTun.AllocTunDevice | src/alloc_tun.c:54-76 | open failure: -1, errno from open, nothing else called, no descriptor open. Ioctl failure: the request was the zeroed, strncpy'd name with flags 0x1001; the fd is closed, errno is the ioctl's, and -1 is returned. Success: the opened fd is returned and still open, errno is unchanged, and name_out[0..name_len] is the strncpy of the kernel's name, with nothing past name_len written. Exactly one of "one new owned fd" and "-1 with no fd left open" holds |
| Tun.EncodeName | src/tun.rs:61-70 | a name is accepted exactly when it is absent or shorter than 16 bytes without a NUL; a refusal is InvalidInput; the encoding is the name plus one NUL, at most 16 bytes |
| Tun.RequestName | src/tun.rs:76-81 | ifr.name is 16 bytes and starts with the encoded name |
| Tun.RequestDecodesToName | src/tun.rs:85-99 | the request holds the name, then only zeros, so decoding an unchanged buffer gives back exactly the requested name |
| Tun.WithNonblock | src/tun.rs:107-111 | the O_NONBLOCK bit equals `nb` and every other bit is unchanged |
| Tun.PositionOfNul | src/tun.rs:85 | finds a zero exactly when the buffer has one, and then it is the first, so the bytes before it are the C string |
| Tun.Tun.Drop | src/tun.rs:49-54 | dropping an owned handle closes its fd (and only it) and ends ownership |
| Tun.Tun.IntoRawFd | src/tun.rs:123-129 | hands out the fd and ends ownership, so Drop (which requires ownership) can no longer close it: the fd is closed at most once |
| Tun.Tun.SetNonblocking | src/tun.rs:104-114 | on an open fd, F_GETFL then F_SETFL with `WithNonblock` of the old flags, returning Ok; on a closed fd, EBADF after the F_GETFL and the flags unchanged |
| Tun.OpenAndConfigure | src/tun.rs:72-83 | opens with O_RDWR \| O_CLOEXEC; on success issues TUNSETIFF with the zero-padded encoded name and 0x1001, and the buffer afterwards is the kernel's reply name |
| Tun.DecodeName | src/tun.rs:85-91 | the returned name is the bytes of ifr.name before its first NUL |
| Tun.CreateAsWritten | src/tun.rs:60-96 | a refused name touches nothing; when open succeeds and TUNSETIFF fails, the result is the ioctl's error and the fd is still open |
| Tun.Create | src/tun.rs:60-96 | every outcome as for `AllocTunDevice`, with the fd closed when TUNSETIFF fails: each error leaves the open fds as they were; success returns a fresh owned handle with the new fd and the decoded kernel name |
| Tun.LeakWitness | src/tun.rs:83 | with open giving fd 3 and TUNSETIFF failing with EBUSY, fd 3 stays open as written and nothing stays open once corrected |
| WgTypes.FromSlice | src/wireguard/types.rs:80-84 | `Id::from_slice` needs exactly 4 bytes and copies them exactly |
| WgTypes.AsSlice | src/wireguard/types.rs:86-88 | the slice of an Id is always 4 bytes |
| WgTypes.Deref | src/wireguard/types.rs:91-97 | deref gives the same bytes as as_slice, and those rebuild the Id |
| WgTypes.IdRoundTrip | src/wireguard/types.rs:80-88 | `from_slice(as_slice(id)) == id` |
| WgTypes.CounterLimits | src/wireguard/types.rs:101-104 | REKEY_AFTER_MESSAGES = 2^64 - 2^16 - 1 < REJECT_AFTER_MESSAGES = 2^64 - 2^4 - 1 < 2^64 |
| WgTypes.NewWgInfo | src/wireguard/types.rs:45-57 | `WgInfo::new` keeps psk and key and establishes pubkey == X25519 pubkey(key) |
| Transport.KeysMirror | src/wireguard/transport.rs:54-59 | the initiator sends with the first key and receives with the second, the responder the other way round, so one side's send key is the other side's receive key |
| Transport.NoiseNonce | src/wireguard/transport.rs:146 | the cipher nonce for a counter is 12 bytes: four zeros, then eight that read back little-endian as the counter, so distinct counters give distinct nonces |
| Transport.Packet | src/wireguard/transport.rs:141-146 | a transport message is 16 header bytes longer than its AEAD body, so `msg.len() + 32` in all |
| Transport.PacketFields | src/wireguard/transport.rs:142-144 | bytes 0..4 are 4,0,0,0, bytes 4..8 rebuild the receiver's Id, bytes 8..16 read back as the counter, and the rest is the body |
| Transport.Screen | src/wireguard/transport.rs:155-171 | a message passes only with at least 32 bytes, and then its counter (bytes 8..16) is below REJECT_AFTER_MESSAGES |
| Transport.ScreenRejects | src/wireguard/transport.rs:155-171 | messages under 32 bytes, a wrong type header, a session aged REJECT_AFTER_TIME or more, and a counter at or above REJECT_AFTER_MESSAGES are all refused |
| Transport.SealedPacketOpens | src/wireguard/transport.rs:133-174 | every message encrypt builds with a usable counter passes decrypt's screen with that counter while the session is young, and opens to the original plaintext |
| Transport.Transport.NewFromHs | src/wireguard/transport.rs:53-77 | a new session has the handshake's role and keys (mirrored for the responder), counter 0, no send or receive yet, and an empty replay window |
| Transport.Transport.ShouldRekey | src/wireguard/transport.rs:79-106 | a rekey is due once the send counter reaches REKEY_AFTER_MESSAGES, and in either role once the session is REKEY_AFTER_TIME + 2 REKEY_TIMEOUT old |
| Transport.Transport.ShouldKeepalive | src/wireguard/transport.rs:108-122 | a keepalive is due only when something was received, at least KEEPALIVE_TIMEOUT after the last send (if any) |
| Transport.Transport.ShouldDelete | src/wireguard/transport.rs:124-126 | a session due for deletion refuses every message at its age and at every later one |
| Transport.Transport.Encrypt | src/wireguard/transport.rs:133-151 | below REJECT_AFTER_MESSAGES: the packet with the pre-increment counter, the counter advanced by one, last_send = now. Otherwise: error with the counter pinned at REJECT_AFTER_MESSAGES, so successive calls use 0, 1, 2, … and never wrap |
| Transport.Transport.Decrypt | src/wireguard/transport.rs:154-184 | succeeds exactly when the screen passes, the body opens under the receive key with the counter's nonce, and the replay check accepts. The plaintext is `msg.len() - 32` bytes. The window and last-receive time move only on success |
| Transport.RekeyBeforeReject | src/wireguard/transport.rs:79-126 | a session too old to decrypt already wants a rekey in either role; should_delete implies too old to decrypt; a send counter at the reject limit wants a rekey |
| Transport.DeleteStaysDue | src/wireguard/transport.rs:124-126 | should_delete stays true as time passes |
| Transport.KeepaliveExcludesUnansweredSend | src/wireguard/transport.rs:79-122 | a keepalive is due only after a receive newer than every send, at least KEEPALIVE_TIMEOUT after the session began |
| Controller.PeerState.constructor | src/wireguard/controller.rs:506-514 | a peer starts with no handshake, no sessions and no last timestamp |
| Controller.PeerState.FindTransportById | src/wireguard/controller.rs:556-568 | a matching primary is returned first, otherwise a matching secondary, otherwise None; None exactly when neither slot matches |
| Controller.PeerState.HasId | src/wireguard/controller.rs:570-587 | `has_id(id)` holds exactly when id is the handshake's index or the index of a session in one of the two slots |
| Controller.PeerState.HasIdIffKnown | src/wireguard/controller.rs:570-587 | `has_id(id)` holds exactly when id is the handshake's index or `find_transport_by_id(id)` finds a session |
| Controller.PeerState.RotateTransport | src/wireguard/controller.rs:536-545 | the new session is primary, the old primary is secondary, and the map loses only the old secondary's index (nothing if there was none) |
| Controller.PeerState.RemovePeerById | src/wireguard/controller.rs:547-554 | each slot whose session has the index is emptied and the other is kept; afterwards no session has it, and has_id holds only through the handshake |
| Controller.Classify | src/wireguard/controller.rs:226-237 | datagrams under 12 bytes are dropped; first byte 1/2/3/4 selects init/response/cookie/transport; any other value is ignored |
| Controller.InitPayload | src/wireguard/controller.rs:65-70 | an initiation is processed only at exactly 148 bytes, cut to its first 132 |
| Controller.Truncate | src/wireguard/controller.rs:194 | `Vec::truncate(len)` keeps a prefix of min(len, size) bytes |
| Controller.WgState.constructor | src/wireguard/controller.rs:525-531 | a new state starts with an empty index map |
| Controller.WgState.SweepLeaks | src/wireguard/controller.rs:416-432 | after the sweep every index maps to a peer that has it, and exactly the entries that were in sync are kept |
| Controller.WgState.HandleInit | src/wireguard/controller.rs:64-114 | each outcome holds exactly when its gate decides: wrong length exactly when the datagram is not 148 bytes; failed authentication exactly when processing the initiation fails; unknown peer exactly when its static key is not configured; stale exactly when the timestamp is not newer than the last; responded exactly when all four pass. A refusal changes nothing. On response: last_handshake becomes the timestamp; a fresh session under the new index, with the handshake's role and keys (mirrored for the responder), counter 0 and an empty window, becomes primary and the old primary secondary; the endpoint becomes the sender; the map gains the new index and loses only the old secondary's; every other peer is unchanged. The map stays in sync |
| Controller.WgState.HandleTransport | src/wireguard/controller.rs:162-216 | unknown index exactly when the receiver index is not in the map; no session exactly when neither slot of that peer holds it; decryption failed exactly when that session does not admit p (`Transport.Transport.Admits`: screen, tag, replay window). Otherwise the plaintext is the AEAD opening of p's body under that session's receive key and counter nonce, `p.len() - 32` bytes, and the session records the counter and the receive time. It is not an IP packet exactly when parsing fails; it is delivered exactly when the longest-prefix match of its source is the very peer it came from, truncated to the IP length. Every decrypted message moves that peer's endpoint to the sender. No slot, handshake or other peer changes, and no other session; nothing changes in any session when the message is refused |
| Controller.WgState.ResponseAsWritten | src/wireguard/controller.rs:116-136 | the handler panics exactly when the receiver index names a peer with no handshake in progress |
| Controller.WgState.Response | src/wireguard/controller.rs:116-136 | with the unwrap replaced by a check: never panics, forwards exactly when the index is the handshake's own, and agrees with the code wherever the code does not panic |
| Controller.ResponsePanicWitness | src/wireguard/controller.rs:124 | a peer holding a responder session under index 1,2,3,4 and a 12-byte type-2 datagram naming it: the code panics, the corrected handler ignores it |
| TimeBox.MillisSinceEpoch | src/crypto.rs:55-58 | the whole milliseconds in the clock reading, rounded down |
| TimeBox.TimeNonce | src/crypto.rs:60-69 | the nonce is 24 bytes; its first 8 read back (big-endian) as the time and the other 16 are the random bytes |
| TimeBox.NonceMillis | src/crypto.rs:72 | the time read from a nonce fits a u64 |
| TimeBox.GenTimeNonce | src/crypto.rs:60-69 | writing the time and the random bytes into the 24-byte buffer yields `TimeNonce` |
| TimeBox.Distance | src/crypto.rs:75 | the distance is \|a - b\|, computed without underflow: adding it to the smaller time gives the larger |
| TimeBox.NonceTimeInRange | src/crypto.rs:71-78 | the nonce's time is accepted exactly when it lies within max_diff ms of now, before or after |
| TimeBox.Encrypt | src/crypto.rs:34-39 | the output is the secretbox under the time nonce followed by that nonce |
| TimeBox.Decrypt | src/crypto.rs:41-53 | None below 24 bytes (so for the 4-byte input of the test); a result only when the trailing nonce's time is within MAX_DIFF of now |
| TimeBox.DecryptEncrypt | src/crypto.rs:34-53 | decrypt(encrypt(m)) is m exactly when the clocks are within MAX_DIFF = 3000 ms of each other, and None otherwise |
| TimeBox.DecryptAccepts | src/crypto.rs:41-53 | decrypt returns p exactly when the input is encrypt(p) under its own trailing nonce, stamped within MAX_DIFF of now |
| XChaCha.InnerNonce | src/crypto/xchacha20poly1305.rs:30-32 | the inner nonce is 12 bytes: four zeros, then nonce[16..24] |
| XChaCha.InnerNonceInjective | src/crypto/xchacha20poly1305.rs:30-32 | two nonces give the same inner nonce exactly when their last 8 bytes agree |
| XChaCha.SubKeyNonceSplit | src/crypto/xchacha20poly1305.rs:23-49 | the HChaCha20 subkey depends on the nonce only through its first 16 bytes, and the inner nonce exactly through its last 8 |
| XChaCha.Encrypt | src/crypto/xchacha20poly1305.rs:23-35 | needs a 32-byte key and a 24-byte nonce; the output is 16 bytes longer than the plaintext |
| XChaCha.Decrypt | src/crypto/xchacha20poly1305.rs:37-49 | needs a 32-byte key and a 24-byte nonce; a plaintext is 16 bytes shorter than the input |
| XChaCha.DecryptIffEncrypt | src/crypto/xchacha20poly1305.rs:23-49 | decrypt yields Ok(p) exactly when the input is encrypt(p) under the same key, nonce and associated data |
| XChaCha.DecryptEncrypt | src/crypto/xchacha20poly1305.rs:23-49 | `decrypt(k, n, ad, encrypt(k, n, ad, p)) == Ok(p)` |
| Config.Split | src/config.rs:81 | `split('/')` gives at least one piece and no piece holds a '/' |
| Config.JoinSplit | src/config.rs:81 | joining the pieces with '/' gives the string back |
| Config.SplitCount | src/config.rs:81 | there is one more piece than there are '/' characters |
| Config.SplitJoin | src/config.rs:81 | splitting slash-free pieces joined by '/' gives those pieces back |
| Config.ParseU32 | src/config.rs:85 | `parse::<u32>` accepts exactly an optional '+' and one or more digits whose value is below 2^32 |
| Config.ParseDecimal | src/config.rs:85 | every u32 parses back from its decimal spelling |
| Config.ParseCidr | src/config.rs:76-97 | more than two pieces is an error; a prefix is any u32, or 128 for a bare IPv6 address |
| Config.CidrSlashes | src/config.rs:81-96 | two or more '/' is an error; no '/' gives the address with prefix 32 (IPv4) or 128 (IPv6), or the address error |
| Config.CidrRoundTrip | src/config.rs:81-86 | "addr/p" with a u32 p parses to (addr, p), with p not range-checked against the address family |
| Config.Base64ToArr | src/config.rs:65-74 | succeeds exactly when base64 decodes to the required length, returning those bytes; an undecodable input is a base64 error |
| Config.ToSocketAddr | src/config.rs:56-63 | succeeds exactly when the name resolves, with the first address; otherwise the resolve error |
| Config.ParseKey | src/config.rs:122 | a key parses exactly when base64 gives 32 bytes |
| Config.LiftErr | src/config.rs:99-105 | Some(Ok t) gives Ok(Some t), None gives Ok(None), and Some(Err e) gives an error |
| Config.LiftAll | src/config.rs:107-114 | the lifted vector is Ok exactly when every item is Ok, and then has one value per item |
| Config.LiftErrRoundTrip | src/config.rs:99-105 | lift_err is a bijection: `Unlift` undoes it both ways, so Some(Err e) gives exactly Err e |
| Config.LiftAllOk | src/config.rs:107-114 | the lifted vector is Ok(vs) exactly when every item is Ok, and then vs holds every value in order |
| Config.LiftAllErr | src/config.rs:107-114 | the lifted vector is Err(e) exactly when e is the error of the first item that is not Ok |
| Config.LiftAllFailsOnErr | src/config.rs:107-114 | one error anywhere makes the lifted vector an error |
| Config.LiftErrVec | src/config.rs:107-114 | the loop that pushes values and returns at the first error computes `LiftAll` |
| Config.ParsePeer | src/config.rs:124-138 | a parsed peer has the decoded public key, the resolved endpoint exactly when one was given, and one parsed CIDR per allowed-IP string in order; a bad key fails with the key's error, and then an unresolvable endpoint with the resolver's error |
| Config.ParseConfig | src/config.rs:116-149 | a parsed configuration copies the name, port and scripts, has the decoded key with its X25519 public key, the decoded psk exactly when one was given, and one parsed peer per peer entry in order |
| Config.ParseConfigFails | src/config.rs:116-149 | parsing fails exactly when the psk (if given), the key or some peer fails |

## Left out

- I/O and the clock: the clock, random bytes and the socket are inputs. The handshake response message (built by `responde` and `cookie_sign`) and its UDP send are not modelled; `HandleInit` returns only the outcome, with the new index. The TUN write is modelled as the bytes `HandleTransport` would write. The `unwrap()`s on I/O errors are not modelled.
- Concurrency: threads, `RwLock`/`Mutex` and channels are not modelled. Each handler is one atomic step. Of the `start_*` thread bodies only the dispatch of `start_udp_recv` (`Controller.Classify`) and the leak sweep of the maintaining thread (`Controller.WgState.SweepLeaks`) are modelled; the rest, the cookie-reply handler `udp_get_cookie_reply` and the cookie/`last_mac1` fields of a peer only wire abstract Noise and cookie processing to channels.
- Controller.Classify: the 1500-byte (`BUFSIZE`) receive buffer of `start_udp_recv`, which cuts longer datagrams to their first 1500 bytes, is not modelled; datagrams are taken as received whole.
- `WgState::new`: building the public-key map and the routing tables from the peer list is not modelled. The constructor takes the map and the longest-prefix lookup as given; the lookup is a function value, and peer identity stands for `Arc::ptr_eq`.
- Noise handshake processing (`process_initiation`, `responde`, `cookie_sign`), ChaCha20-Poly1305, secretbox, HChaCha20 and X25519 are abstract. The AEADs are keystream xor plus an uninterpreted MAC. This proves the round trips, not any security property.
- Controller.WgState.HandleInit: `r.handshake_state.get_rs().unwrap()` is taken to succeed, since processing an initiation always yields the remote static key. `Id::gen` is the `newId` input.
- The anti-replay window is only its verdict, a function of the counters accepted so far.
- Tun.Create: the UTF-8 check `to_str().unwrap()` on the kernel's name is not modelled. Kernel names are taken as valid.
- Tun.Tun.SetNonblocking: the `OFlag::from_bits(flags).unwrap()` check that no unknown bits are set is not modelled.
- The TUNSETIFF request in tun.rs passes `&ifr` as a `*const` pointer while the kernel writes into it. The model lets the kernel write the name back, as it does at run time.
- AllocTun.AllocTunDevice: when the request name had no terminator and the kernel leaves `ifr_name` unchanged, the C `strncpy` into `name_out` reads past `ifr_name` into the flags member. The model stops at the end of the 16-byte field. The kernel-written name is always terminated (`Linux.KernelName`).
- Config: YAML deserialisation, base64 decoding, IP-address parsing and DNS resolution (`to_socket_addr`) are abstract. The input is the deserialised `ConfigSerde`. `listen_port` is a `nat`; its u16 range is enforced by YAML parsing, which is not modelled.
- TimeBox.GenTimeNonce: the clock is taken to be after the epoch (`duration_since(UNIX_EPOCH).unwrap()`) and small enough that `d * 1000` does not overflow. Both are stated as requiring the millisecond count to fit a u64.
- WgTypes.FromSlice: the length-mismatch panic of `copy_from_slice` in `Id::from_slice` (src/wireguard/types.rs:82) is a precondition; every caller passes a 4-byte slice.
- XChaCha.Encrypt, XChaCha.Decrypt: the `assert_eq!` panics on a key that is not 32 bytes or a nonce that is not 24 bytes are preconditions, not modelled as panics.
- `get_name`, `as_raw_fd`, `read` and `write` on `Tun` are plain field reads or system calls and are not modelled.

## Findings

| source | as written | input that shows it | evidently intended | confidence | as-written member | corrected member |
|---|---|---|---|---|---|---|
| src/tun.rs:83 | the `?` on the TUNSETIFF result returns before any `Tun` owns the fd, so `Drop` never closes it and the descriptor leaks | `open` returns fd 3 and TUNSETIFF fails with EBUSY (16), e.g. the requested name is taken | close the fd before returning the error, as src/alloc_tun.c:66-71 does | high; not executed | Tun.CreateAsWritten, Tun.LeakWitness | Tun.Create |
| src/wireguard/controller.rs:124 | `peer.handshake.as_ref().unwrap()` panics when the receiver index names a peer that has a session but no handshake in progress, killing the UDP receive thread | after answering a handshake as responder under index 1,2,3,4 (no handshake of our own in progress), a 12-byte datagram `2,0,0,0,0,0,0,0,1,2,3,4` | ignore the response, as the code does for a handshake with another index | high; not executed | Controller.WgState.ResponseAsWritten, Controller.ResponsePanicWitness | Controller.WgState.Response |
