/**
 * Turning the deserialised configuration into WireGuard settings: fixed-length
 * keys from base64, allowed-IP CIDRs (`addr/prefix`, or a bare address meaning
 * a host route), optional endpoints, and the lifting of per-item results into
 * one result that carries the first error.
 *
 * YAML, base64, IP-address parsing, DNS resolution and X25519 are function
 * values in `Env`; the input is the already-deserialised `ConfigSerde`.
 */
module Config {
  import opened Bytes
  import opened Wrappers
  import opened WgTypes

  datatype ConfigError =
    | Base64Error
    | NotKeyLength
    | AddrParseError
    | IntParseError
    | CidrError
    | ResolveError

  /** The parsers the configuration relies on and does not contain. */
  datatype Env = Env(
    base64: string -> Option<seq<byte>>,
    parseIp: string -> Option<IpAddr>,
    resolve: string -> Option<SocketAddr>,
    x25519Pubkey: Key32 -> Key32)

  // ---------------------------------------------------------------- str::split

  /** The index of the first `sep` in `s`, which must occur. */
  function IndexOf(s: string, sep: char): (k: nat)
    requires sep in s
    ensures k < |s| && s[k] == sep && sep !in s[..k]
  {
    if s[0] == sep then 0 else 1 + IndexOf(s[1..], sep)
  }

  /** `s.split(sep)`: the pieces between separators, in order; one more piece than separators. */
  function Split(s: string, sep: char): (r: seq<string>)
    ensures |r| >= 1
    ensures forall i :: 0 <= i < |r| ==> sep !in r[i]
    decreases |s|
  {
    if sep !in s then [s]
    else
      var k := IndexOf(s, sep);
      [s[..k]] + Split(s[k + 1..], sep)
  }

  /** The pieces joined with the separator between them. */
  function Join(pieces: seq<string>, sep: char): string
    requires |pieces| >= 1
  {
    if |pieces| == 1 then pieces[0] else pieces[0] + [sep] + Join(pieces[1..], sep)
  }

  /** Splitting loses nothing: joining the pieces gives the string back. */
  lemma {:induction false} JoinSplit(s: string, sep: char)
    ensures Join(Split(s, sep), sep) == s
    decreases |s|
  {
    if sep in s {
      var k := IndexOf(s, sep);
      JoinSplit(s[k + 1..], sep);
      assert s == s[..k] + [sep] + s[k + 1..];
    }
  }

  /** There is one piece per separator, plus one. */
  lemma {:induction false} SplitCount(s: string, sep: char)
    ensures |Split(s, sep)| == multiset(s)[sep] + 1
    decreases |s|
  {
    if sep in s {
      var k := IndexOf(s, sep);
      SplitCount(s[k + 1..], sep);
      assert s == s[..k] + [sep] + s[k + 1..];
      assert multiset(s[..k])[sep] == 0;
    } else {
      assert multiset(s)[sep] == 0;
    }
  }

  /** Splitting pieces that hold no separator, joined by it, gives those pieces back. */
  lemma {:induction false} SplitJoin(pieces: seq<string>, sep: char)
    requires |pieces| >= 1 && forall i :: 0 <= i < |pieces| ==> sep !in pieces[i]
    ensures Split(Join(pieces, sep), sep) == pieces
  {
    if |pieces| > 1 {
      var head, tail := pieces[0], pieces[1..];
      assert forall i :: 0 <= i < |tail| ==> sep !in tail[i] by {
        forall i | 0 <= i < |tail| ensures sep !in tail[i] {
          assert tail[i] == pieces[i + 1];
        }
      }
      var rest := Join(tail, sep);
      var s := Join(pieces, sep);
      assert s == head + ([sep] + rest);
      IndexOfPrefix(head, [sep] + rest, sep);
      assert s[..|head|] == head;
      assert s[|head| + 1..] == rest;
      SplitJoin(tail, sep);
      assert pieces == [head] + tail;
    }
  }

  lemma {:induction false} IndexOfPrefix(a: string, b: string, sep: char)
    requires sep !in a && |b| > 0 && b[0] == sep
    ensures sep in a + b && IndexOf(a + b, sep) == |a|
  {
    assert (a + b)[|a|] == sep;
    if a != [] {
      assert (a + b)[1..] == a[1..] + b;
      IndexOfPrefix(a[1..], b, sep);
    }
  }

  // ---------------------------------------------------------- u32::from_str

  predicate IsDigit(ch: char) { '0' <= ch <= '9' }

  /** The value of a string of decimal digits, most significant first. */
  function DigitsValue(s: string): nat
    requires forall i :: 0 <= i < |s| ==> IsDigit(s[i])
  {
    if s == [] then 0 else 10 * DigitsValue(s[..|s| - 1]) + DigitValue(s[|s| - 1])
  }

  function DigitValue(ch: char): nat
    requires IsDigit(ch)
  {
    ch as int - '0' as int
  }

  /** The shortest decimal spelling of n. */
  function Decimal(n: nat): (s: string)
    ensures |s| >= 1 && forall i :: 0 <= i < |s| ==> IsDigit(s[i])
  {
    if n < 10 then [('0' as int + n) as char] else Decimal(n / 10) + [('0' as int + n % 10) as char]
  }

  /** Reading back the decimal spelling of n gives n. */
  lemma {:induction false} DecimalRoundTrip(n: nat)
    ensures DigitsValue(Decimal(n)) == n
  {
    if n >= 10 {
      var s := Decimal(n);
      assert s[..|s| - 1] == Decimal(n / 10);
      DecimalRoundTrip(n / 10);
    }
  }

  const U32_LIMIT: nat := 0x1_0000_0000

  /**
   * `str::parse::<u32>`: an optional '+', then one or more decimal digits
   * whose value fits in 32 bits.
   */
  function ParseU32(s: string): (r: Result<nat, ConfigError>)
    ensures r.Ok? ==> r.value < U32_LIMIT
    ensures r.Ok? <==>
      var d := if |s| > 0 && s[0] == '+' then s[1..] else s;
      && |d| > 0 && (forall i :: 0 <= i < |d| ==> IsDigit(d[i]))
      && DigitsValue(d) < U32_LIMIT
  {
    var d := if |s| > 0 && s[0] == '+' then s[1..] else s;
    if |d| == 0 || exists i :: 0 <= i < |d| && !IsDigit(d[i]) then Err(IntParseError)
    else if DigitsValue(d) >= U32_LIMIT then Err(IntParseError)
    else Ok(DigitsValue(d))
  }

  /** Every u32 parses back from its decimal spelling. */
  lemma ParseDecimal(n: nat)
    requires n < U32_LIMIT
    ensures ParseU32(Decimal(n)) == Ok(n)
  {
    DecimalRoundTrip(n);
  }

  // -------------------------------------------------------------- parse_cidr

  /** A bare address is a host route: 32 bits for IPv4, 128 for IPv6. */
  function HostPrefix(a: IpAddr): nat
  {
    match a
    case V4(_) => 32
    case V6(_) => 128
  }

  /** `parse_cidr`: `addr/prefix`, or a bare address with its full-length prefix. */
  function ParseCidr(env: Env, s: string): (r: Result<(IpAddr, nat), ConfigError>)
    ensures |Split(s, '/')| > 2 ==> r == Err(CidrError)
    ensures r.Ok? ==> r.value.1 < U32_LIMIT || r.value.1 == 128
  {
    var ss := Split(s, '/');
    if |ss| == 2 then
      match env.parseIp(ss[0])
      case None => Err(AddrParseError)
      case Some(a) =>
        match ParseU32(ss[1])
        case Err(e) => Err(e)
        case Ok(p) => Ok((a, p))
    else if |ss| == 1 then
      match env.parseIp(ss[0])
      case None => Err(AddrParseError)
      case Some(a) => Ok((a, HostPrefix(a)))
    else Err(CidrError)
  }

  /** More than one '/' is an error; the prefix is not range-checked beyond fitting a u32. */
  lemma CidrSlashes(env: Env, s: string)
    ensures multiset(s)['/'] >= 2 ==> ParseCidr(env, s) == Err(CidrError)
    ensures multiset(s)['/'] == 0 ==>
      ParseCidr(env, s) == match env.parseIp(s)
                           case None => Err(AddrParseError)
                           case Some(a) => Ok((a, HostPrefix(a)))
  {
    SplitCount(s, '/');
    if multiset(s)['/'] == 0 {
      assert '/' !in s;
    }
  }

  /** An address written with a u32 prefix parses back to that address and prefix. */
  lemma CidrRoundTrip(env: Env, addr: string, a: IpAddr, prefix: nat)
    requires '/' !in addr && env.parseIp(addr) == Some(a) && prefix < U32_LIMIT
    ensures ParseCidr(env, addr + "/" + Decimal(prefix)) == Ok((a, prefix))
  {
    var text := Decimal(prefix);
    assert '/' !in text by {
      forall i | 0 <= i < |text|
        ensures text[i] != '/'
      {
        assert IsDigit(text[i]);
      }
    }
    assert Join([addr, text], '/') == addr + "/" + text;
    SplitJoin([addr, text], '/');
    ParseDecimal(prefix);
  }

  // ----------------------------------------------------------- base64_to_arr

  /** `base64_to_arr`: decode, then insist on exactly `len` bytes. */
  function Base64ToArr(env: Env, x: string, len: nat): (r: Result<seq<byte>, ConfigError>)
    ensures r.Ok? <==> env.base64(x).Some? && |env.base64(x).value| == len
    ensures r.Ok? ==> r.value == env.base64(x).value
    ensures env.base64(x).None? ==> r == Err(Base64Error)
  {
    match env.base64(x)
    case None => Err(Base64Error)
    case Some(bytes) => if |bytes| == len then Ok(bytes) else Err(NotKeyLength)
  }

  /** A 32-byte key from base64. */
  function ParseKey(env: Env, x: string): (r: Result<Key32, ConfigError>)
    ensures r.Ok? <==> Base64ToArr(env, x, 32).Ok?
    ensures r.Ok? ==> r.value == Base64ToArr(env, x, 32).value
  {
    match Base64ToArr(env, x, 32)
    case Err(e) => Err(e)
    case Ok(bytes) => var k: Key32 := bytes; Ok(k)
  }

  // ------------------------------------------------------- lift_err and lift_err_vec

  /** `lift_err`: an optional result becomes a result of an option. */
  function LiftErr<T, E>(x: Option<Result<T, E>>): (r: Result<Option<T>, E>)
    ensures r.Ok? && r.value.Some? <==> x.Some? && x.value.Ok?
    ensures r == Ok(None) <==> x == None
  {
    match x
    case Some(Ok(t)) => Ok(Some(t))
    case Some(Err(e)) => Err(e)
    case None => Ok(None)
  }

  /** The inverse reading: a result of an option back to an optional result. */
  function Unlift<T, E>(r: Result<Option<T>, E>): Option<Result<T, E>>
  {
    match r
    case Ok(Some(t)) => Some(Ok(t))
    case Ok(None) => None
    case Err(e) => Some(Err(e))
  }

  /** `lift_err` loses nothing: it is a bijection and `Unlift` undoes it. */
  lemma LiftErrRoundTrip<T, E>(x: Option<Result<T, E>>, r: Result<Option<T>, E>)
    ensures Unlift(LiftErr(x)) == x
    ensures LiftErr(Unlift(r)) == r
  {
  }

  /** All the values if every item is `Ok`, otherwise the first error. */
  function LiftAll<T, E>(xs: seq<Result<T, E>>): (r: Result<seq<T>, E>)
    ensures r.Ok? <==> forall i :: 0 <= i < |xs| ==> xs[i].Ok?
    ensures r.Ok? ==> |r.value| == |xs|
  {
    if xs == [] then Ok([])
    else match xs[0]
      case Err(e) => Err(e)
      case Ok(v) => Prepend(v, LiftAll(xs[1..]))
  }

  function Prepend<T, E>(v: T, r: Result<seq<T>, E>): Result<seq<T>, E>
  {
    match r
    case Ok(vs) => Ok([v] + vs)
    case Err(e) => Err(e)
  }

  /** `LiftAll` succeeds exactly when every item is `Ok`, and then keeps every value in order. */
  lemma {:induction false} LiftAllOk<T, E>(xs: seq<Result<T, E>>, vs: seq<T>)
    ensures LiftAll(xs) == Ok(vs) <==> |vs| == |xs| && forall i :: 0 <= i < |xs| ==> xs[i] == Ok(vs[i])
  {
    if xs != [] {
      if xs[0].Ok? {
        if |vs| > 0 {
          LiftAllOk(xs[1..], vs[1..]);
          if |vs| == |xs| && forall i :: 0 <= i < |xs| ==> xs[i] == Ok(vs[i]) {
            assert forall i :: 0 <= i < |xs| - 1 ==> xs[1..][i] == Ok(vs[1..][i]) by {
              forall i | 0 <= i < |xs| - 1 ensures xs[1..][i] == Ok(vs[1..][i]) {
                assert xs[i + 1] == Ok(vs[i + 1]);
              }
            }
            assert vs == [vs[0]] + vs[1..];
          }
        } else {
          match LiftAll(xs[1..])
          case Ok(ws) =>
          case Err(_) =>
        }
      }
    }
  }

  /** `LiftAll` fails with e exactly when e is the error of the first item that is not `Ok`. */
  lemma {:induction false} LiftAllErr<T, E>(xs: seq<Result<T, E>>, e: E)
    ensures LiftAll(xs) == Err(e) <==>
      exists k :: 0 <= k < |xs| && xs[k] == Err(e) && forall j :: 0 <= j < k ==> xs[j].Ok?
  {
    if xs != [] {
      LiftAllErr(xs[1..], e);
      if xs[0].Ok? {
        if LiftAll(xs) == Err(e) {
          var k :| 0 <= k < |xs[1..]| && xs[1..][k] == Err(e) && forall j :: 0 <= j < k ==> xs[1..][j].Ok?;
          assert xs[k + 1] == Err(e);
          assert forall j :: 0 <= j < k + 1 ==> xs[j].Ok? by {
            forall j | 0 <= j < k + 1 ensures xs[j].Ok? {
              if j > 0 { assert xs[j] == xs[1..][j - 1]; }
            }
          }
        }
        if exists k :: 0 <= k < |xs| && xs[k] == Err(e) && forall j :: 0 <= j < k ==> xs[j].Ok? {
          var k :| 0 <= k < |xs| && xs[k] == Err(e) && forall j :: 0 <= j < k ==> xs[j].Ok?;
          assert k > 0;
          assert xs[1..][k - 1] == Err(e);
          assert forall j :: 0 <= j < k - 1 ==> xs[1..][j].Ok? by {
            forall j | 0 <= j < k - 1 ensures xs[1..][j].Ok? {
              assert xs[1..][j] == xs[j + 1];
            }
          }
        }
      } else {
        if xs[0] == Err(e) {
          assert 0 < |xs| && xs[0] == Err(e);
        } else {
          forall k | 0 <= k < |xs| && xs[k] == Err(e)
            ensures exists j :: 0 <= j < k && !xs[j].Ok?
          {
            assert k != 0;
            assert !xs[0].Ok?;
          }
        }
      }
    }
  }

  /** A single error anywhere makes `LiftAll` fail. */
  lemma {:induction false} LiftAllFailsOnErr<T, E>(xs: seq<Result<T, E>>, i: nat)
    requires i < |xs| && xs[i].Err?
    ensures LiftAll(xs).Err?
  {
    if xs[0].Ok? {
      assert xs[1..][i - 1] == xs[i];
      LiftAllFailsOnErr(xs[1..], i - 1);
    }
  }

  /** `lift_err_vec`: push each value in turn and stop at the first error. */
  method LiftErrVec<T, E>(xs: seq<Result<T, E>>) returns (r: Result<seq<T>, E>)
    ensures r == LiftAll(xs)
  {
    var z: seq<T> := [];
    var i := 0;
    assert xs[0..] == xs;
    match LiftAll(xs) {
      case Ok(vs) => assert [] + vs == vs;
      case Err(_) =>
    }
    while i < |xs|
      invariant 0 <= i <= |xs|
      invariant LiftAll(xs) == Append(z, LiftAll(xs[i..]))
    {
      assert xs[i..][1..] == xs[i + 1..];
      match xs[i] {
        case Err(e) =>
          return Err(e);
        case Ok(v) =>
          AppendPrepend(z, v, LiftAll(xs[i + 1..]));
          z := z + [v];
      }
      i := i + 1;
    }
    assert xs[i..] == [];
    assert z + [] == z;
    return Ok(z);
  }

  function Append<T, E>(z: seq<T>, r: Result<seq<T>, E>): Result<seq<T>, E>
  {
    match r
    case Ok(vs) => Ok(z + vs)
    case Err(e) => Err(e)
  }

  lemma AppendPrepend<T, E>(z: seq<T>, v: T, r: Result<seq<T>, E>)
    ensures Append(z, Prepend(v, r)) == Append(z + [v], r)
  {
    match r
    case Ok(vs) => assert z + ([v] + vs) == z + [v] + vs;
    case Err(_) =>
  }

  // ------------------------------------------------------------ Config::parse

  datatype PeerConfigSerde = PeerConfigSerde(publicKey: string, endpoint: Option<string>, allowedIps: seq<string>)

  datatype ConfigSerde = ConfigSerde(
    devName: string, listenPort: Option<nat>, psk: Option<string>, key: string,
    peers: seq<PeerConfigSerde>, onUp: Option<string>, onDown: Option<string>)

  datatype ConfigValue = ConfigValue(
    devName: string, listenPort: Option<nat>, info: WgInfo,
    peers: seq<PeerInfo>, onUp: Option<string>, onDown: Option<string>)

  /** `to_socket_addr`: the first address the name resolves to. */
  function ToSocketAddr(env: Env, s: string): (r: Result<SocketAddr, ConfigError>)
    ensures r.Ok? <==> env.resolve(s).Some?
    ensures r.Ok? ==> env.resolve(s) == Some(r.value)
    ensures r.Err? ==> r.error == ResolveError
  {
    match env.resolve(s)
    case None => Err(ResolveError)
    case Some(a) => Ok(a)
  }

  function MapOption<A, B>(x: Option<A>, f: A -> B): Option<B>
  {
    match x
    case None => None
    case Some(a) => Some(f(a))
  }

  /** One peer: its public key, then its optional endpoint, then its allowed IPs. */
  function ParsePeer(env: Env, p: PeerConfigSerde): (r: Result<PeerInfo, ConfigError>)
    ensures r.Ok? ==>
      && ParseKey(env, p.publicKey) == Ok(r.value.peerPubkey)
      && |r.value.allowedIps| == |p.allowedIps|
      && (forall i :: 0 <= i < |p.allowedIps| ==> ParseCidr(env, p.allowedIps[i]) == Ok(r.value.allowedIps[i]))
      && (p.endpoint.None? <==> r.value.endpoint.None?)
      && (p.endpoint.Some? ==> ToSocketAddr(env, p.endpoint.value) == Ok(r.value.endpoint.value))
    ensures ParseKey(env, p.publicKey).Err? ==> r == Err(ParseKey(env, p.publicKey).error)
    ensures ParseKey(env, p.publicKey).Ok? && p.endpoint.Some? && ToSocketAddr(env, p.endpoint.value).Err? ==>
      r == Err(ToSocketAddr(env, p.endpoint.value).error)
  {
    match ParseKey(env, p.publicKey)
    case Err(e) => Err(e)
    case Ok(pk) =>
      match LiftErr(MapOption(p.endpoint, s => ToSocketAddr(env, s)))
      case Err(e) => Err(e)
      case Ok(endpoint) =>
        var cidrs := seq(|p.allowedIps|, i requires 0 <= i < |p.allowedIps| => ParseCidr(env, p.allowedIps[i]));
        match LiftAll(cidrs)
        case Err(e) => Err(e)
        case Ok(allowed) =>
          LiftAllOk(cidrs, allowed);
          Ok(PeerInfo(pk, endpoint, allowed))
  }

  /**
   * `Config::parse` after deserialisation: the preshared key if any, the
   * private key, then every peer in order; the first failure is the result.
   */
  function ParseConfig(env: Env, c: ConfigSerde): (r: Result<ConfigValue, ConfigError>)
    ensures r.Ok? ==>
      && r.value.devName == c.devName && r.value.listenPort == c.listenPort
      && r.value.onUp == c.onUp && r.value.onDown == c.onDown
      && ParseKey(env, c.key) == Ok(r.value.info.key)
      && r.value.info.pubkey == env.x25519Pubkey(r.value.info.key)
      && (c.psk.None? <==> r.value.info.psk.None?)
      && (c.psk.Some? ==> ParseKey(env, c.psk.value) == Ok(r.value.info.psk.value))
      && |r.value.peers| == |c.peers|
      && (forall i :: 0 <= i < |c.peers| ==> ParsePeer(env, c.peers[i]) == Ok(r.value.peers[i]))
  {
    match LiftErr(MapOption(c.psk, s => ParseKey(env, s)))
    case Err(e) => Err(e)
    case Ok(psk) =>
      match ParseKey(env, c.key)
      case Err(e) => Err(e)
      case Ok(key) =>
        var parsed := seq(|c.peers|, i requires 0 <= i < |c.peers| => ParsePeer(env, c.peers[i]));
        match LiftAll(parsed)
        case Err(e) => Err(e)
        case Ok(peers) =>
          LiftAllOk(parsed, peers);
          Ok(ConfigValue(c.devName, c.listenPort, NewWgInfo(env.x25519Pubkey, psk, key), peers, c.onUp, c.onDown))
  }

  /** A configuration is rejected exactly when one of its keys or one of its peers is. */
  lemma ParseConfigFails(env: Env, c: ConfigSerde)
    ensures ParseConfig(env, c).Err? <==>
      || (c.psk.Some? && ParseKey(env, c.psk.value).Err?)
      || ParseKey(env, c.key).Err?
      || (exists i :: 0 <= i < |c.peers| && ParsePeer(env, c.peers[i]).Err?)
  {
    var parsed := seq(|c.peers|, i requires 0 <= i < |c.peers| => ParsePeer(env, c.peers[i]));
    if exists i :: 0 <= i < |c.peers| && ParsePeer(env, c.peers[i]).Err? {
      var i :| 0 <= i < |c.peers| && ParsePeer(env, c.peers[i]).Err?;
      assert parsed[i].Err?;
      LiftAllFailsOnErr(parsed, i);
    } else {
      var vs := seq(|c.peers|, i requires 0 <= i < |c.peers| => ParsePeer(env, c.peers[i]).value);
      LiftAllOk(parsed, vs);
    }
  }
}
