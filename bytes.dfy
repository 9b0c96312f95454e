/**
 * Bytes and the fixed-width integer encodings the code uses: little-endian
 * u64 (WireGuard transport counters, byteorder::LittleEndian) and big-endian
 * u64 (the millisecond timestamp in a time nonce, byteorder::BigEndian), plus
 * the C-string view of a byte buffer (bytes before the first NUL).
 */
module Bytes {
  import ByteCast
  type byte = bv8

  const U64_LIMIT: nat := 0x1_0000_0000_0000_0000

  function Pow256(n: nat): (r: nat)
    ensures r >= 1
  {
    if n == 0 then 1 else 256 * Pow256(n - 1)
  }

  function Zeros(n: nat): (r: seq<byte>)
    ensures |r| == n
    ensures forall i :: 0 <= i < n ==> r[i] == 0
  {
    seq(n, _ => 0)
  }

  /** The `len` low-order bytes of `n`, least significant first. */
  function LeBytes(n: nat, len: nat): (r: seq<byte>)
    ensures |r| == len
  {
    if len == 0 then [] else [(n % 256) as byte] + LeBytes(n / 256, len - 1)
  }

  /** The number whose little-endian encoding is `s`. */
  function FromLe(s: seq<byte>): (n: nat)
  {
    if s == [] then 0 else s[0] as nat + 256 * FromLe(s[1..])
  }

  /** The `len` low-order bytes of `n`, most significant first. */
  function BeBytes(n: nat, len: nat): (r: seq<byte>)
    ensures |r| == len
  {
    if len == 0 then [] else BeBytes(n / 256, len - 1) + [(n % 256) as byte]
  }

  /** The number whose big-endian encoding is `s`. */
  function FromBe(s: seq<byte>): (n: nat)
  {
    if s == [] then 0 else 256 * FromBe(s[..|s| - 1]) + s[|s| - 1] as nat
  }

  /** Every byte string decodes to a number that fits in as many bytes. */
  lemma {:induction false} FromLeBound(s: seq<byte>)
    ensures FromLe(s) < Pow256(|s|)
  {
    if s != [] {
      FromLeBound(s[1..]);
    }
  }

  lemma {:induction false} FromBeBound(s: seq<byte>)
    ensures FromBe(s) < Pow256(|s|)
  {
    if s != [] {
      FromBeBound(s[..|s| - 1]);
    }
  }

  /** Division and remainder by 256 split a number into its low byte and the rest. */
  lemma DivMod256(n: nat, len: nat)
    requires len > 0 && n < Pow256(len)
    ensures n == n % 256 + 256 * (n / 256)
    ensures n / 256 < Pow256(len - 1)
    ensures ((n % 256) as byte) as nat == n % 256
  {
    assert Pow256(len) == 256 * Pow256(len - 1);
    ByteCast.ByteOfSmall(n % 256);
  }


  /** Reading back a little-endian write returns the value written. */
  lemma {:induction false} LeRoundTrip(n: nat, len: nat)
    requires n < Pow256(len)
    ensures FromLe(LeBytes(n, len)) == n
  {
    if len > 0 {
      var s := LeBytes(n, len);
      DivMod256(n, len);
      assert s[0] as nat == n % 256;
      assert s[1..] == LeBytes(n / 256, len - 1);
      LeRoundTrip(n / 256, len - 1);
      assert FromLe(s) == s[0] as nat + 256 * FromLe(s[1..]);
    }
  }

  /** Writing back a little-endian read reproduces the bytes read. */
  lemma {:induction false} LeBytesOfFromLe(s: seq<byte>)
    ensures LeBytes(FromLe(s), |s|) == s
  {
    if s != [] {
      var first, tail := s[0], s[1..];
      var rest := FromLe(tail);
      var n := FromLe(s);
      assert n == first as int + 256 * rest;
      ByteCast.SmallOfByte(first);
      DivModUnique(n, first as int, rest);
      LeBytesOfFromLe(tail);
      assert LeBytes(n, |s|) == [(n % 256) as byte] + LeBytes(n / 256, |s| - 1);
      assert s == [first] + tail;
    }
  }

  lemma DivModUnique(n: nat, lo: nat, hi: nat)
    requires lo < 256 && n == lo + 256 * hi
    ensures n % 256 == lo && n / 256 == hi
  {
  }

  /** Reading back a big-endian write returns the value written. */
  lemma {:induction false} BeRoundTrip(n: nat, len: nat)
    requires n < Pow256(len)
    ensures FromBe(BeBytes(n, len)) == n
  {
    if len > 0 {
      var s := BeBytes(n, len);
      var init, last := BeBytes(n / 256, len - 1), (n % 256) as byte;
      assert s == init + [last];
      DivMod256(n, len);
      assert s[..len - 1] == init && s[len - 1] == last;
      BeRoundTrip(n / 256, len - 1);
      assert FromBe(s) == 256 * FromBe(init) + last as nat;
    }
  }

  /** Writing back a big-endian read reproduces the bytes read. */
  lemma {:induction false} BeBytesOfFromBe(s: seq<byte>)
    ensures BeBytes(FromBe(s), |s|) == s
  {
    if s != [] {
      var init, last := s[..|s| - 1], s[|s| - 1];
      var rest := FromBe(init);
      var n := FromBe(s);
      assert n == 256 * rest + last as int;
      ByteCast.SmallOfByte(last);
      DivModUnique(n, last as int, rest);
      BeBytesOfFromBe(init);
      assert BeBytes(n, |s|) == BeBytes(n / 256, |s| - 1) + [(n % 256) as byte];
      assert s == init + [last];
    }
  }

  lemma Pow256Of8()
    ensures Pow256(8) == U64_LIMIT
  {
  }

  /** The C-string view: the index of the first NUL, or |s| when there is none. */
  function FirstNul(s: seq<byte>): (k: nat)
    ensures k <= |s|
    ensures forall j :: 0 <= j < k ==> s[j] != 0
    ensures k < |s| ==> s[k] == 0
  {
    if s == [] then 0 else if s[0] == 0 then 0 else 1 + FirstNul(s[1..])
  }

  /** The bytes a C routine sees as the string stored in `s`. */
  function CStr(s: seq<byte>): (r: seq<byte>)
    ensures 0 !in r
    ensures r <= s
    ensures |r| < |s| ==> s[|r|] == 0
  {
    s[..FirstNul(s)]
  }
}
