/**
 * A structural model of the stream-cipher-plus-MAC AEADs the code calls into:
 * ChaCha20-Poly1305 as in section 2.8 of RFC 8439 (ciphertext, then a 16-byte
 * tag) and NaCl's crypto_secretbox (XSalsa20-Poly1305: the 16-byte tag first,
 * then the ciphertext).  The keystream and the one-time MAC are uninterpreted
 * function values; everything built from them (length, the tag check, the
 * inverse relation between seal and open) is proved here, not assumed.
 */
module Aead {
  import opened Bytes
  import opened Wrappers

  const TAG_LEN: nat := 16

  type Tag = s: seq<byte> | |s| == TAG_LEN
    witness [0, 0, 0, 0, 0, 0, 0, 0, 0, 0, 0, 0, 0, 0, 0, 0]

  /** A cipher: keystream byte i under (key, nonce), and the tag over (key, nonce, ad, ciphertext). */
  datatype StreamMac = StreamMac(
    keystream: (seq<byte>, seq<byte>, nat) -> byte,
    mac: (seq<byte>, seq<byte>, seq<byte>, seq<byte>) -> Tag)

  /** Plaintext xor keystream (encryption and decryption alike). */
  function Xor(c: StreamMac, key: seq<byte>, nonce: seq<byte>, s: seq<byte>): (r: seq<byte>)
    ensures |r| == |s|
  {
    seq(|s|, i requires 0 <= i < |s| => s[i] ^ c.keystream(key, nonce, i))
  }

  lemma XorTwice(c: StreamMac, key: seq<byte>, nonce: seq<byte>, s: seq<byte>)
    ensures Xor(c, key, nonce, Xor(c, key, nonce, s)) == s
  {
    var once := Xor(c, key, nonce, s);
    var twice := Xor(c, key, nonce, once);
    forall i | 0 <= i < |s|
      ensures twice[i] == s[i]
    {
      assert once[i] == s[i] ^ c.keystream(key, nonce, i);
    }
  }

  /** RFC 8439 AEAD encryption: ciphertext followed by its tag. */
  function Seal(c: StreamMac, key: seq<byte>, nonce: seq<byte>, ad: seq<byte>, p: seq<byte>): (r: seq<byte>)
    ensures |r| == |p| + TAG_LEN
  {
    var ct := Xor(c, key, nonce, p);
    ct + c.mac(key, nonce, ad, ct)
  }

  /** RFC 8439 AEAD decryption: None unless the trailing tag matches. */
  function Open(c: StreamMac, key: seq<byte>, nonce: seq<byte>, ad: seq<byte>, x: seq<byte>): (r: Option<seq<byte>>)
    ensures r.Some? ==> |r.value| + TAG_LEN == |x|
  {
    if |x| < TAG_LEN then None
    else
      var ct := x[..|x| - TAG_LEN];
      if c.mac(key, nonce, ad, ct) == x[|x| - TAG_LEN..] then Some(Xor(c, key, nonce, ct)) else None
  }

  /**
   * Open is exactly the inverse of Seal: a ciphertext opens to p under
   * (key, nonce, ad) if and only if it is the seal of p under the same triple.
   */
  lemma OpenIffSeal(c: StreamMac, key: seq<byte>, nonce: seq<byte>, ad: seq<byte>, x: seq<byte>, p: seq<byte>)
    ensures Open(c, key, nonce, ad, x) == Some(p) <==> x == Seal(c, key, nonce, ad, p)
  {
    var ctp := Xor(c, key, nonce, p);
    XorTwice(c, key, nonce, p);
    if x == Seal(c, key, nonce, ad, p) {
      assert x[..|x| - TAG_LEN] == ctp;
      assert x[|x| - TAG_LEN..] == c.mac(key, nonce, ad, ctp);
    }
    if Open(c, key, nonce, ad, x) == Some(p) {
      var ct := x[..|x| - TAG_LEN];
      XorTwice(c, key, nonce, ct);
      assert ct == ctp;
      assert x == ct + x[|x| - TAG_LEN..];
    }
  }

  /** NaCl crypto_secretbox: the tag over the ciphertext, then the ciphertext. */
  function BoxSeal(c: StreamMac, key: seq<byte>, nonce: seq<byte>, p: seq<byte>): (r: seq<byte>)
    ensures |r| == |p| + TAG_LEN
  {
    var ct := Xor(c, key, nonce, p);
    c.mac(key, nonce, [], ct) + ct
  }

  /** NaCl crypto_secretbox_open: None unless the leading tag matches. */
  function BoxOpen(c: StreamMac, key: seq<byte>, nonce: seq<byte>, x: seq<byte>): (r: Option<seq<byte>>)
    ensures r.Some? ==> |r.value| + TAG_LEN == |x|
  {
    if |x| < TAG_LEN then None
    else
      var ct := x[TAG_LEN..];
      if c.mac(key, nonce, [], ct) == x[..TAG_LEN] then Some(Xor(c, key, nonce, ct)) else None
  }

  /** Secretbox open is exactly the inverse of secretbox seal. */
  lemma BoxOpenIffSeal(c: StreamMac, key: seq<byte>, nonce: seq<byte>, x: seq<byte>, p: seq<byte>)
    ensures BoxOpen(c, key, nonce, x) == Some(p) <==> x == BoxSeal(c, key, nonce, p)
  {
    var ctp := Xor(c, key, nonce, p);
    XorTwice(c, key, nonce, p);
    if x == BoxSeal(c, key, nonce, p) {
      assert x[TAG_LEN..] == ctp;
      assert x[..TAG_LEN] == c.mac(key, nonce, [], ctp);
    }
    if BoxOpen(c, key, nonce, x) == Some(p) {
      var ct := x[TAG_LEN..];
      XorTwice(c, key, nonce, ct);
      assert ct == ctp;
      assert x == x[..TAG_LEN] + ct;
    }
  }
}
