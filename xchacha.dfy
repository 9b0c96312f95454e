/**
 * XChaCha20-Poly1305 built from ChaCha20-Poly1305 (section 2.8 of RFC 8439)
 * as section 2.3 of draft-irtf-cfrg-xchacha describes: HChaCha20 of the key
 * and the first 16 nonce bytes gives a subkey, and the inner 12-byte nonce is
 * four zero bytes followed by the last 8 nonce bytes.  HChaCha20 is a
 * function value; the inner AEAD is the abstract `Seal`/`Open`.
 */
module XChaCha {
  import opened Bytes
  import opened Wrappers
  import opened Aead

  const KEY_LEN: nat := 32
  const NONCE_LEN: nat := 24

  type HChaCha = (seq<byte>, seq<byte>) -> seq<byte>

  /** The subkey: HChaCha20 over the first 16 nonce bytes and the key. */
  function SubKey(hchacha: HChaCha, key: seq<byte>, nonce: seq<byte>): seq<byte>
    requires |nonce| == NONCE_LEN
  {
    hchacha(nonce[..16], key)
  }

  /**
   * The subkey depends on the nonce only through its first 16 bytes, and the
   * inner nonce only through its last 8: the two halves of an extended nonce
   * feed the two stages separately.
   */
  lemma SubKeyNonceSplit(hchacha: HChaCha, key: seq<byte>, n1: seq<byte>, n2: seq<byte>)
    requires |n1| == NONCE_LEN && |n2| == NONCE_LEN
    ensures n1[..16] == n2[..16] ==> SubKey(hchacha, key, n1) == SubKey(hchacha, key, n2)
    ensures n1[16..] == n2[16..] <==> InnerNonce(n1) == InnerNonce(n2)
  {
    InnerNonceInjective(n1, n2);
  }

  /** The inner nonce: a zeroed 12-byte array with bytes 4..12 taken from nonce[16..24]. */
  function InnerNonce(nonce: seq<byte>): (r: seq<byte>)
    requires |nonce| == NONCE_LEN
    ensures |r| == 12 && r[..4] == Zeros(4) && r[4..] == nonce[16..]
  {
    var r := Zeros(4) + nonce[16..];
    assert r[..4] == Zeros(4);
    r
  }

  /** Two nonces give the same inner nonce exactly when their last 8 bytes agree. */
  lemma InnerNonceInjective(n1: seq<byte>, n2: seq<byte>)
    requires |n1| == NONCE_LEN && |n2| == NONCE_LEN
    ensures InnerNonce(n1) == InnerNonce(n2) <==> n1[16..] == n2[16..]
  {
    if InnerNonce(n1) == InnerNonce(n2) {
      assert n1[16..] == InnerNonce(n1)[4..];
    }
  }

  /** `encrypt`; the key and nonce lengths are asserted, so they are preconditions. */
  function Encrypt(c: StreamMac, hchacha: HChaCha, key: seq<byte>, nonce: seq<byte>, ad: seq<byte>, p: seq<byte>): (r: seq<byte>)
    requires |key| == KEY_LEN && |nonce| == NONCE_LEN
    ensures |r| == |p| + TAG_LEN
  {
    Seal(c, SubKey(hchacha, key, nonce), InnerNonce(nonce), ad, p)
  }

  /** `decrypt`: the same subkey, inner nonce and associated data; `Err(())` on a failed tag. */
  function Decrypt(c: StreamMac, hchacha: HChaCha, key: seq<byte>, nonce: seq<byte>, ad: seq<byte>, x: seq<byte>): (r: Result<seq<byte>, ()>)
    requires |key| == KEY_LEN && |nonce| == NONCE_LEN
    ensures r.Ok? ==> |r.value| + TAG_LEN == |x|
  {
    match Open(c, SubKey(hchacha, key, nonce), InnerNonce(nonce), ad, x)
    case Some(p) => Ok(p)
    case None => Err(())
  }

  /**
   * Decryption accepts exactly the encryptions under the same key, nonce and
   * associated data, and returns their plaintext.
   */
  lemma DecryptIffEncrypt(c: StreamMac, hchacha: HChaCha, key: seq<byte>, nonce: seq<byte>, ad: seq<byte>,
                          x: seq<byte>, p: seq<byte>)
    requires |key| == KEY_LEN && |nonce| == NONCE_LEN
    ensures Decrypt(c, hchacha, key, nonce, ad, x) == Ok(p) <==> x == Encrypt(c, hchacha, key, nonce, ad, p)
  {
    OpenIffSeal(c, SubKey(hchacha, key, nonce), InnerNonce(nonce), ad, x, p);
  }

  /** In particular decryption undoes encryption. */
  lemma DecryptEncrypt(c: StreamMac, hchacha: HChaCha, key: seq<byte>, nonce: seq<byte>, ad: seq<byte>, p: seq<byte>)
    requires |key| == KEY_LEN && |nonce| == NONCE_LEN
    ensures Decrypt(c, hchacha, key, nonce, ad, Encrypt(c, hchacha, key, nonce, ad, p)) == Ok(p)
  {
    DecryptIffEncrypt(c, hchacha, key, nonce, ad, Encrypt(c, hchacha, key, nonce, ad, p), p);
  }
}
