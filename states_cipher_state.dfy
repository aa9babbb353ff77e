/**
 * The generic CipherState<C> of smog/src/states/cipher_state.rs: a cipher
 * value `C` (the `Cipher` trait of smog/src/crypto/cipher.rs, here a record of
 * functions), a 32-byte key and a `u64` nonce. Encryption and decryption
 * only compute a result; `set_nonce` and `rekey` overwrite one field each.
 */
module StatesCipherState {

  import opened Bytes
  import opened Wrappers

  const U64_MAX: nat := 0xFFFF_FFFF_FFFF_FFFF

  type u64 = x: int | 0 <= x <= U64_MAX

  type Key = s: seq<byte> | |s| == 32 witness seq(32, _ => 0)

  /** The `Cipher` trait: `encrypt`, a `decrypt` that may reject, and `rekey`. */
  datatype Cipher = Cipher(
    encrypt: (Key, u64, seq<byte>, seq<byte>) -> seq<byte>,
    decrypt: (Key, u64, seq<byte>, seq<byte>) -> Option<seq<byte>>,
    rekey: (Key, u64) -> Key)

  /** A cipher whose decryption under the nonce used for encryption inverts it. */
  ghost predicate Sound(c: Cipher) {
    forall k, n, ad, pt {:trigger c.encrypt(k, n, ad, pt)} ::
      c.decrypt(k, n, ad, c.encrypt(k, n, ad, pt)) == Some(pt)
  }

  /** The ciphertext `encrypt_with_ad` returns in state (k, n): the cipher is called with nonce n + 1. */
  function EncryptAt(c: Cipher, k: Key, n: u64, ad: seq<byte>, pt: seq<byte>): seq<byte>
    requires n < U64_MAX
  {
    c.encrypt(k, n + 1, ad, pt)
  }

  /** What `decrypt_with_ad` yields in state (k, n) as written: nonce n, None standing for the panic. */
  function DecryptAt(c: Cipher, k: Key, n: u64, ad: seq<byte>, ct: seq<byte>): Option<seq<byte>> {
    c.decrypt(k, n, ad, ct)
  }

  /** Decryption with the nonce n + 1 the commented-out line of `decrypt_with_ad` uses. */
  function DecryptIntendedAt(c: Cipher, k: Key, n: u64, ad: seq<byte>, ct: seq<byte>): Option<seq<byte>>
    requires n < U64_MAX
  {
    c.decrypt(k, n + 1, ad, ct)
  }

  /**
   * With the nonce encryption uses, two cipher states in the same (k, n)
   * round-trip every message through any sound cipher.
   */
  lemma IntendedRoundTrip(c: Cipher, k: Key, n: u64, ad: seq<byte>, pt: seq<byte>)
    requires Sound(c) && n < U64_MAX
    ensures DecryptIntendedAt(c, k, n, ad, EncryptAt(c, k, n, ad, pt)) == Some(pt)
  {
    var ct := EncryptAt(c, k, n, ad, pt);
    assert ct == c.encrypt(k, n + 1, ad, pt);
  }

  /** A toy sound cipher: the ciphertext is the nonce's low byte followed by the plaintext. */
  function TagNonce(k: Key, n: u64, ad: seq<byte>, pt: seq<byte>): seq<byte> {
    [n % 256] + pt
  }

  function CheckNonce(k: Key, n: u64, ad: seq<byte>, ct: seq<byte>): Option<seq<byte>> {
    if |ct| > 0 && ct[0] == n % 256 then Some(ct[1..]) else None
  }

  function KeepKey(k: Key, n: u64): Key {
    k
  }

  function ToyCipher(): Cipher {
    Cipher(TagNonce, CheckNonce, KeepKey)
  }

  lemma ToyCipherIsSound()
    ensures Sound(ToyCipher())
  {
    var c := ToyCipher();
    forall k: Key, n: u64, ad: seq<byte>, pt: seq<byte> ensures c.decrypt(k, n, ad, c.encrypt(k, n, ad, pt)) == Some(pt) {
      assert ([n % 256] + pt)[1..] == pt;
    }
  }

  /**
   * There is a sound cipher that authenticates the nonce, as
   * ChaCha20-Poly1305 does (`ToyCipher`), under which, as written, a state
   * (k, n) with n below `u64::MAX` rejects every ciphertext it produced, and
   * `decrypt_with_ad` panics.
   */
  lemma AsWrittenRejectsOwnCiphertext(k: Key, n: u64, ad: seq<byte>, pt: seq<byte>)
    requires n < U64_MAX
    ensures Sound(ToyCipher())
    ensures DecryptAt(ToyCipher(), k, n, ad, EncryptAt(ToyCipher(), k, n, ad, pt)).None?
  {
    ToyCipherIsSound();
    assert (n + 1) % 256 != n % 256;
  }

  class CipherState {
    const cipher: Cipher
    var k: Key
    var n: u64

    /** `new`: the given key and nonce. */
    constructor New(cipher: Cipher, k: Key, n: u64)
      ensures this.cipher == cipher && this.k == k && this.n == n
    {
      this.cipher := cipher;
      this.k := k;
      this.n := n;
    }

    /** `init`: the given key and a zero nonce. */
    constructor Init(cipher: Cipher, k: Key)
      ensures this.cipher == cipher && this.k == k && n == 0
    {
      this.cipher := cipher;
      this.k := k;
      n := 0;
    }

    /** `has_key`: the key is a fixed 32-byte array and never empty. */
    predicate HasKey()
      reads this
      ensures HasKey()
    {
      |k| != 0
    }

    /** `set_nonce`: only the nonce changes. */
    method SetNonce(n: u64)
      modifies this`n
      ensures this.n == n
    {
      this.n := n;
    }

    /**
     * `encrypt_with_ad`: the cipher's ciphertext under nonce n + 1; the state
     * is not changed. `n + 1` overflows at `u64::MAX`.
     */
    method EncryptWithAd(ad: seq<byte>, plainText: seq<byte>) returns (ct: seq<byte>)
      requires n < U64_MAX
      ensures ct == EncryptAt(cipher, k, n, ad, plainText)
    {
      ct := cipher.encrypt(k, n + 1, ad, plainText);
    }

    /**
     * `decrypt_with_ad`: the cipher's plaintext under nonce n; None stands for
     * the panic of `expect` when the cipher rejects. The state is not changed.
     */
    method DecryptWithAd(ad: seq<byte>, cipherText: seq<byte>) returns (pt: Option<seq<byte>>)
      ensures pt == DecryptAt(cipher, k, n, ad, cipherText)
    {
      pt := cipher.decrypt(k, n, ad, cipherText);
    }

    /** The decryption the code evidently intends: nonce n + 1, matching encryption. */
    method DecryptWithAdIntended(ad: seq<byte>, cipherText: seq<byte>) returns (pt: Option<seq<byte>>)
      requires n < U64_MAX
      ensures pt == DecryptIntendedAt(cipher, k, n, ad, cipherText)
      ensures Sound(cipher) ==> forall m {:trigger EncryptAt(cipher, k, n, ad, m)} ::
        cipherText == EncryptAt(cipher, k, n, ad, m) ==> pt == Some(m)
    {
      pt := cipher.decrypt(k, n + 1, ad, cipherText);
      forall m | Sound(cipher) && cipherText == EncryptAt(cipher, k, n, ad, m)
        ensures pt == Some(m)
      {
        IntendedRoundTrip(cipher, k, n, ad, m);
      }
    }

    /** `rekey`: `k := cipher.rekey(k, n)`; the nonce stays. */
    method Rekey()
      modifies this`k
      ensures k == cipher.rekey(old(k), n)
    {
      k := cipher.rekey(k, n);
    }
  }
}
