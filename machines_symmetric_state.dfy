/**
 * The SymmetricState of smog/src/state_machines/symmetric_state.rs: the
 * chaining key `ck`, the handshake hash `h` and the embedded CipherState,
 * overwritten by `init`, `mix_key`, `mix_hash` and `mix_key_and_hash`
 * through the HKDF of colloid/src/hash.rs. The code is modelled as written:
 * `mix_key_and_hash` does not store its first output into `ck`, and
 * `encrypt_and_hash` / `decrypt_and_hash` call the opposite AEAD direction
 * and return the buffer they were given.
 */
module MachinesSymmetricState {

  import opened Bytes
  import opened Wrappers
  import opened ColloidHash
  import Cs = MachinesCipherState

  class SymmetricState {
    var cipherState: Cs.CipherState
    var ck: Digest
    var h: Digest

    ghost predicate Valid()
      reads this
    {
      cipherState.Valid()
    }

    /** The struct literal: the three fields as given. */
    constructor (cipherState: Cs.CipherState, ck: Digest, h: Digest)
      requires cipherState.Valid()
      ensures Valid()
      ensures this.cipherState == cipherState && this.ck == ck && this.h == h
    {
      this.cipherState := cipherState;
      this.ck := ck;
      this.h := h;
    }

    /**
     * `init`: `h` is the protocol name itself when it is exactly HASHLEN
     * bytes long and its hash otherwise; `ck` copies `h`; the cipher state is
     * replaced by one holding the (random) `randomKey`, then keyed with all
     * zeros, so the random key never survives.
     */
    method Init(hash: HashFn, protocolName: seq<byte>, randomKey: Cs.Key)
      modifies this
      ensures Valid() && fresh(cipherState) && fresh(cipherState.n)
      ensures |protocolName| == HASHLEN ==> h == protocolName
      ensures |protocolName| != HASHLEN ==> h == hash(protocolName)
      ensures ck == h
      ensures cipherState.k == Zeros(Cs.KEYLEN) && cipherState.n[..] == Zeros(Cs.NONCELEN)
    {
      if |protocolName| == HASHLEN {
        h := protocolName;
      } else {
        h := hash(protocolName);
      }
      ck := h;
      cipherState := new Cs.CipherState.Init(randomKey);
      cipherState.InitKey(Zeros(HASHLEN));
    }

    /**
     * `mix_key`: the first HKDF output becomes the chaining key and the
     * second keys the cipher state (nonce reset); `h` is untouched.
     */
    method MixKey(hmac: Hmac, ikm: seq<byte>)
      requires Valid()
      modifies this, cipherState, cipherState.n
      ensures Valid() && cipherState == old(cipherState) && h == old(h)
      ensures ck == NoiseOutput(hmac, hmac(old(ck), ikm), 1)
      ensures cipherState.k == NoiseOutput(hmac, hmac(old(ck), ikm), 2)
      ensures cipherState.n[..] == Zeros(Cs.NONCELEN)
    {
      var chainingKey := new byte[HASHLEN](_ => 0);
      var tempK := new byte[HASHLEN](_ => 0);
      var buf3 := new byte[HASHLEN](_ => 0);
      Hkdf(hmac, ck, ikm, 2, chainingKey, tempK, Some(buf3));
      ck := chainingKey[..];
      cipherState.InitKey(tempK[..]);
    }

    /** `mix_hash`: `h := hash(h || data)`; `data` must be exactly 32 bytes or the conversion panics. */
    method MixHash(hash: HashFn, data: seq<byte>)
      requires |data| == HASHLEN
      modifies this`h
      ensures h == hash(old(h) + data)
    {
      h := hash(h + data);
    }

    /**
     * `mix_key_and_hash`: a three-output HKDF whose second output is mixed
     * into `h` and whose third keys the cipher state; the first output is
     * computed but never stored, so `ck` keeps its old value.
     */
    method MixKeyAndHash(hash: HashFn, hmac: Hmac, ikm: seq<byte>)
      requires Valid()
      modifies this, cipherState, cipherState.n
      ensures Valid() && cipherState == old(cipherState) && ck == old(ck)
      ensures h == hash(old(h) + NoiseOutput(hmac, hmac(old(ck), ikm), 2))
      ensures cipherState.k == NoiseOutput(hmac, hmac(old(ck), ikm), 3)
      ensures cipherState.n[..] == Zeros(Cs.NONCELEN)
    {
      var chainingKey := new byte[HASHLEN](_ => 0);
      var tempH := new byte[HASHLEN](_ => 0);
      var tempK := new byte[HASHLEN](_ => 0);
      Hkdf(hmac, ck, ikm, 3, chainingKey, tempH, Some(tempK));
      MixHash(hash, tempH[..]);
      cipherState.InitKey(tempK[..]);
    }

    /** `get_handshake_hash`: reads `h` and changes nothing. */
    method GetHandshakeHash() returns (r: Digest)
      ensures r == h
    {
      r := h;
    }

    /**
     * `encrypt_and_hash`: runs the cipher state's `decrypt_with_ad` with `h`
     * as associated data and hands back the caller's buffer; `h` is never
     * updated, and a failed AEAD call leaves the nonce where it was.
     */
    method EncryptAndHash(aead: Cs.Aead, buf: seq<byte>) returns (r: Result<seq<byte>, Cs.AeadError>)
      requires Valid()
      modifies cipherState.n
      ensures r.Ok? <==> aead.decrypt(cipherState.k, Succ(old(cipherState.n[..])), h, buf)
      ensures r.Ok? ==> r.value == buf && cipherState.n[..] == Succ(old(cipherState.n[..]))
      ensures r.Err? ==> cipherState.n[..] == old(cipherState.n[..])
    {
      var res := cipherState.DecryptWithAd(aead, h, buf);
      if res.Err? {
        return Err(res.error);
      }
      r := Ok(buf);
    }

    /**
     * `decrypt_and_hash`: runs the cipher state's `encrypt_with_ad` with `h`
     * as associated data and hands back the caller's buffer; the nonce
     * advances whether or not the AEAD call succeeds.
     */
    method DecryptAndHash(aead: Cs.Aead, buf: seq<byte>) returns (r: Result<seq<byte>, Cs.AeadError>)
      requires Valid()
      modifies cipherState.n
      ensures cipherState.n[..] == Succ(old(cipherState.n[..]))
      ensures r.Ok? <==> aead.encrypt(cipherState.k, cipherState.n[..], h, buf)
      ensures r.Ok? ==> r.value == buf
    {
      var res := cipherState.EncryptWithAd(aead, h, buf);
      if res.Err? {
        return Err(res.error);
      }
      r := Ok(buf);
    }

    /**
     * `split`: two fresh cipher states keyed with the two outputs of
     * HKDF(ck, empty input), both with zero nonces; `ck` and `h` are left as
     * they are, and the random keys the states start with are overwritten.
     */
    method Split(hmac: Hmac, randomKey1: Cs.Key, randomKey2: Cs.Key) returns (c1: Cs.CipherState, c2: Cs.CipherState)
      ensures fresh(c1) && fresh(c1.n) && fresh(c2) && fresh(c2.n) && c1.Valid() && c2.Valid()
      ensures c1.k == NoiseOutput(hmac, hmac(ck, []), 1) && c1.n[..] == Zeros(Cs.NONCELEN)
      ensures c2.k == NoiseOutput(hmac, hmac(ck, []), 2) && c2.n[..] == Zeros(Cs.NONCELEN)
    {
      var tempK1 := new byte[HASHLEN](_ => 0);
      var tempK2 := new byte[HASHLEN](_ => 0);
      var buf3 := new byte[HASHLEN](_ => 0);
      Hkdf(hmac, ck, [], 2, tempK1, tempK2, Some(buf3));
      c1 := new Cs.CipherState.Init(randomKey1);
      c2 := new Cs.CipherState.Init(randomKey2);
      c1.InitKey(tempK1[..]);
      c2.InitKey(tempK2[..]);
    }
  }
}
