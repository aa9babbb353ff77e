/**
 * The generic SymmetricState<C, H> of smog/src/states/symmetric_state.rs:
 * 64-byte `ck` and `h`, a hash suite `H` (the `Hash` trait of
 * smog/src/crypto/hash.rs, here a record of functions whose `hkdf` returns
 * three optional outputs) and the generic cipher state, which `init`,
 * `mix_key` and `mix_keyhash` replace by a freshly initialised one.
 */
module StatesSymmetricState {

  import opened Bytes
  import opened Wrappers
  import Cs = StatesCipherState

  const HASHLEN: nat := 64

  type Digest64 = s: seq<byte> | |s| == HASHLEN witness seq(64, _ => 0)

  /** The `Hash` trait: `hash`, and an `hkdf` of a chaining key, input and output count. */
  datatype HashSuite = HashSuite(
    hash: seq<byte> -> Digest64,
    hkdf: (Digest64, seq<byte>, byte) -> (Option<Digest64>, Option<Digest64>, Option<Digest64>))

  /** The fixed protocol name the `PROTOCOL_NAME` global holds. */
  const PROTOCOL_NAME: string := "Noise_IKfallback+psk3_25519_ChaChaPoly_BLAKE2b"

  /**
   * `str::as_bytes` for a string of characters below 256 (the protocol name
   * is ASCII, so each character is its own UTF-8 byte).
   */
  function Latin1Bytes(s: string): (r: seq<byte>)
    ensures |r| == |s| && forall i :: 0 <= i < |s| ==> r[i] == s[i] as int % 256
  {
    seq(|s|, i requires 0 <= i < |s| => s[i] as int % 256)
  }

  /** `Vec::resize(len, 0)`: truncate, or pad with zero bytes. */
  function Resize(s: seq<byte>, len: nat): (r: seq<byte>)
    ensures |r| == len
    ensures forall i :: 0 <= i < len && i < |s| ==> r[i] == s[i]
    ensures forall i :: |s| <= i < len ==> r[i] == 0
  {
    if |s| >= len then s[..len] else s + Zeros(len - |s|)
  }

  /** The bytes `init` hashes: the protocol name padded with zeros to 64 bytes. */
  function PaddedProtocolName(): (r: seq<byte>)
    ensures |r| == HASHLEN
  {
    Resize(Latin1Bytes(PROTOCOL_NAME), HASHLEN)
  }

  /** The 46-byte name keeps every byte and gains 18 zero bytes. */
  lemma PaddedNameKeepsName()
    ensures PaddedProtocolName()[..|PROTOCOL_NAME|] == Latin1Bytes(PROTOCOL_NAME)
    ensures |PROTOCOL_NAME| == 46
    ensures PaddedProtocolName()[46..] == Zeros(18)
  {
    var name := Latin1Bytes(PROTOCOL_NAME);
    assert |name| == 46;
    assert PaddedProtocolName() == name + Zeros(18);
  }

  /** The first 32 bytes of an output: `take(32).read_exact` into the temporary key. */
  function Truncate32(d: Digest64): Cs.Key {
    d[..32]
  }

  class SymmetricState {
    var cipherState: Cs.CipherState
    const hash: HashSuite
    var ck: Digest64
    var h: Digest64

    /** `new`: the given cipher state and hash suite, all-zero `ck` and `h`. */
    constructor New(cipherState: Cs.CipherState, hash: HashSuite)
      ensures this.cipherState == cipherState && this.hash == hash
      ensures ck == Zeros(HASHLEN) && h == Zeros(HASHLEN)
    {
      this.cipherState := cipherState;
      this.hash := hash;
      ck := Zeros(HASHLEN);
      h := Zeros(HASHLEN);
    }

    /**
     * `init`: `h` is the hash of the padded protocol name, `ck` copies it,
     * and the cipher state starts over with the given cipher, a zero key and
     * a zero nonce.
     */
    method Init(cipher: Cs.Cipher)
      modifies this
      ensures h == hash.hash(PaddedProtocolName()) && ck == h
      ensures fresh(cipherState)
      ensures cipherState.cipher == cipher && cipherState.k == Zeros(32) && cipherState.n == 0
    {
      var protocolName := PaddedProtocolName();
      h := hash.hash(protocolName);
      ck := h;
      cipherState := new Cs.CipherState.Init(cipher, Zeros(32));
    }

    /**
     * `mix_key`: when hkdf's first two outputs are present, the first becomes
     * `ck` and the first 32 bytes of the second key a fresh cipher state;
     * otherwise nothing changes. `h` never changes.
     */
    method MixKey(input: seq<byte>, cipher: Cs.Cipher)
      modifies this
      ensures h == old(h)
      ensures var out := hash.hkdf(old(ck), input, 2);
        if out.0.Some? && out.1.Some? then
          ck == out.0.value && fresh(cipherState) && cipherState.cipher == cipher
          && cipherState.k == Truncate32(out.1.value) && cipherState.n == 0
        else
          ck == old(ck) && cipherState == old(cipherState)
    {
      var out := hash.hkdf(ck, input, 2);
      if out.0.Some? && out.1.Some? {
        ck := out.0.value;
        var temp := Truncate32(out.1.value);
        cipherState := new Cs.CipherState.Init(cipher, temp);
      }
    }

    /** `mix_hash`: `h := hash(h || data)` for data of any length. */
    method MixHash(data: seq<byte>)
      modifies this`h
      ensures h == hash.hash(old(h) + data)
    {
      h := hash.hash(h + data);
    }

    /**
     * `mix_keyhash`: when all three outputs are present, `ck` takes the first,
     * the second is mixed into `h` and the first 32 bytes of the third key a
     * fresh cipher state; otherwise nothing changes.
     */
    method MixKeyhash(input: seq<byte>, cipher: Cs.Cipher)
      modifies this
      ensures var out := hash.hkdf(old(ck), input, 3);
        if out.0.Some? && out.1.Some? && out.2.Some? then
          ck == out.0.value && h == hash.hash(old(h) + out.1.value)
          && fresh(cipherState) && cipherState.cipher == cipher
          && cipherState.k == Truncate32(out.2.value) && cipherState.n == 0
        else
          ck == old(ck) && h == old(h) && cipherState == old(cipherState)
    {
      var out := hash.hkdf(ck, input, 3);
      if out.0.Some? && out.1.Some? && out.2.Some? {
        ck := out.0.value;
        MixHash(out.1.value);
        var temp := Truncate32(out.2.value);
        cipherState := new Cs.CipherState.Init(cipher, temp);
      }
    }
  }
}
