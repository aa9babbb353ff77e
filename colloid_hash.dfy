/**
 * The Noise HKDF composition of colloid/src/hash.rs: the keyed BLAKE3 hash
 * (`hmac`) is a parameter, and `hkdf` chains it over a temporary key and
 * 33-byte scratch buffers into the caller's output slices.
 */
module ColloidHash {

  import opened Bytes
  import opened Wrappers

  /** BLAKE3's output length, `HASHLEN`. */
  const HASHLEN: nat := 32

  /** The X25519 shared-secret length, `DHLEN`. */
  const DHLEN: nat := 32

  type Digest = s: seq<byte> | |s| == HASHLEN witness seq(32, _ => 0)

  /** `hash`: unkeyed BLAKE3 of arbitrary data. */
  type HashFn = seq<byte> -> Digest

  /** `hmac`: BLAKE3 keyed by a 32-byte key over arbitrary data. */
  type Hmac = (Digest, seq<byte>) -> Digest

  /**
   * The reference definition of the HKDF outputs from the Noise protocol
   * framework (revision 34, section 4.3): output 1 is the keyed hash of the
   * byte 0x01, and output i + 1 is the keyed hash of output i followed by
   * the byte i + 1.
   */
  function NoiseOutput(hmac: Hmac, tempKey: Digest, i: nat): Digest
    requires 1 <= i < 256
  {
    if i == 1 then hmac(tempKey, [1])
    else hmac(tempKey, NoiseOutput(hmac, tempKey, i - 1) + [i as byte])
  }

  /** The three outputs a call leaves in the caller's buffers; `out3` is None when it is not written. */
  datatype Outputs = Outputs(out1: Digest, out2: Digest, out3: Option<Digest>)

  /**
   * What `hkdf` writes: the first two outputs always, the third only when
   * `num_out` is not 2 and a third buffer was given.
   */
  function HkdfOutputs(hmac: Hmac, ck: Digest, ikm: seq<byte>, numOut: byte, hasOut3: bool): (r: Outputs)
    ensures r.out1 == NoiseOutput(hmac, hmac(ck, ikm), 1)
    ensures r.out2 == NoiseOutput(hmac, hmac(ck, ikm), 2)
    ensures r.out3.Some? <==> numOut != 2 && hasOut3
    ensures r.out3.Some? ==> r.out3.value == NoiseOutput(hmac, hmac(ck, ikm), 3)
  {
    var temp := hmac(ck, ikm);
    var o1 := hmac(temp, [1]);
    var o2 := hmac(temp, o1 + [2]);
    if numOut == 2 || !hasOut3 then Outputs(o1, o2, None)
    else Outputs(o1, o2, Some(hmac(temp, o2 + [3])))
  }

  /** The first two outputs do not depend on `num_out` or on the third buffer. */
  lemma FirstOutputsIgnoreNumOut(hmac: Hmac, ck: Digest, ikm: seq<byte>, a: byte, b: byte, hasA: bool, hasB: bool)
    ensures HkdfOutputs(hmac, ck, ikm, a, hasA).out1 == HkdfOutputs(hmac, ck, ikm, b, hasB).out1
    ensures HkdfOutputs(hmac, ck, ikm, a, hasA).out2 == HkdfOutputs(hmac, ck, ikm, b, hasB).out2
  {
  }

  /** The set of caller buffers an optional third output names. */
  function Slots(out3: Option<array<byte>>): set<array<byte>> {
    if out3.Some? then {out3.value} else {}
  }

  /**
   * `hkdf` (identical in `once::rayon`, `once::mmap`, `once::mmap_rayon` and
   * `stream`). Each output slice must be exactly 32 bytes long, since
   * `copy_from_slice` panics otherwise; the three slices are distinct
   * `&mut` borrows.
   */
  method Hkdf(hmac: Hmac, ck: Digest, ikm: seq<byte>, numOut: byte,
              out1: array<byte>, out2: array<byte>, out3: Option<array<byte>>)
    requires out1.Length == HASHLEN && out2.Length == HASHLEN && out1 != out2
    requires out3.Some? ==> out3.value.Length == HASHLEN && out3.value != out1 && out3.value != out2
    modifies out1, out2, Slots(out3)
    ensures var r := HkdfOutputs(hmac, ck, ikm, numOut, out3.Some?);
      out1[..] == r.out1 && out2[..] == r.out2
      && (out3.Some? ==> out3.value[..] == if r.out3.Some? then r.out3.value else old(out3.value[..]))
  {
    var tempKey := hmac(ck, ikm);
    var output1 := hmac(tempKey, [1]);
    CopyInto(out1, output1);
    var buf1 := new byte[33](_ => 0);
    forall i | 0 <= i < 32 {
      buf1[i] := output1[i];
    }
    buf1[32] := 2;
    assert buf1[..] == output1 + [2];
    var output2 := hmac(tempKey, buf1[..]);
    CopyInto(out2, output2);
    if numOut == 2 {
      return;
    }
    if out3.Some? {
      var buf2 := new byte[33](_ => 0);
      forall i | 0 <= i < 32 {
        buf2[i] := output2[i];
      }
      buf2[32] := 3;
      assert buf2[..] == output2 + [3];
      var output3 := hmac(tempKey, buf2[..]);
      CopyInto(out3.value, output3);
    }
  }

  /** `copy_from_slice` of a 32-byte value into a 32-byte buffer. */
  method CopyInto(dst: array<byte>, src: Digest)
    requires dst.Length == HASHLEN
    modifies dst
    ensures dst[..] == src
  {
    forall i | 0 <= i < HASHLEN {
      dst[i] := src[i];
    }
  }
}
