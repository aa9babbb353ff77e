/**
 * The CipherState of smog/src/state_machines/cipher_state.rs: a 32-byte key
 * `k` and a 12-byte little-endian nonce `n` that is stepped with carry and
 * borrow loops around each AEAD call. The ChaCha20-Poly1305 calls of
 * colloid/src/cipher.rs are parameters that may fail.
 */
module MachinesCipherState {

  import opened Bytes
  import opened Wrappers

  const KEYLEN: nat := 32
  const NONCELEN: nat := 12

  type Key = s: seq<byte> | |s| == KEYLEN witness seq(32, _ => 0)

  datatype AeadError = AeadError

  /**
   * The AEAD primitives: in-place encryption and decryption of `buf` under a
   * key, a 12-byte nonce and associated data (true when they succeed), and
   * the fallible `rekey` of a key.
   */
  datatype Aead = Aead(
    encrypt: (Key, seq<byte>, seq<byte>, seq<byte>) -> bool,
    decrypt: (Key, seq<byte>, seq<byte>, seq<byte>) -> bool,
    rekey: Key -> Option<Key>)

  /** The nonce after `m` increments: the reference for a counter of messages. */
  function Advance(s: seq<byte>, m: nat): (r: seq<byte>)
    ensures |r| == |s|
  {
    if m == 0 then s else Succ(Advance(s, m - 1))
  }

  /** After `m` increments the nonce reads as the old value plus `m`, modulo 256^|s| (2^96 for the nonce). */
  lemma {:induction false} AdvanceValue(s: seq<byte>, m: nat)
    ensures LeValue(Advance(s, m)) == (LeValue(s) + m) % Pow256(|s|)
  {
    var p := Pow256(|s|);
    if m > 0 {
      AdvanceValue(s, m - 1);
      SuccValue(Advance(s, m - 1));
      ModSucc(LeValue(s) + m - 1, p);
    } else {
      ModSmall(LeValue(s), p);
    }
  }

  /** Starting from a zero nonce, the nonce counts the increments until it wraps (at 2^96 for 12 bytes). */
  lemma FreshNonceCounts(len: nat, m: nat)
    requires m < Pow256(len)
    ensures LeValue(Advance(Zeros(len), m)) == m
  {
    AdvanceValue(Zeros(len), m);
    ZerosValue(len);
    ModSmall(m, Pow256(len));
  }

  lemma {:induction false} ZerosValue(n: nat)
    ensures LeValue(Zeros(n)) == 0
  {
    if n > 0 {
      ZerosValue(n - 1);
      assert Zeros(n)[1..] == Zeros(n - 1);
    }
  }

  /** Division with remainder is unique. */
  lemma ModUnique(x: int, q: int, r: int, p: int)
    requires p > 0 && 0 <= r < p && x == q * p + r
    ensures x % p == r
  {
    var d := q - x / p;
    assert d * p == x % p - r;
    assert d >= 1 ==> d * p >= p;
    assert d <= -1 ==> d * p <= -p;
  }

  lemma ModSmall(a: nat, p: nat)
    requires a < p
    ensures a % p == a
  {
    ModUnique(a, 0, a, p);
  }

  /** Stepping a residue by one with wrap-around is the residue of the successor. */
  lemma ModSucc(a: nat, p: nat)
    requires p > 0
    ensures (if a % p + 1 == p then 0 else a % p + 1) == (a + 1) % p
  {
    var q := a / p;
    var r := a % p;
    if r + 1 == p {
      ModUnique(a + 1, q + 1, 0, p);
    } else {
      ModUnique(a + 1, q, r + 1, p);
    }
  }

  /** Two numbers less than `p` apart have different residues. */
  lemma ModDistinct(a: nat, b: nat, p: nat)
    requires a < b < a + p
    ensures a % p != b % p
  {
    var d := b / p - a / p;
    assert b - a == d * p + (b % p - a % p);
    assert d >= 1 ==> d * p >= p;
    assert d <= 0 ==> d * p <= 0;
  }

  /** Successive increments never repeat a nonce before 256^|s| of them (2^96 for the nonce). */
  lemma NoncesDistinct(s: seq<byte>, i: nat, j: nat)
    requires i < j < Pow256(|s|)
    ensures Advance(s, i) != Advance(s, j)
  {
    AdvanceValue(s, i);
    AdvanceValue(s, j);
    ModDistinct(LeValue(s) + i, LeValue(s) + j, Pow256(|s|));
  }

  class CipherState {
    var k: Key
    const n: array<byte>

    /** The nonce is always a 12-byte buffer. */
    ghost predicate Valid() {
      n.Length == NONCELEN
    }

    /** `#[derive(Default)]`: an all-zero key and nonce. */
    constructor Default()
      ensures Valid() && fresh(n)
      ensures k == Zeros(KEYLEN) && n[..] == Zeros(NONCELEN)
    {
      k := Zeros(KEYLEN);
      n := new byte[NONCELEN](_ => 0);
    }

    /** The `CipherState::init(k)` the symmetric state calls: key `key`, zero nonce. */
    constructor Init(key: Key)
      ensures Valid() && fresh(n)
      ensures k == key && n[..] == Zeros(NONCELEN)
    {
      k := key;
      n := new byte[NONCELEN](_ => 0);
    }

    /** `init_key`: store the key and reset the nonce to zero. */
    method InitKey(key: Key)
      requires Valid()
      modifies this, n
      ensures k == key && n[..] == Zeros(NONCELEN)
    {
      k := key;
      forall i | 0 <= i < NONCELEN {
        n[i] := 0;
      }
    }

    /** `has_key`: `k` is a fixed 32-byte array, so it is never empty. */
    predicate HasKey()
      reads this
      ensures HasKey()
    {
      |k| != 0
    }

    /** `set_nonce`: replace the nonce; the key is not touched. */
    method SetNonce(nonce: seq<byte>)
      requires Valid() && |nonce| == NONCELEN
      modifies n
      ensures n[..] == nonce
    {
      forall i | 0 <= i < NONCELEN {
        n[i] := nonce[i];
      }
    }

    /** `increment_nonce_le`: add one with carry from the least significant byte, stopping once no carry is left. */
    method IncrementNonceLe()
      requires Valid()
      modifies n
      ensures n[..] == Succ(old(n[..]))
    {
      ghost var s := n[..];
      ghost var goal := Succ(s);
      var carry: int := 1;
      var i := 0;
      while i < n.Length
        invariant 0 <= i <= n.Length && carry == 1
        invariant n[i..] == s[i..]
        invariant goal == n[..i] + Succ(s[i..])
        decreases n.Length - i
      {
        ghost var before := n[..];
        var sum: int := n[i] + carry;
        n[i] := if sum > 255 then sum - 256 else sum;
        carry := if sum > 255 then 1 else 0;
        IncrementAt(s, goal, before, n[..], i);
        if carry == 0 {
          break;
        }
        i := i + 1;
      }
      if carry == 1 {
        assert n[..] == n[..i] && Succ(s[i..]) == [];
      }
    }

    /** `decrement_nonce_le`: subtract one with borrow, stopping once no borrow is left. */
    method DecrementNonceLe()
      requires Valid()
      modifies n
      ensures n[..] == Pred(old(n[..]))
    {
      ghost var s := n[..];
      ghost var goal := Pred(s);
      var borrow: int := 1;
      var i := 0;
      while i < n.Length
        invariant 0 <= i <= n.Length && borrow == 1
        invariant n[i..] == s[i..]
        invariant goal == n[..i] + Pred(s[i..])
        decreases n.Length - i
      {
        ghost var before := n[..];
        var diff: int := n[i] - borrow;
        n[i] := if diff < 0 then diff + 256 else diff;
        borrow := if diff < 0 then 1 else 0;
        DecrementAt(s, goal, before, n[..], i);
        if borrow == 0 {
          break;
        }
        i := i + 1;
      }
      if borrow == 1 {
        assert n[..] == n[..i] && Pred(s[i..]) == [];
      }
    }

    /** `encrypt_with_ad`: advance the nonce, then encrypt under the new nonce; a failure keeps the advanced nonce. */
    method EncryptWithAd(aead: Aead, ad: seq<byte>, buf: seq<byte>) returns (r: Result<(), AeadError>)
      requires Valid()
      modifies n
      ensures n[..] == Succ(old(n[..]))
      ensures r.Ok? <==> aead.encrypt(k, n[..], ad, buf)
    {
      if !HasKey() {
        return Ok(());
      }
      IncrementNonceLe();
      var ok := aead.encrypt(k, n[..], ad, buf);
      if !ok {
        return Err(AeadError);
      }
      r := Ok(());
    }

    /**
     * `decrypt_with_ad`: advance the nonce and decrypt under it; when the AEAD
     * rejects the ciphertext the nonce is stepped back, so a failed decryption
     * leaves the state exactly as it was.
     */
    method DecryptWithAd(aead: Aead, ad: seq<byte>, buf: seq<byte>) returns (r: Result<(), AeadError>)
      requires Valid()
      modifies n
      ensures r.Ok? <==> aead.decrypt(k, Succ(old(n[..])), ad, buf)
      ensures r.Ok? ==> n[..] == Succ(old(n[..]))
      ensures r.Err? ==> n[..] == old(n[..])
    {
      if !HasKey() {
        return Ok(());
      }
      ghost var before := n[..];
      IncrementNonceLe();
      var ok := aead.decrypt(k, n[..], ad, buf);
      if ok {
        return Ok(());
      }
      DecrementNonceLe();
      PredSucc(before);
      r := Err(AeadError);
    }

    /** `rekey`: replace the key by its rekeyed value; on failure the key is kept. */
    method Rekey(aead: Aead) returns (r: Result<(), AeadError>)
      modifies this`k
      ensures r.Ok? <==> aead.rekey(old(k)).Some?
      ensures k == if r.Ok? then aead.rekey(old(k)).value else old(k)
    {
      var next := aead.rekey(k);
      if next.None? {
        return Err(AeadError);
      }
      k := next.value;
      r := Ok(());
    }
  }

  /**
   * One pass of the carry loop: with a carry into byte i, writing the sum
   * either finishes the successor (no carry out) or moves the carry to byte
   * i + 1.
   */
  lemma IncrementAt(s: seq<byte>, goal: seq<byte>, before: seq<byte>, after: seq<byte>, i: nat)
    requires |before| == |s| && i < |s|
    requires before[i..] == s[i..] && goal == before[..i] + Succ(s[i..])
    requires after == before[i := if s[i] == 255 then 0 else s[i] + 1]
    ensures s[i] < 255 ==> after == goal
    ensures s[i] == 255 ==> after[i + 1..] == s[i + 1..] && goal == after[..i + 1] + Succ(s[i + 1..])
  {
    var t := s[i..];
    var rest := s[i + 1..];
    var pre := before[..i];
    assert t[0] == s[i] && t[1..] == rest;
    assert before[i + 1..] == before[i..][1..];
    assert after[..i] == pre && after[i + 1..] == rest;
    assert after[..i + 1] == pre + [after[i]];
    assert after == pre + ([after[i]] + rest);
    StepOfSucc(t);
    if s[i] < 255 {
      assert Succ(t) == [after[i]] + rest;
    } else {
      assert Succ(t) == [after[i]] + Succ(rest);
    }
  }

  /** One pass of the borrow loop, the mirror of IncrementAt. */
  lemma DecrementAt(s: seq<byte>, goal: seq<byte>, before: seq<byte>, after: seq<byte>, i: nat)
    requires |before| == |s| && i < |s|
    requires before[i..] == s[i..] && goal == before[..i] + Pred(s[i..])
    requires after == before[i := if s[i] == 0 then 255 else s[i] - 1]
    ensures s[i] > 0 ==> after == goal
    ensures s[i] == 0 ==> after[i + 1..] == s[i + 1..] && goal == after[..i + 1] + Pred(s[i + 1..])
  {
    var t := s[i..];
    var rest := s[i + 1..];
    var pre := before[..i];
    assert t[0] == s[i] && t[1..] == rest;
    assert before[i + 1..] == before[i..][1..];
    assert after[..i] == pre && after[i + 1..] == rest;
    assert after[..i + 1] == pre + [after[i]];
    assert after == pre + ([after[i]] + rest);
    StepOfPred(t);
    if s[i] > 0 {
      assert Pred(t) == [after[i]] + rest;
    } else {
      assert Pred(t) == [after[i]] + Pred(rest);
    }
  }


  lemma StepOfSucc(t: seq<byte>)
    requires t != []
    ensures Succ(t) == if t[0] < 255 then [t[0] + 1] + t[1..] else [0] + Succ(t[1..])
  {
  }

  lemma StepOfPred(t: seq<byte>)
    requires t != []
    ensures Pred(t) == if t[0] > 0 then [t[0] - 1] + t[1..] else [255] + Pred(t[1..])
  {
  }
}
