/**
 * Bytes: the `u8` type and the integer readings of byte strings that the
 * cipher state (little-endian nonce) and the packet headers (big-endian
 * fields) rely on.
 */
module Bytes {

  type byte = x: int | 0 <= x < 256

  function Pow256(n: nat): (r: nat)
    ensures r >= 1
  {
    if n == 0 then 1 else 256 * Pow256(n - 1)
  }

  function Zeros(n: nat): (s: seq<byte>)
    ensures |s| == n && forall i :: 0 <= i < n ==> s[i] == 0
  {
    seq(n, _ => 0)
  }

  // ---------------------------------------------------------------------
  // Little-endian: s[0] is the least significant byte.

  function LeValue(s: seq<byte>): (v: nat)
    ensures v < Pow256(|s|)
  {
    if s == [] then 0 else s[0] + 256 * LeValue(s[1..])
  }

  /** Two byte strings of one length with the same little-endian value are equal. */
  lemma {:induction false} LeValueInjective(s: seq<byte>, t: seq<byte>)
    requires |s| == |t| && LeValue(s) == LeValue(t)
    ensures s == t
  {
    if s != [] {
      assert s[0] - t[0] == 256 * (LeValue(t[1..]) - LeValue(s[1..]));
      LeValueInjective(s[1..], t[1..]);
      assert s == [s[0]] + s[1..] && t == [t[0]] + t[1..];
    }
  }

  /**
   * The successor of a little-endian counter with carry, wrapping to all
   * zeros past the largest value: the byte-level reference definition of
   * "add one".
   */
  function Succ(s: seq<byte>): (r: seq<byte>)
    ensures |r| == |s|
  {
    if s == [] then []
    else if s[0] < 255 then [s[0] + 1] + s[1..]
    else [0] + Succ(s[1..])
  }

  /** The predecessor with borrow, wrapping from all zeros to all 0xff. */
  function Pred(s: seq<byte>): (r: seq<byte>)
    ensures |r| == |s|
  {
    if s == [] then []
    else if s[0] > 0 then [s[0] - 1] + s[1..]
    else [255] + Pred(s[1..])
  }

  /** Succ adds one to the little-endian value, wrapping from 256^|s| - 1 to 0. */
  lemma {:induction false} SuccValue(s: seq<byte>)
    ensures LeValue(Succ(s)) == if LeValue(s) + 1 == Pow256(|s|) then 0 else LeValue(s) + 1
  {
    if s != [] {
      var r := Succ(s);
      assert r[1..] == (if s[0] < 255 then s[1..] else Succ(s[1..]));
      if s[0] == 255 {
        SuccValue(s[1..]);
      }
    }
  }

  /** Pred subtracts one from the little-endian value, wrapping from 0 to 256^|s| - 1. */
  lemma {:induction false} PredValue(s: seq<byte>)
    ensures LeValue(Pred(s)) == if LeValue(s) == 0 then Pow256(|s|) - 1 else LeValue(s) - 1
  {
    if s != [] {
      var r := Pred(s);
      assert r[1..] == (if s[0] > 0 then s[1..] else Pred(s[1..]));
      if s[0] == 0 {
        PredValue(s[1..]);
      }
    }
  }

  /** Decrementing undoes incrementing, including across the wrap-around. */
  lemma {:induction false} PredSucc(s: seq<byte>)
    ensures Pred(Succ(s)) == s
  {
    if s != [] && s[0] == 255 {
      PredSucc(s[1..]);
      assert Pred(Succ(s)) == [255] + Pred(Succ(s[1..]));
    }
  }

  lemma {:induction false} SuccPred(s: seq<byte>)
    ensures Succ(Pred(s)) == s
  {
    if s != [] && s[0] == 0 {
      SuccPred(s[1..]);
      assert Succ(Pred(s)) == [0] + Succ(Pred(s[1..]));
    }
  }

  // ---------------------------------------------------------------------
  // Big-endian: s[0] is the most significant byte (network order).

  function BeValue(s: seq<byte>): (v: nat)
    ensures v < Pow256(|s|)
  {
    if s == [] then 0 else BeValue(s[..|s| - 1]) * 256 + s[|s| - 1]
  }

  /** The `width` low-order bytes of `v` in network order (Rust's `to_be_bytes` of a truncating cast). */
  function BeBytes(v: nat, width: nat): (s: seq<byte>)
    ensures |s| == width
  {
    if width == 0 then [] else BeBytes(v / 256, width - 1) + [v % 256]
  }

  /** A value below 256^width survives the big-endian round trip. */
  lemma {:induction false} BeRoundTrip(v: nat, width: nat)
    requires v < Pow256(width)
    ensures BeValue(BeBytes(v, width)) == v
  {
    if width > 0 {
      var s := BeBytes(v, width);
      assert s[..width - 1] == BeBytes(v / 256, width - 1);
      BeRoundTrip(v / 256, width - 1);
    }
  }

  lemma {:induction false} BeBytesOfBeValue(s: seq<byte>)
    ensures BeBytes(BeValue(s), |s|) == s
  {
    if s != [] {
      var n := |s|;
      var init := s[..n - 1];
      BeBytesOfBeValue(init);
      assert s == init + [s[n - 1]];
    }
  }
}
