/**
 * Text: the handful of `str` operations the pattern parsers use — `split`,
 * `split_once`, `starts_with`/`ends_with`, ASCII case mapping and Rust's
 * parsing of an unsigned integer.
 */
module Text {

  import opened Wrappers

  /** Index of the first occurrence of `c` in `s`. */
  function FirstIndex(s: string, c: char): (i: nat)
    requires c in s
    ensures i < |s| && s[i] == c && c !in s[..i]
  {
    if s[0] == c then 0 else 1 + FirstIndex(s[1..], c)
  }

  /** `str::split(c)`: the pieces between occurrences of `c`, empty pieces included. */
  function Split(s: string, c: char): (parts: seq<string>)
    ensures |parts| == multiset(s)[c] + 1
    ensures forall i :: 0 <= i < |parts| ==> c !in parts[i]
    decreases |s|
  {
    if c !in s then [s]
    else
      var i := FirstIndex(s, c);
      assert s == s[..i] + [c] + s[i + 1..];
      assert multiset(s)[c] == multiset(s[..i])[c] + 1 + multiset(s[i + 1..])[c];
      [s[..i]] + Split(s[i + 1..], c)
  }

  /** Joining the pieces with the separator gives the string back. */
  function Join(parts: seq<string>, c: char): string
    requires |parts| >= 1
  {
    if |parts| == 1 then parts[0] else parts[0] + [c] + Join(parts[1..], c)
  }

  lemma {:induction false} JoinSplit(s: string, c: char)
    ensures Join(Split(s, c), c) == s
    decreases |s|
  {
    if c in s {
      var i := FirstIndex(s, c);
      JoinSplit(s[i + 1..], c);
      assert Split(s, c)[1..] == Split(s[i + 1..], c);
      assert s == s[..i] + [c] + s[i + 1..];
    }
  }

  /** Splitting a join of separator-free pieces gives the pieces back. */
  lemma {:induction false} SplitJoin(parts: seq<string>, c: char)
    requires |parts| >= 1 && forall i :: 0 <= i < |parts| ==> c !in parts[i]
    ensures Split(Join(parts, c), c) == parts
    decreases |parts|
  {
    if |parts| > 1 {
      var rest := Join(parts[1..], c);
      assert Join(parts, c) == parts[0] + [c] + rest;
      SplitAfterFirst(parts[0], c, rest);
      SplitJoin(parts[1..], c);
      assert [parts[0]] + parts[1..] == parts;
    }
  }

  /** The first piece ends at the first separator. */
  lemma SplitAfterFirst(a: string, c: char, b: string)
    requires c !in a
    ensures Split(a + [c] + b, c) == [a] + Split(b, c)
  {
    var s := a + [c] + b;
    FirstIndexAfterPrefix(a, c, b);
    assert s[..|a|] == a && s[|a| + 1..] == b;
  }

  lemma FirstIndexAfterPrefix(a: string, c: char, b: string)
    requires c !in a
    ensures c in a + [c] + b && FirstIndex(a + [c] + b, c) == |a|
  {
    var s := a + [c] + b;
    assert s[|a|] == c && s[..|a|] == a;
  }

  /** `str::split_once(c)`: the text before and after the first `c`, if any. */
  function SplitOnce(s: string, c: char): (r: Option<(string, string)>)
    ensures r.None? <==> c !in s
    ensures r.Some? ==> c !in r.value.0 && s == r.value.0 + [c] + r.value.1
  {
    if c !in s then None
    else
      var i := FirstIndex(s, c);
      assert s == s[..i] + [c] + s[i + 1..];
      Some((s[..i], s[i + 1..]))
  }

  predicate StartsWith(s: string, p: string) {
    |p| <= |s| && s[..|p|] == p
  }

  predicate EndsWith(s: string, p: string) {
    |p| <= |s| && s[|s| - |p|..] == p
  }

  function ToUpperAscii(c: char): char {
    if 'a' <= c <= 'z' then (c as int - 32) as char else c
  }

  function ToLowerAscii(c: char): char {
    if 'A' <= c <= 'Z' then (c as int + 32) as char else c
  }

  function LowerAscii(s: string): (r: string)
    ensures |r| == |s| && forall i :: 0 <= i < |s| ==> r[i] == ToLowerAscii(s[i])
  {
    seq(|s|, i requires 0 <= i < |s| => ToLowerAscii(s[i]))
  }

  predicate IsDigit(c: char) {
    '0' <= c <= '9'
  }

  /** Decimal value of a digit string, most significant digit first. */
  function DigitsValue(s: string): nat
    requires forall i :: 0 <= i < |s| ==> IsDigit(s[i])
  {
    if s == [] then 0
    else
      assert IsDigit(s[|s| - 1]);
      DigitsValue(s[..|s| - 1]) * 10 + (s[|s| - 1] as int - '0' as int)
  }

  /** The shortest decimal spelling of `v` (what `format!("{}", v)` prints). */
  function Decimal(v: nat): (s: string)
    ensures |s| >= 1 && forall i :: 0 <= i < |s| ==> IsDigit(s[i])
  {
    if v < 10 then [('0' as int + v) as char]
    else Decimal(v / 10) + [('0' as int + v % 10) as char]
  }

  lemma {:induction false} DigitsValueOfDecimal(v: nat)
    ensures DigitsValue(Decimal(v)) == v
  {
    if v >= 10 {
      var s := Decimal(v);
      assert s[..|s| - 1] == Decimal(v / 10);
      DigitsValueOfDecimal(v / 10);
    }
  }

  predicate AllDigits(s: string) {
    forall i :: 0 <= i < |s| ==> IsDigit(s[i])
  }

  /** The digits part of an unsigned literal: the text without one leading '+'. */
  function UnsignedDigits(s: string): (d: string)
    ensures |d| <= |s| && d == s[|s| - |d|..]
    ensures |d| == |s| <==> s == [] || s[0] != '+'
  {
    if s != [] && s[0] == '+' then s[1..] else s
  }

  /**
   * Rust's `str::parse` for an unsigned integer type whose largest value is
   * `max`: an optional leading '+', then at least one ASCII digit (leading
   * zeros allowed), and a value that fits; anything else is an error.
   */
  function ParseUnsigned(s: string, max: nat): (r: Option<nat>)
    ensures r.Some? ==> r.value <= max
    ensures s == [] ==> r.None?
    ensures r.Some? <==> var d := UnsignedDigits(s); d != [] && AllDigits(d) && DigitsValue(d) <= max
    ensures r.Some? ==> r.value == DigitsValue(UnsignedDigits(s))
    ensures r.Some? ==> exists i :: 0 <= i < |s| && IsDigit(s[i])
  {
    var digits := UnsignedDigits(s);
    if digits == [] || !AllDigits(digits) then None
    else
      assert IsDigit(s[|s| - 1]);
      var v := DigitsValue(digits);
      if v <= max then Some(v) else None
  }

  /** "<name>+psk<rest>" is `name`, a '+' and the suffix "psk<rest>". */
  lemma PskSuffixJoin(name: string, rest: string)
    ensures name + "+psk" + rest == name + "+" + ("psk" + rest)
  {
    assert "+psk" == "+" + "psk";
  }

  /** Every value up to `max`, written in decimal, parses back to itself. */
  lemma ParseDecimal(v: nat, max: nat)
    requires v <= max
    ensures ParseUnsigned(Decimal(v), max) == Some(v)
  {
    DigitsValueOfDecimal(v);
  }

  /** A value above `max`, written in decimal, is rejected. */
  lemma ParseDecimalTooLarge(v: nat, max: nat)
    requires v > max
    ensures ParseUnsigned(Decimal(v), max).None?
  {
    DigitsValueOfDecimal(v);
    var d := Decimal(v);
    assert IsDigit(d[0]);
  }
}
