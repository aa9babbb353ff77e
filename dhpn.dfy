/**
 * Pattern tokens and key slots (smog/src/dhpn.rs): a pattern name such as
 * "XXfallback+psk3" is read into pattern letters, an optional fallback
 * marker and an optional psk position; a session keeps its token list, its
 * role and four key slots with their presence flags.
 */
module PatternTokens {

  import opened Wrappers
  import opened Text
  import opened Bytes
  import HandshakeDerivation

  /** A Diffie-Hellman operation name (`Steps`). */
  datatype DhStep = Ee | Es | Se | Ss

  function DhName(d: DhStep): string {
    match d
    case Ee => "ee"
    case Es => "es"
    case Se => "se"
    case Ss => "ss"
  }

  /** `Steps::from_str`: exactly "ee", "es", "se" and "ss" are accepted, each as its own step. */
  function DhFromStr(s: string): (r: Option<DhStep>)
    ensures r.Some? ==> DhName(r.value) == s
    ensures r.None? ==> forall d: DhStep :: DhName(d) != s
  {
    if s == "ee" then Some(Ee)
    else if s == "es" then Some(Es)
    else if s == "se" then Some(Se)
    else if s == "ss" then Some(Ss)
    else None
  }

  lemma DhNameRoundTrip(d: DhStep)
    ensures DhFromStr(DhName(d)) == Some(d)
  {
    var r := DhFromStr(DhName(d));
    assert r.Some?;
    assert DhName(r.value)[0] == DhName(d)[0] && DhName(r.value)[1] == DhName(d)[1];
  }

  datatype Token = X | K | N | I | Fallback | Psk(n: byte)

  /** The spellings `Tokens::from_str` accepts; psk positions 0 to 3 only. */
  function TokenName(t: Token): string
    requires t.Psk? ==> t.n <= 3
  {
    match t
    case X => "X"
    case K => "K"
    case N => "N"
    case I => "I"
    case Fallback => "fallback"
    case Psk(n) => "+psk" + [('0' as int + n) as char]
  }

  /** `Tokens::from_str`: exactly the nine spellings, each read as its own token. */
  function TokenFromStr(s: string): (r: Option<Token>)
    ensures r.Some? ==> (r.value.Psk? ==> r.value.n <= 3) && TokenName(r.value) == s
    ensures r.None? ==> forall t: Token :: (t.Psk? ==> t.n <= 3) ==> TokenName(t) != s
  {
    if s == "X" then Some(X)
    else if s == "K" then Some(K)
    else if s == "N" then Some(N)
    else if s == "I" then Some(I)
    else if s == "fallback" then Some(Fallback)
    else if s == "+psk0" then Some(Psk(0))
    else if s == "+psk1" then Some(Psk(1))
    else if s == "+psk2" then Some(Psk(2))
    else if s == "+psk3" then Some(Psk(3))
    else None
  }

  lemma TokenNameRoundTrip(t: Token)
    requires t.Psk? ==> t.n <= 3
    ensures TokenFromStr(TokenName(t)) == Some(t)
  {
    var r := TokenFromStr(TokenName(t));
    assert r.Some?;
    var a, b := TokenName(r.value), TokenName(t);
    if |a| == 1 {
      assert a[0] == b[0];
    } else if |a| == 5 {
      assert a[4] == b[4];
    }
  }

  /** The characters the prefix pattern `^[IXKxkNn]+` matches. */
  predicate IsPatternLetter(c: char) {
    c == 'I' || c == 'X' || c == 'K' || c == 'x' || c == 'k' || c == 'N' || c == 'n'
  }

  /** The longest prefix of `s` made of pattern letters (what the anchored regex finds). */
  function LeadingRun(s: string): (r: string)
    ensures |r| <= |s| && s[..|r|] == r
    ensures forall i :: 0 <= i < |r| ==> IsPatternLetter(r[i])
    ensures |r| < |s| ==> !IsPatternLetter(s[|r|])
  {
    if s == [] || !IsPatternLetter(s[0]) then []
    else [s[0]] + LeadingRun(s[1..])
  }

  function UpperAscii(s: string): (r: string)
    ensures |r| == |s| && forall i :: 0 <= i < |s| ==> r[i] == ToUpperAscii(s[i])
  {
    seq(|s|, i requires 0 <= i < |s| => ToUpperAscii(s[i]))
  }

  predicate IsUpperLetter(c: char) {
    c == 'X' || c == 'K' || c == 'N' || c == 'I'
  }

  /** The token of one upper-case pattern letter. */
  function LetterToken(c: char): (t: Token)
    requires IsUpperLetter(c)
    ensures t.X? || t.K? || t.N? || t.I?
  {
    if c == 'X' then X else if c == 'K' then K else if c == 'N' then N else I
  }

  /** The tokens of an upper-case letter run, in order. */
  function LetterTokens(body: string): (r: seq<Token>)
    requires forall i :: 0 <= i < |body| ==> IsUpperLetter(body[i])
    ensures |r| == |body| && forall i :: 0 <= i < |body| ==> r[i] == LetterToken(body[i])
  {
    if body == [] then [] else LetterTokens(body[..|body| - 1]) + [LetterToken(body[|body| - 1])]
  }

  datatype TokenError = InvalidPatternPrefix | InvalidPskNumber

  /** The text before and after the first '+', or the whole text and "". */
  function PrefixSuffix(patterns: string): (r: (string, string))
    ensures '+' !in r.0
    ensures '+' in patterns ==> patterns == r.0 + "+" + r.1
    ensures '+' !in patterns ==> r == (patterns, "")
  {
    match SplitOnce(patterns, '+')
    case Some(ps) => ps
    case None => (patterns, "")
  }

  /** Whether the prefix, lower-cased, ends with "fallback". */
  predicate HasFallback(prefix: string) {
    EndsWith(LowerAscii(prefix), "fallback")
  }

  /** The leading pattern letters of the prefix as tokens, or `None` when there are none. */
  function BodyTokens(prefix: string): (r: Option<seq<Token>>)
    ensures r.None? <==> prefix == [] || !IsPatternLetter(prefix[0])
    ensures r.Some? ==> |r.value| == |LeadingRun(prefix)| >= 1
    ensures r.Some? ==> forall i :: 0 <= i < |r.value| ==> r.value[i] in {X, K, N, I}
    ensures r.Some? ==> forall i :: 0 <= i < |r.value| ==>
      IsPatternLetter(prefix[i]) && r.value[i] == LetterToken(ToUpperAscii(prefix[i]))
  {
    var run := LeadingRun(prefix);
    if run == [] then None
    else
      var up := UpperAscii(run);
      assert forall i :: 0 <= i < |run| ==> run[i] == prefix[i] && up[i] == ToUpperAscii(prefix[i]);
      Some(LetterTokens(up))
  }

  /** The psk part of the suffix: nothing unless it starts with "psk", then a u8 or an error. */
  function PskTokens(suffix: string): (r: Result<seq<Token>, TokenError>)
    ensures !StartsWith(suffix, "psk") ==> r == Ok([])
    ensures r.Ok? && r.value != [] ==> |r.value| == 1 && r.value[0].Psk?
    ensures r.Err? ==> r.error == InvalidPskNumber
    ensures StartsWith(suffix, "psk") ==> (r.Err? <==> ParseUnsigned(suffix[3..], 255).None?)
    ensures StartsWith(suffix, "psk") && r.Ok? ==> r.value == [Psk(ParseUnsigned(suffix[3..], 255).value)]
  {
    if !StartsWith(suffix, "psk") then Ok([])
    else
      match ParseUnsigned(suffix[3..], 255)
      case None => Err(InvalidPskNumber)
      case Some(n) => Ok([Psk(n)])
  }

  /**
   * What `Tokens::new` returns: the prefix's leading letters as tokens, then
   * Fallback when the prefix ends with "fallback" in any ASCII case, then Psk(n)
   * when the suffix is "psk" followed by a u8. A prefix with no leading
   * letter and a "psk" suffix whose number is not a u8 are errors; any other
   * suffix is ignored.
   */
  function Tokenize(patterns: string): (r: Result<seq<Token>, TokenError>)
    ensures r.Ok? ==> |r.value| >= 1 && (r.value[0].X? || r.value[0].K? || r.value[0].N? || r.value[0].I?)
    ensures r.Ok? ==> forall i :: 0 <= i < |r.value| - 1 ==> !r.value[i].Psk?
    ensures var (prefix, suffix) := PrefixSuffix(patterns);
      r.Err? <==> BodyTokens(prefix).None? || PskTokens(suffix).Err?
    ensures BodyTokens(PrefixSuffix(patterns).0).None? ==> r == Err(InvalidPatternPrefix)
    ensures r.Ok? ==> var (prefix, suffix) := PrefixSuffix(patterns);
      BodyTokens(prefix).Some? && PskTokens(suffix).Ok?
      && |r.value| == |BodyTokens(prefix).value| + (if HasFallback(prefix) then 1 else 0) + |PskTokens(suffix).value|
    ensures r.Ok? ==> var prefix := PrefixSuffix(patterns).0;
      r.value[..|BodyTokens(prefix).value|] == BodyTokens(prefix).value
    ensures r.Ok? ==> (Fallback in r.value <==> HasFallback(PrefixSuffix(patterns).0))
    ensures r.Ok? ==> var psk := PskTokens(PrefixSuffix(patterns).1);
      r.value[|r.value| - |psk.value|..] == psk.value
  {
    var parts := PrefixSuffix(patterns);
    TokenizeParts(parts.0, parts.1)
  }

  /** `Tokens::new` once the name is split at its first '+'. */
  function TokenizeParts(prefix: string, suffix: string): (r: Result<seq<Token>, TokenError>)
    ensures r.Ok? ==> |r.value| >= 1 && (r.value[0].X? || r.value[0].K? || r.value[0].N? || r.value[0].I?)
    ensures r.Ok? ==> forall i :: 0 <= i < |r.value| - 1 ==> !r.value[i].Psk?
    ensures r.Err? <==> BodyTokens(prefix).None? || PskTokens(suffix).Err?
    ensures BodyTokens(prefix).None? ==> r == Err(InvalidPatternPrefix)
    ensures r.Ok? ==>
      BodyTokens(prefix).Some? && PskTokens(suffix).Ok?
      && |r.value| == |BodyTokens(prefix).value| + (if HasFallback(prefix) then 1 else 0) + |PskTokens(suffix).value|
    ensures r.Ok? ==> r.value[..|BodyTokens(prefix).value|] == BodyTokens(prefix).value
    ensures r.Ok? ==> (Fallback in r.value <==> HasFallback(prefix))
    ensures r.Ok? ==> r.value[|r.value| - |PskTokens(suffix).value|..] == PskTokens(suffix).value
  {
    match BodyTokens(prefix)
    case None => Err(InvalidPatternPrefix)
    case Some(letters) =>
      match PskTokens(suffix)
      case Err(e) => Err(e)
      case Ok(psk) =>
        var mark := if HasFallback(prefix) then [Fallback] else [];
        TokensLayout(letters, mark, psk);
        Ok(letters + mark + psk)
  }

  /** Letter tokens, then an optional Fallback, then an optional Psk token. */
  lemma TokensLayout(letters: seq<Token>, mark: seq<Token>, psk: seq<Token>)
    requires forall i :: 0 <= i < |letters| ==> letters[i] in {X, K, N, I}
    requires mark == [] || mark == [Fallback]
    requires psk == [] || (|psk| == 1 && psk[0].Psk?)
    ensures var out := letters + mark + psk;
      && out[..|letters|] == letters
      && out[|out| - |psk|..] == psk
      && (forall i :: 0 <= i < |out| - 1 ==> !out[i].Psk?)
      && (Fallback in out <==> mark != [])
  {
    var out := letters + mark + psk;
    assert out[..|letters|] == letters;
    assert out[|out| - |psk|..] == psk;
    assert forall i :: 0 <= i < |letters| ==> letters[i] != Fallback && !letters[i].Psk?;
    assert Fallback in out <==> Fallback in letters || Fallback in mark || Fallback in psk;
  }

  /** The loop of `Tokens::new` over the upper-cased letter run. */
  method LettersToTokens(body: string) returns (out: seq<Token>)
    requires forall i :: 0 <= i < |body| ==> IsUpperLetter(body[i])
    ensures out == LetterTokens(body)
  {
    out := [];
    for i := 0 to |body|
      invariant out == LetterTokens(body[..i])
    {
      var c := body[i];
      if c == 'X' {
        out := out + [X];
      } else if c == 'K' {
        out := out + [K];
      } else if c == 'N' {
        out := out + [N];
      } else {
        assert c == 'I';
        out := out + [I];
      }
      assert body[..i + 1][..i] == body[..i];
    }
    assert body[..|body|] == body;
  }

  lemma UpperRun(run: string)
    requires forall i :: 0 <= i < |run| ==> IsPatternLetter(run[i])
    ensures forall i :: 0 <= i < |run| ==> IsUpperLetter(UpperAscii(run)[i])
  {
  }

  /** `Tokens::new`. */
  method NewTokens(patterns: string) returns (r: Result<seq<Token>, TokenError>)
    ensures r == Tokenize(patterns)
  {
    var (prefix, suffix) := PrefixSuffix(patterns);
    var run := LeadingRun(prefix);
    if run == [] {
      return Err(InvalidPatternPrefix);
    }
    UpperRun(run);
    var out := LettersToTokens(UpperAscii(run));
    assert BodyTokens(prefix) == Some(out);
    if HasFallback(prefix) {
      out := out + [Fallback];
    }
    if StartsWith(suffix, "psk") {
      var n := ParseUnsigned(suffix[3..], 255);
      if n.None? {
        assert PskTokens(suffix) == Err(InvalidPskNumber);
        return Err(InvalidPskNumber);
      }
      assert PskTokens(suffix) == Ok([Psk(n.value)]);
      out := out + [Psk(n.value)];
    } else {
      assert PskTokens(suffix) == Ok([]);
      assert out + [] == out;
    }
    r := Ok(out);
  }

  /** The first '+' splits a '+'-free prefix from the rest. */
  lemma PrefixSuffixOf(prefix: string, suffix: string)
    requires '+' !in prefix
    ensures PrefixSuffix(prefix + "+" + suffix) == (prefix, suffix)
  {
    var s := prefix + "+" + suffix;
    FirstIndexAfterPrefix(prefix, '+', suffix);
    assert s[..|prefix|] == prefix && s[|prefix| + 1..] == suffix;
  }

  /** An upper-case letter run followed by text that does not start with a pattern letter. */
  lemma {:induction false} LeadingRunOf(letters: string, rest: string)
    requires forall i :: 0 <= i < |letters| ==> IsPatternLetter(letters[i])
    requires rest == [] || !IsPatternLetter(rest[0])
    ensures LeadingRun(letters + rest) == letters
  {
    if letters != [] {
      assert (letters + rest)[1..] == letters[1..] + rest;
      LeadingRunOf(letters[1..], rest);
    } else {
      assert letters + rest == rest;
    }
  }

  lemma UpperOfUpper(s: string)
    requires forall i :: 0 <= i < |s| ==> IsUpperLetter(s[i])
    ensures UpperAscii(s) == s
  {
  }

  /** Letters alone never end with "fallback": its last-but-seven character 'f' is not a letter. */
  lemma LettersHaveNoFallback(letters: string)
    requires forall i :: 0 <= i < |letters| ==> IsUpperLetter(letters[i])
    ensures !HasFallback(letters)
  {
    var low := LowerAscii(letters);
    if |low| >= 8 {
      var j := |low| - 8;
      assert low[j] != 'f';
      assert low[j..][0] != "fallback"[0];
    }
  }

  lemma FallbackSuffix(letters: string)
    ensures HasFallback(letters + "fallback")
  {
    var s := letters + "fallback";
    var low := LowerAscii(s);
    assert low[|low| - 8..] == "fallback";
  }

  /** The prefix of a well-formed name: its letters' tokens, and the fallback marker exactly when appended. */
  lemma {:induction false} NamePrefix(letters: string, fallback: bool)
    requires |letters| >= 1 && forall i :: 0 <= i < |letters| ==> IsUpperLetter(letters[i])
    ensures var prefix := letters + (if fallback then "fallback" else "");
      '+' !in prefix && BodyTokens(prefix) == Some(LetterTokens(letters)) && HasFallback(prefix) == fallback
  {
    var prefix := letters + (if fallback then "fallback" else "");
    assert '+' !in prefix;
    if fallback {
      LeadingRunOf(letters, "fallback");
      FallbackSuffix(letters);
    } else {
      LeadingRunOf(letters, "");
      assert letters + "" == letters;
      LettersHaveNoFallback(letters);
    }
    UpperOfUpper(letters);
  }

  /** The suffix of a well-formed name: "psk" and a u8 give that Psk token, no suffix none. */
  lemma NameSuffix(psk: Option<nat>)
    requires psk.Some? ==> psk.value <= 255
    ensures PskTokens(if psk.Some? then "psk" + Decimal(psk.value) else "")
      == Ok(if psk.Some? then [Psk(psk.value)] else [])
  {
    if psk.Some? {
      var suffix := "psk" + Decimal(psk.value);
      ParseDecimal(psk.value, 255);
      assert suffix[3..] == Decimal(psk.value);
    }
  }

  /**
   * Round trip: upper-case pattern letters, optionally "fallback", optionally
   * "+psk<n>" with n a u8, are read as the letters' tokens, then Fallback,
   * then Psk(n).
   */
  lemma {:induction false} TokenizeName(letters: string, fallback: bool, psk: Option<nat>)
    requires |letters| >= 1 && forall i :: 0 <= i < |letters| ==> IsUpperLetter(letters[i])
    requires psk.Some? ==> psk.value <= 255
    ensures var name := letters + (if fallback then "fallback" else "")
                          + (if psk.Some? then "+psk" + Decimal(psk.value) else "");
      Tokenize(name) == Ok(LetterTokens(letters) + (if fallback then [Fallback] else [])
                             + (if psk.Some? then [Psk(psk.value)] else []))
  {
    var prefix := letters + (if fallback then "fallback" else "");
    var suffix := if psk.Some? then "psk" + Decimal(psk.value) else "";
    var name := prefix + (if psk.Some? then "+psk" + Decimal(psk.value) else "");
    if psk.Some? {
      assert name == prefix + "+" + suffix;
      PrefixSuffixOf(prefix, suffix);
    } else {
      assert name == prefix;
    }
    assert Tokenize(name) == TokenizeParts(prefix, suffix);
    NamePrefix(letters, fallback);
    NameSuffix(psk);
  }

  /** A prefix that does not start with a pattern letter is rejected (lower-case 'i' included). */
  lemma TokenizeRejectsPrefix(patterns: string)
    requires patterns == [] || !IsPatternLetter(patterns[0])
    ensures Tokenize(patterns) == Err(InvalidPatternPrefix)
  {
    var prefix := PrefixSuffix(patterns).0;
    if prefix != [] {
      if '+' in patterns {
        assert patterns[0] == prefix[0];
      } else {
        assert prefix == patterns;
      }
    }
  }

  /** A suffix not starting with "psk" is ignored: the result is that of the prefix alone. */
  lemma TokenizeIgnoresOtherSuffix(prefix: string, suffix: string)
    requires '+' !in prefix && !StartsWith(suffix, "psk")
    ensures Tokenize(prefix + "+" + suffix) == Tokenize(prefix)
  {
    PrefixSuffixOf(prefix, suffix);
  }

  /** "psk" followed by a number above 255 is an error once the prefix is valid. */
  lemma TokenizeRejectsLargePsk(prefix: string, n: nat)
    requires '+' !in prefix && LeadingRun(prefix) != [] && n > 255
    ensures Tokenize(prefix + "+psk" + Decimal(n)) == Err(InvalidPskNumber)
  {
    var suffix := "psk" + Decimal(n);
    ParseDecimalTooLarge(n, 255);
    assert PskTokens(suffix) == Err(InvalidPskNumber) by {
      assert StartsWith(suffix, "psk") && suffix[3..] == Decimal(n);
    }
    PskSuffixJoin(prefix, Decimal(n));
    PrefixSuffixOf(prefix, suffix);
  }

  /** Buffer and presence flag of the local key pair (`LocalKeys`). */
  datatype LocalKeys = LocalKeys(ls: seq<byte>, le: seq<byte>, hasLs: bool, hasLe: bool)

  /** Buffer and presence flag of the remote key pair (`RemoteKeys`). */
  datatype RemoteKeys = RemoteKeys(rs: seq<byte>, re: seq<byte>, hasRs: bool, hasRe: bool)

  /** The four key slots (`Keys`); setters replace one buffer or raise one flag. */
  class Keys {
    var localKeys: LocalKeys
    var remoteKeys: RemoteKeys

    /** `Keys::new` (`Default`): every buffer empty, every flag false. */
    constructor ()
      ensures localKeys == LocalKeys([], [], false, false)
      ensures remoteKeys == RemoteKeys([], [], false, false)
    {
      localKeys := LocalKeys([], [], false, false);
      remoteKeys := RemoteKeys([], [], false, false);
    }

    method SetLocalEphemeral(le: seq<byte>)
      modifies this
      ensures localKeys == old(localKeys).(le := le) && remoteKeys == old(remoteKeys)
    {
      localKeys := localKeys.(le := le);
    }

    method SetLocalStatic(ls: seq<byte>)
      modifies this
      ensures localKeys == old(localKeys).(ls := ls) && remoteKeys == old(remoteKeys)
    {
      localKeys := localKeys.(ls := ls);
    }

    method SetRemoteEphemeral(re: seq<byte>)
      modifies this
      ensures remoteKeys == old(remoteKeys).(re := re) && localKeys == old(localKeys)
    {
      remoteKeys := remoteKeys.(re := re);
    }

    method SetRemoteStatic(rs: seq<byte>)
      modifies this
      ensures remoteKeys == old(remoteKeys).(rs := rs) && localKeys == old(localKeys)
    {
      remoteKeys := remoteKeys.(rs := rs);
    }

    method SetHasLocalEphemeral()
      modifies this
      ensures localKeys == old(localKeys).(hasLe := true) && remoteKeys == old(remoteKeys)
    {
      localKeys := localKeys.(hasLe := true);
    }

    method SetHasLocalStatic()
      modifies this
      ensures localKeys == old(localKeys).(hasLs := true) && remoteKeys == old(remoteKeys)
    {
      localKeys := localKeys.(hasLs := true);
    }

    method SetHasRemoteEphemeral()
      modifies this
      ensures remoteKeys == old(remoteKeys).(hasRe := true) && localKeys == old(localKeys)
    {
      remoteKeys := remoteKeys.(hasRe := true);
    }

    method SetHasRemoteStatic()
      modifies this
      ensures remoteKeys == old(remoteKeys).(hasRs := true) && localKeys == old(localKeys)
    {
      remoteKeys := remoteKeys.(hasRs := true);
    }

    function HasLocalEphemeral(): bool
      reads this
    {
      localKeys.hasLe
    }

    function HasLocalStatic(): bool
      reads this
    {
      localKeys.hasLs
    }

    function HasRemoteEphemeral(): bool
      reads this
    {
      remoteKeys.hasRe
    }

    function HasRemoteStatic(): bool
      reads this
    {
      remoteKeys.hasRs
    }
  }

  /** A session: its token list, its role and its key slots. */
  class Session {
    const pattern: seq<Token>
    const role: HandshakeDerivation.Role
    const keys: Keys

    /** `Session::new`: fresh, empty key slots with every flag false. */
    constructor (pattern: seq<Token>, role: HandshakeDerivation.Role)
      ensures this.pattern == pattern && this.role == role && fresh(keys)
      ensures keys.localKeys == LocalKeys([], [], false, false)
      ensures keys.remoteKeys == RemoteKeys([], [], false, false)
    {
      this.pattern := pattern;
      this.role := role;
      keys := new Keys();
    }

    function HasLocalStatic(): bool
      reads keys
    {
      keys.HasLocalStatic()
    }

    function HasLocalEphemeral(): bool
      reads keys
    {
      keys.HasLocalEphemeral()
    }

    function HasRemoteStatic(): bool
      reads keys
    {
      keys.HasRemoteStatic()
    }

    function HasRemoteEphemeral(): bool
      reads keys
    {
      keys.HasRemoteEphemeral()
    }

    function GetLocalStatic(): seq<byte>
      reads keys
    {
      keys.localKeys.ls
    }

    function GetLocalEphemeral(): seq<byte>
      reads keys
    {
      keys.localKeys.le
    }

    function GetRemoteStatic(): seq<byte>
      reads keys
    {
      keys.remoteKeys.rs
    }

    function GetRemoteEphemeral(): seq<byte>
      reads keys
    {
      keys.remoteKeys.re
    }

    /** Setting a buffer makes its getter return it; the other buffers and every flag keep their values. */
    method SetLocalStatic(ls: seq<byte>)
      modifies keys
      ensures GetLocalStatic() == ls
      ensures keys.localKeys == old(keys.localKeys).(ls := ls) && keys.remoteKeys == old(keys.remoteKeys)
    {
      keys.localKeys := keys.localKeys.(ls := ls);
    }

    method SetLocalEphemeral(le: seq<byte>)
      modifies keys
      ensures GetLocalEphemeral() == le
      ensures keys.localKeys == old(keys.localKeys).(le := le) && keys.remoteKeys == old(keys.remoteKeys)
    {
      keys.localKeys := keys.localKeys.(le := le);
    }

    method SetRemoteStatic(rs: seq<byte>)
      modifies keys
      ensures GetRemoteStatic() == rs
      ensures keys.remoteKeys == old(keys.remoteKeys).(rs := rs) && keys.localKeys == old(keys.localKeys)
    {
      keys.remoteKeys := keys.remoteKeys.(rs := rs);
    }

    method SetRemoteEphemeral(re: seq<byte>)
      modifies keys
      ensures GetRemoteEphemeral() == re
      ensures keys.remoteKeys == old(keys.remoteKeys).(re := re) && keys.localKeys == old(keys.localKeys)
    {
      keys.remoteKeys := keys.remoteKeys.(re := re);
    }
  }
}
