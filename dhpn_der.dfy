/**
 * Pattern-name parsing and message-flow building (smog/src/dhpn_der.rs):
 * "XX+psk1"-style names are parsed into a handshake pattern and an optional
 * psk position, and a pattern's token table is turned into the ordered list
 * of messages, each with its sender and Diffie-Hellman tokens, with the psk
 * event inserted before the message it names.
 */
module PatternFlow {

  import opened Wrappers
  import opened Text

  datatype Role = Initiator | Responder

  /** `Role::as_str`. */
  function RoleName(r: Role): string {
    match r
    case Initiator => "initiator"
    case Responder => "responder"
  }

  datatype HandshakePattern =
    | N | K | X
    | NN | NK | NX | XN | XK | XX | KN | KK | KX | IN | IK | IX
    | XXfallback

  /** The name `from_str` accepts for each pattern. */
  function PatternName(p: HandshakePattern): string {
    match p
    case N => "N"
    case K => "K"
    case X => "X"
    case NN => "NN"
    case NK => "NK"
    case NX => "NX"
    case XN => "XN"
    case XK => "XK"
    case XX => "XX"
    case KN => "KN"
    case KK => "KK"
    case KX => "KX"
    case IN => "IN"
    case IK => "IK"
    case IX => "IX"
    case XXfallback => "XXfallback"
  }

  datatype ParseError = UnsupportedPattern | InvalidSyntax | InvalidPskSuffix | InvalidPskNumber

  /**
   * `HandshakePattern::from_str`: exactly the sixteen case-sensitive names
   * are accepted, each as its own pattern.
   */
  function PatternFromStr(s: string): (r: Result<HandshakePattern, ParseError>)
    ensures r.Ok? ==> PatternName(r.value) == s
    ensures r.Err? ==> r.error == UnsupportedPattern && forall p: HandshakePattern :: PatternName(p) != s
  {
    if s == "N" then Ok(N)
    else if s == "K" then Ok(K)
    else if s == "X" then Ok(X)
    else if s == "NN" then Ok(NN)
    else if s == "NK" then Ok(NK)
    else if s == "NX" then Ok(NX)
    else if s == "XN" then Ok(XN)
    else if s == "XK" then Ok(XK)
    else if s == "XX" then Ok(XX)
    else if s == "KN" then Ok(KN)
    else if s == "KK" then Ok(KK)
    else if s == "KX" then Ok(KX)
    else if s == "IN" then Ok(IN)
    else if s == "IK" then Ok(IK)
    else if s == "IX" then Ok(IX)
    else if s == "XXfallback" then Ok(XXfallback)
    else Err(UnsupportedPattern)
  }

  /** Every pattern's name parses back to that pattern. */
  lemma PatternNameRoundTrip(p: HandshakePattern)
    ensures PatternFromStr(PatternName(p)) == Ok(p)
  {
    var r := PatternFromStr(PatternName(p));
    assert r.Ok?;
    PatternNameInjective(r.value, p);
  }

  lemma PatternNameInjective(p: HandshakePattern, q: HandshakePattern)
    requires PatternName(p) == PatternName(q)
    ensures p == q
  {
    var s := PatternName(p);
    if |s| == 1 {
      assert s[0] == PatternName(q)[0];
    } else if |s| == 2 {
      assert s[0] == PatternName(q)[0] && s[1] == PatternName(q)[1];
    }
  }

  /** `usize::MAX` on a 64-bit target; a parsed psk equal to it reads as "no psk". */
  const USIZE_MAX: nat := 0xFFFF_FFFF_FFFF_FFFF

  /** `parse_full`: a pattern name, then optionally '+' and "psk<n>". */
  function ParseFull(s: string): (r: Result<(HandshakePattern, Option<nat>), ParseError>)
    ensures multiset(s)['+'] >= 2 ==> r == Err(InvalidSyntax)
    ensures '+' !in s ==>
      match PatternFromStr(s)
      case Ok(p) => r == Ok((p, None))
      case Err(e) => r == Err(e)
    ensures r.Ok? ==> PatternName(r.value.0) == Split(s, '+')[0]
    ensures r.Ok? && r.value.1.Some? ==> r.value.1.value < USIZE_MAX
  {
    var parts := Split(s, '+');
    if |parts| == 1 then
      assert parts == [s];
      ParseParts(parts)
    else ParseParts(parts)
  }

  /** The pieces of `parse_full` after splitting on '+': a name and an optional psk suffix. */
  function ParseParts(parts: seq<string>): (r: Result<(HandshakePattern, Option<nat>), ParseError>)
    requires |parts| >= 1
    ensures |parts| > 2 ==> r == Err(InvalidSyntax)
    ensures r.Ok? ==> PatternName(r.value.0) == parts[0]
    ensures r.Ok? && r.value.1.Some? ==> r.value.1.value < USIZE_MAX
    ensures |parts| == 2 && PatternFromStr(parts[0]).Ok? ==>
      (r == Err(InvalidPskSuffix) <==> !StartsWith(parts[1], "psk"))
    ensures |parts| == 2 && PatternFromStr(parts[0]).Ok? && StartsWith(parts[1], "psk") ==>
      (r == Err(InvalidPskNumber) <==> ParseUnsigned(parts[1][3..], USIZE_MAX).None?)
    ensures r.Ok? && |parts| == 2 ==>
      StartsWith(parts[1], "psk") && ParseUnsigned(parts[1][3..], USIZE_MAX).Some?
      && var n := ParseUnsigned(parts[1][3..], USIZE_MAX).value;
         r.value.1 == if n == USIZE_MAX then None else Some(n)
  {
    if |parts| > 2 then Err(InvalidSyntax)
    else
      match PatternFromStr(parts[0])
      case Err(e) => Err(e)
      case Ok(pat) =>
        if |parts| == 2 then
          var suffix := parts[1];
          if !StartsWith(suffix, "psk") then Err(InvalidPskSuffix)
          else
            match ParseUnsigned(suffix[3..], USIZE_MAX)
            case None => Err(InvalidPskNumber)
            case Some(n) => Ok((pat, if n == USIZE_MAX then None else Some(n)))
        else
          Ok((pat, None))
  }

  /** A name without '+' parses as that pattern name alone, with no psk. */
  lemma ParsePlain(name: string)
    requires '+' !in name
    ensures ParseFull(name) == if PatternFromStr(name).Ok? then Ok((PatternFromStr(name).value, None)) else Err(UnsupportedPattern)
  {
    assert Split(name, '+') == [name];
  }

  /**
   * "<name>+psk<n>" parses to the name's pattern and `Some(n)` for every n
   * below `usize::MAX`; n equal to `usize::MAX` is read as no psk at all.
   */
  lemma {:induction false} ParseWithPsk(name: string, n: nat)
    requires '+' !in name && n <= USIZE_MAX
    ensures ParseFull(name + "+psk" + Decimal(n))
         == if PatternFromStr(name).Err? then Err(UnsupportedPattern)
            else Ok((PatternFromStr(name).value, if n < USIZE_MAX then Some(n) else None))
  {
    var suffix := "psk" + Decimal(n);
    PskSuffixParses(n, USIZE_MAX);
    PskSuffixJoin(name, Decimal(n));
    ParseTwoParts(name, suffix);
    ParsePskParts(name, suffix, n);
  }

  /**
   * Once the name is known, "<name>+psk<rest>" is rejected as an invalid psk
   * number exactly when `rest` does not parse as a usize.
   */
  lemma {:induction false} ParseRejectsBadPskNumber(name: string, rest: string)
    requires '+' !in name && '+' !in rest && PatternFromStr(name).Ok?
    requires ParseUnsigned(rest, USIZE_MAX).None?
    ensures ParseFull(name + "+psk" + rest) == Err(InvalidPskNumber)
  {
    var suffix := "psk" + rest;
    PskPrefixed(rest);
    ParseBadNumberParts(name, suffix);
    PskSuffixJoin(name, rest);
  }

  lemma PskPrefixed(rest: string)
    ensures StartsWith("psk" + rest, "psk") && ("psk" + rest)[3..] == rest
    ensures '+' !in rest ==> '+' !in "psk" + rest
  {
    assert forall i :: 3 <= i < |rest| + 3 ==> ("psk" + rest)[i] == rest[i - 3];
  }

  lemma ParseBadNumberParts(name: string, suffix: string)
    requires '+' !in name && '+' !in suffix
    requires PatternFromStr(name).Ok? && StartsWith(suffix, "psk")
    requires ParseUnsigned(suffix[3..], USIZE_MAX).None?
    ensures ParseFull(name + "+" + suffix) == Err(InvalidPskNumber)
  {
    ParseTwoParts(name, suffix);
  }

  lemma ParseTwoParts(name: string, suffix: string)
    requires '+' !in name && '+' !in suffix
    ensures ParseFull(name + "+" + suffix) == ParseParts([name, suffix])
  {
    SplitOnPlus(name, suffix);
  }

  lemma ParsePskParts(name: string, suffix: string, n: nat)
    requires StartsWith(suffix, "psk") && ParseUnsigned(suffix[3..], USIZE_MAX) == Some(n)
    ensures ParseParts([name, suffix])
         == if PatternFromStr(name).Err? then Err(UnsupportedPattern)
            else Ok((PatternFromStr(name).value, if n < USIZE_MAX then Some(n) else None))
  {
  }

  /** A suffix that does not start with "psk" is rejected once the name is known. */
  lemma {:induction false} ParseBadSuffix(name: string, suffix: string)
    requires '+' !in name && '+' !in suffix && !StartsWith(suffix, "psk")
    ensures ParseFull(name + "+" + suffix) == if PatternFromStr(name).Ok? then Err(InvalidPskSuffix) else Err(UnsupportedPattern)
  {
    SplitOnPlus(name, suffix);
  }

  /** Each pattern's name, alone or with "+psk<n>", parses back to the pattern. */
  lemma {:induction false} ParsePatternNames(p: HandshakePattern, n: nat)
    requires n < USIZE_MAX
    ensures ParseFull(PatternName(p)) == Ok((p, None))
    ensures ParseFull(PatternName(p) + "+psk" + Decimal(n)) == Ok((p, Some(n)))
  {
    PatternNameRoundTrip(p);
    NoPlusInName(p);
    ParsePlain(PatternName(p));
    ParseWithPsk(PatternName(p), n);
  }

  lemma NoPlusInName(p: HandshakePattern)
    ensures '+' !in PatternName(p)
  {
  }

  lemma PskSuffixParses(n: nat, max: nat)
    requires n <= max
    ensures StartsWith("psk" + Decimal(n), "psk")
    ensures ("psk" + Decimal(n))[3..] == Decimal(n)
    ensures ParseUnsigned(Decimal(n), max) == Some(n)
    ensures '+' !in "psk" + Decimal(n)
  {
    ParseDecimal(n, max);
    var d := Decimal(n);
    assert ("psk" + d)[3..] == d;
    assert IsDigit(d[0]);
  }

  lemma SplitOnPlus(name: string, suffix: string)
    requires '+' !in name && '+' !in suffix
    ensures Split(name + "+" + suffix, '+') == [name, suffix]
  {
    SplitJoin([name, suffix], '+');
    assert Join([name, suffix], '+') == name + "+" + suffix;
  }

  /**
   * `base_order`: the sender of each base message; the initiator sends first
   * and the roles alternate. One-way patterns have one message, NN/NK/NX/XN/KN/IN
   * three and the rest four.
   */
  function BaseOrder(p: HandshakePattern): (r: seq<Role>)
    ensures |r| == 1 <==> p.N? || p.K? || p.X?
    ensures |r| == 3 <==> p.NN? || p.NK? || p.NX? || p.XN? || p.KN? || p.IN?
    ensures |r| == 1 || |r| == 3 || |r| == 4
    ensures forall i :: 0 <= i < |r| ==> r[i] == (if i % 2 == 0 then Initiator else Responder)
  {
    match p
    case N | K | X => [Initiator]
    case NN | NK | NX | XN | KN | IN => [Initiator, Responder, Initiator]
    case XK | XX | XXfallback | KK | KX | IK | IX => [Initiator, Responder, Initiator, Responder]
  }

  /** The token table of `build_flow`: one entry per message, its index and its tokens. */
  function MessageTable(p: HandshakePattern): (t: seq<(nat, seq<string>)>)
    ensures 1 <= |t| <= |BaseOrder(p)|
    ensures forall i :: 0 <= i < |t| ==> t[i].0 == i
  {
    match p
    case N => [(0, ["e", "es"])]
    case K => [(0, ["e", "es", "ss"])]
    case X => [(0, ["e", "es", "s", "ss"])]
    case NN => [(0, ["e"]), (1, ["e", "ee"])]
    case NK => [(0, ["e", "es"]), (1, ["e", "ee"])]
    case NX => [(0, ["e"]), (1, ["e", "ee", "s", "es"])]
    case XN => [(0, ["e"]), (1, ["e", "ee"]), (2, ["s", "se"])]
    case XK => [(0, ["e", "es"]), (1, ["e", "ee"]), (2, ["s", "se"])]
    case XX => [(0, ["e"]), (1, ["e", "ee", "s", "es"]), (2, ["s", "se"])]
    case XXfallback => [(0, ["e", "ee", "s", "es", "fallback"]), (1, ["e", "ee", "s", "se"]), (2, ["s", "se"])]
    case KN => [(0, ["e", "ss"]), (1, ["e", "ee", "se"])]
    case KK => [(0, ["e", "es", "ss"]), (1, ["e", "ee", "se"])]
    case KX => [(0, ["e", "ss"]), (1, ["e", "ee", "se", "s", "es"])]
    case IN => [(0, ["e", "s"]), (1, ["e", "ee", "se"])]
    case IK => [(0, ["e", "es", "s", "ss"]), (1, ["e", "ee", "se"])]
    case IX => [(0, ["e", "s"]), (1, ["e", "ee", "se", "s", "es"])]
  }

  predicate IsDh(t: string) {
    t == "ee" || t == "es" || t == "se" || t == "ss"
  }

  /** The Diffie-Hellman tokens of a message, in their order. */
  function DhsOf(tokens: seq<string>): (r: seq<string>)
    ensures |r| <= |tokens|
    ensures forall t :: t in r <==> t in tokens && IsDh(t)
  {
    if tokens == [] then []
    else (if IsDh(tokens[0]) then [tokens[0]] else []) + DhsOf(tokens[1..])
  }

  /** A single token is kept exactly when it is a DH token. */
  lemma DhsOfSingle(t: string)
    ensures DhsOf([t]) == if IsDh(t) then [t] else []
  {
    assert [t][1..] == [];
  }

  /** Filtering keeps order and multiplicity: it distributes over concatenation. */
  lemma {:induction false} DhsOfAppend(a: seq<string>, b: seq<string>)
    ensures DhsOf(a + b) == DhsOf(a) + DhsOf(b)
  {
    if a != [] {
      assert (a + b)[1..] == a[1..] + b;
      DhsOfAppend(a[1..], b);
    } else {
      assert a + b == b;
    }
  }

  /** An entry of the flow (`Step`): its sender, its psk position if it is a psk event, its DH tokens. */
  datatype Step = Step(from: string, psk: Option<nat>, dhs: seq<string>)

  /** A pattern's token table together with its base order. */
  datatype Plan = Plan(table: seq<(nat, seq<string>)>, base: seq<Role>) {
    /** Every entry's index is its position, and there are no more entries than base messages. */
    predicate Valid() {
      1 <= |table| <= |base| && forall i :: 0 <= i < |table| ==> table[i].0 == i
    }
  }

  function PlanOf(p: HandshakePattern): (pl: Plan)
    ensures pl.Valid() && pl.table == MessageTable(p) && pl.base == BaseOrder(p)
  {
    Plan(MessageTable(p), BaseOrder(p))
  }

  /** The step for message `i` itself: its sender and its DH tokens. */
  function MessageStep(pl: Plan, i: nat): Step
    requires pl.Valid() && i < |pl.table|
  {
    var entry := pl.table[i];
    Step(RoleName(pl.base[entry.0]), None, DhsOf(entry.1))
  }

  /** The flow's messages without any psk event, one per table entry. */
  function Messages(pl: Plan): (r: seq<Step>)
    requires pl.Valid()
    ensures |r| == |pl.table|
    ensures forall i :: 0 <= i < |r| ==> r[i] == MessageStep(pl, i) && r[i].psk.None?
  {
    seq(|pl.table|, i requires 0 <= i < |pl.table| => MessageStep(pl, i))
  }

  /** The psk event placed before base message `n`, sent by that message's sender. */
  function PskStep(pl: Plan, n: nat): Step
    requires n < |pl.base|
  {
    Step(RoleName(pl.base[n]), Some(n), [])
  }

  /** The psk event for every base position. */
  function PskSteps(pl: Plan): (r: seq<Step>)
    ensures |r| == |pl.base|
    ensures forall n :: 0 <= n < |r| ==> r[n] == PskStep(pl, n) && r[n].psk == Some(n)
  {
    seq(|pl.base|, n requires 0 <= n < |pl.base| => PskStep(pl, n))
  }

  /**
   * The flow after the loop has visited the first `i` entries: for each
   * message, the psk event first if `psk` names it, then the message.
   */
  function Weave(msgs: seq<Step>, events: seq<Step>, psk: Option<nat>, i: nat): seq<Step>
    requires i <= |msgs| <= |events|
  {
    if i == 0 then []
    else
      Weave(msgs, events, psk, i - 1)
        + (if psk == Some(i - 1) then [events[i - 1]] else [])
        + [msgs[i - 1]]
  }

  /** What `build_flow` returns: the loop's steps, then the trailing psk event when n equals the base length. */
  function FlowOf(pl: Plan, psk: Option<nat>): seq<Step>
    requires pl.Valid()
  {
    var base := pl.base;
    Weave(Messages(pl), PskSteps(pl), psk, |pl.table|)
      + (if psk == Some(|base|) then [Step(RoleName(base[|base| - 1]), psk, [])] else [])
  }

  function Flow(p: HandshakePattern, psk: Option<nat>): seq<Step> {
    FlowOf(PlanOf(p), psk)
  }

  /** `build_flow`. */
  method BuildFlow(p: HandshakePattern, psk: Option<nat>) returns (flow: seq<Step>)
    ensures flow == Flow(p, psk)
  {
    flow := WeavePlan(PlanOf(p), psk);
  }

  /** The loop of `build_flow` over a pattern's token table and base order. */
  method WeavePlan(pl: Plan, psk: Option<nat>) returns (flow: seq<Step>)
    requires pl.Valid()
    ensures flow == FlowOf(pl, psk)
  {
    flow := [];
    for j := 0 to |pl.table|
      invariant flow == Weave(Messages(pl), PskSteps(pl), psk, j)
    {
      flow := AppendMessage(pl, psk, j, flow);
    }
    if psk == Some(|pl.base|) {
      flow := flow + [Step(RoleName(pl.base[|pl.base| - 1]), psk, [])];
    } else {
      assert flow + [] == flow;
    }
  }

  /** One iteration of `build_flow`'s loop: the psk event if it names this message, then the message. */
  method AppendMessage(pl: Plan, psk: Option<nat>, j: nat, flow: seq<Step>) returns (next: seq<Step>)
    requires pl.Valid() && j < |pl.table|
    requires flow == Weave(Messages(pl), PskSteps(pl), psk, j)
    ensures next == Weave(Messages(pl), PskSteps(pl), psk, j + 1)
  {
    var msgIdx := pl.table[j].0;
    var sender := pl.base[msgIdx];
    next := flow;
    if psk.Some? && psk.value == msgIdx {
      next := next + [Step(RoleName(sender), psk, [])];
    }
    next := next + [Step(RoleName(sender), None, DhsOf(pl.table[j].1))];
    WeaveNext(pl, psk, j, flow, next);
  }

  /** One loop iteration appends exactly the psk event it names and its message. */
  lemma WeaveNext(pl: Plan, psk: Option<nat>, j: nat, before: seq<Step>, after: seq<Step>)
    requires pl.Valid() && j < |pl.table|
    requires before == Weave(Messages(pl), PskSteps(pl), psk, j)
    requires var sender := RoleName(pl.base[pl.table[j].0]);
      after == before + (if psk.Some? && psk.value == pl.table[j].0 then [Step(sender, psk, [])] else [])
        + [Step(sender, None, DhsOf(pl.table[j].1))]
    ensures after == Weave(Messages(pl), PskSteps(pl), psk, j + 1)
  {
  }

  lemma {:induction false} WeaveShape(msgs: seq<Step>, events: seq<Step>, psk: Option<nat>, i: nat)
    requires i <= |msgs| <= |events|
    ensures psk.Some? && psk.value < i ==>
      Weave(msgs, events, psk, i) == msgs[..psk.value] + [events[psk.value]] + msgs[psk.value..i]
    ensures !(psk.Some? && psk.value < i) ==> Weave(msgs, events, psk, i) == msgs[..i]
  {
    if i > 0 {
      WeaveShape(msgs, events, psk, i - 1);
      if psk.Some? && psk.value < i - 1 {
        var n := psk.value;
        assert msgs[n..i] == msgs[n..i - 1] + [msgs[i - 1]];
      } else if psk == Some(i - 1) {
        assert msgs[i - 1..i] == [msgs[i - 1]];
      } else {
        assert msgs[..i] == msgs[..i - 1] + [msgs[i - 1]];
      }
    }
  }

  /**
   * The shape of `build_flow`'s result: the messages in table order, with the
   * psk event for message n inserted just before it, or appended after the
   * last message when n equals the base length, or left out otherwise.
   */
  lemma {:induction false} FlowShape(pl: Plan, psk: Option<nat>)
    requires pl.Valid()
    ensures psk.None? ==> FlowOf(pl, psk) == Messages(pl)
    ensures psk.Some? && psk.value < |pl.table| ==>
      FlowOf(pl, psk) == Messages(pl)[..psk.value] + [PskStep(pl, psk.value)] + Messages(pl)[psk.value..]
    ensures psk.Some? && psk.value == |pl.base| ==>
      FlowOf(pl, psk) == Messages(pl) + [PskStep(pl, psk.value - 1).(psk := psk)]
    ensures psk.Some? && |pl.table| <= psk.value != |pl.base| ==> FlowOf(pl, psk) == Messages(pl)
  {
    var m := Messages(pl);
    WeaveShape(m, PskSteps(pl), psk, |m|);
    assert m[..|m|] == m;
  }

  /** The psk positions the flow's psk events carry, in order. */
  function PskEvents(flow: seq<Step>): (r: seq<nat>)
    ensures |r| <= |flow|
  {
    if flow == [] then []
    else (if flow[0].psk.Some? then [flow[0].psk.value] else []) + PskEvents(flow[1..])
  }

  lemma {:induction false} PskEventsAppend(a: seq<Step>, b: seq<Step>)
    ensures PskEvents(a + b) == PskEvents(a) + PskEvents(b)
    decreases |a|
  {
    if a != [] {
      assert (a + b)[0] == a[0];
      assert (a + b)[1..] == a[1..] + b;
      PskEventsAppend(a[1..], b);
    } else {
      assert a + b == b;
    }
  }

  lemma {:induction false} NoPskEvents(s: seq<Step>)
    requires forall k :: 0 <= k < |s| ==> s[k].psk.None?
    ensures PskEvents(s) == []
  {
    if s != [] {
      assert forall k :: 0 <= k < |s| - 1 ==> s[1..][k] == s[k + 1];
      NoPskEvents(s[1..]);
    }
  }

  /** One psk event between two stretches of plain messages is the only one. */
  lemma PskEventsAround(before: seq<Step>, e: Step, after: seq<Step>)
    requires forall k :: 0 <= k < |before| ==> before[k].psk.None?
    requires forall k :: 0 <= k < |after| ==> after[k].psk.None?
    requires e.psk.Some?
    ensures PskEvents(before + [e] + after) == [e.psk.value]
  {
    NoPskEvents(before);
    NoPskEvents(after);
    PskEventsAppend(before + [e], after);
    PskEventsAppend(before, [e]);
  }

  /**
   * The flow carries the psk event exactly when the position is before one of
   * the table's messages or equals the base length, and then it carries it once.
   */
  lemma {:induction false} FlowPskEvents(pl: Plan, psk: Option<nat>)
    requires pl.Valid()
    ensures PskEvents(FlowOf(pl, psk)) ==
      if psk.Some? && (psk.value < |pl.table| || psk.value == |pl.base|) then [psk.value] else []
  {
    var m := Messages(pl);
    FlowShape(pl, psk);
    if psk.Some? && psk.value < |m| {
      var n := psk.value;
      PskEventsAround(m[..n], PskStep(pl, n), m[n..]);
    } else if psk.Some? && psk.value == |pl.base| {
      PskEventsAround(m, PskStep(pl, psk.value - 1).(psk := psk), []);
      assert m + [PskStep(pl, psk.value - 1).(psk := psk)] + [] == m + [PskStep(pl, psk.value - 1).(psk := psk)];
    } else {
      NoPskEvents(m);
    }
  }

  /**
   * As written, the trailing psk event is keyed to the base length, which is
   * larger than the message count for IK (4 against 2): "IK+psk2", the
   * zero round-trip pipe's IKpsk2, yields a flow with no psk event.
   */
  lemma IkPsk2LosesPsk()
    ensures PskEvents(Flow(IK, Some(2))) == []
  {
    var pl := PlanOf(IK);
    assert |pl.table| == 2 && |pl.base| == 4;
    FlowPskEvents(pl, Some(2));
  }

  /**
   * `build_flow` as evidently intended: a psk position equal to the number of
   * messages puts the psk event after the last message, sent by that message's sender.
   */
  function FlowIntendedOf(pl: Plan, psk: Option<nat>): seq<Step>
    requires pl.Valid()
  {
    var count := |pl.table|;
    Weave(Messages(pl), PskSteps(pl), psk, count)
      + (if psk == Some(count) then [PskStep(pl, count - 1).(psk := psk)] else [])
  }

  function FlowIntended(p: HandshakePattern, psk: Option<nat>): seq<Step> {
    FlowIntendedOf(PlanOf(p), psk)
  }

  /** In the intended flow every psk position from 0 to the message count yields exactly one psk event. */
  lemma {:induction false} FlowIntendedHasPskEvent(pl: Plan, n: nat)
    requires pl.Valid() && n <= |pl.table|
    ensures PskEvents(FlowIntendedOf(pl, Some(n))) == [n]
  {
    if n < |pl.table| {
      IntendedPskBefore(pl, n);
    } else {
      IntendedPskAfter(pl, n);
    }
  }

  lemma {:induction false} IntendedPskBefore(pl: Plan, n: nat)
    requires pl.Valid() && n < |pl.table|
    ensures PskEvents(FlowIntendedOf(pl, Some(n))) == [n]
  {
    var m := Messages(pl);
    WeaveShape(m, PskSteps(pl), Some(n), |m|);
    assert PskSteps(pl)[n] == PskStep(pl, n);
    assert FlowIntendedOf(pl, Some(n)) == m[..n] + [PskStep(pl, n)] + m[n..|m|];
    PskEventsAround(m[..n], PskStep(pl, n), m[n..|m|]);
  }

  lemma {:induction false} IntendedPskAfter(pl: Plan, n: nat)
    requires pl.Valid() && n == |pl.table|
    ensures PskEvents(FlowIntendedOf(pl, Some(n))) == [n]
  {
    var m := Messages(pl);
    WeaveShape(m, PskSteps(pl), Some(n), |m|);
    var tail := PskStep(pl, n - 1).(psk := Some(n));
    assert m[..|m|] == m;
    assert FlowIntendedOf(pl, Some(n)) == m + [tail];
    PskEventsAround(m, tail, []);
    assert m + [tail] + [] == m + [tail];
  }

  /** With the correction, "IK+psk2" carries its psk event after the second message. */
  lemma IkPsk2KeepsPskWhenCorrected()
    ensures PskEvents(FlowIntended(IK, Some(2))) == [2]
  {
    FlowIntendedHasPskEvent(PlanOf(IK), 2);
  }
}
