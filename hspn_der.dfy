/**
 * Handshake step derivation (smog/src/hspn_der.rs): the ordered list of
 * abstract steps each role runs for a two-letter Noise pattern with or
 * without the psk modifier, and the turn-based session driver that walks
 * that list with a cursor.
 */
module HandshakeDerivation {

  import opened Wrappers

  datatype HandshakeStep =
    | SendEphemeral
    | SendStatic
    | SendPskTag
    | RecvEphemeral
    | RecvStatic
    | RecvPskTag
    | Done

  datatype Role = Initiator | Responder

  /** A two-letter pattern name such as "IK" (`[char; 2]`). */
  type Pattern = s: seq<char> | |s| == 2 witness "NN"

  datatype ModeDescriptor = ModeDescriptor(pattern: Pattern, psk: bool)

  /** `Vec::insert(i, x)`; callers guarantee `i <= |s|`, past which the Vec panics. */
  function Insert<T>(s: seq<T>, i: nat, x: T): (r: seq<T>)
    requires i <= |s|
    ensures |r| == |s| + 1 && r[i] == x && r[..i] == s[..i] && r[i + 1..] == s[i..]
  {
    s[..i] + [x] + s[i..]
  }

  /** The initiator's steps before psk insertion and the final Done (hspn_der.rs:36-67). */
  function InitiatorBase(pattern: Pattern): (r: seq<HandshakeStep>)
    ensures |r| >= 2 && r[0] == (if pattern[0] == 'I' then SendStatic else SendEphemeral)
    ensures Done !in r && SendPskTag !in r && RecvPskTag !in r && RecvStatic !in r && RecvEphemeral in r
  {
    var a, b := pattern[0], pattern[1];
    var out := if a == 'I' then [SendStatic] else [];
    var out := out + [SendEphemeral];
    var out := if a == 'N' || a == 'X' then out + [SendStatic] else out;
    var out := out + [RecvEphemeral];
    if a != 'X' && a != 'I' && (b == 'K' || b == 'X') then out + [SendStatic] else out
  }

  /** Steps 6 and 7 of both derivations: the optional psk insertion at `at`, then Done. */
  function Finish(base: seq<HandshakeStep>, psk: bool, at: nat): (r: seq<HandshakeStep>)
    requires psk ==> at <= |base|
    requires Done !in base && SendPskTag !in base && RecvPskTag !in base
    ensures |r| == |base| + (if psk then 2 else 1) && r[|r| - 1] == Done && multiset(r)[Done] == 1
    ensures RecvPskTag !in r && (SendPskTag in r <==> psk)
    ensures psk ==> r == base[..at] + [SendPskTag] + base[at..] + [Done]
    ensures !psk ==> r == base + [Done]
    ensures forall x :: x in base ==> x in r
    ensures forall x :: x in r ==> x in base || x == SendPskTag || x == Done
  {
    var out := if psk then Insert(base, at, SendPskTag) else base;
    assert psk ==> base == base[..at] + base[at..] && out == base[..at] + [SendPskTag] + base[at..];
    assert multiset(out)[Done] == 0;
    out + [Done]
  }

  /** `ModeDescriptor::initiator_steps`. */
  function InitiatorSteps(m: ModeDescriptor): (r: seq<HandshakeStep>)
    ensures |r| >= 3 && r[|r| - 1] == Done && multiset(r)[Done] == 1
    ensures r[0] == (if m.pattern[0] == 'I' then SendStatic else SendEphemeral)
    ensures RecvStatic !in r && RecvPskTag !in r
    ensures SendPskTag in r <==> m.psk
  {
    var base := InitiatorBase(m.pattern);
    var r := Finish(base, m.psk, 2);
    assert r[0] == base[0];
    r
  }

  /** The responder's steps before psk insertion and the final Done (hspn_der.rs:83-99). */
  function ResponderBase(pattern: Pattern): (r: seq<HandshakeStep>)
    ensures 2 <= |r| <= 4 && r[0] == RecvEphemeral
    ensures |r| < 3 <==> pattern[0] != 'I' && pattern[1] == 'K'
    ensures Done !in r && SendPskTag !in r && RecvPskTag !in r && SendEphemeral in r
  {
    var a, b := pattern[0], pattern[1];
    var out := [RecvEphemeral];
    var out := if a == 'I' then out + [RecvStatic] else out;
    var out := out + [SendEphemeral];
    if b == 'K' then out else out + [SendStatic]
  }

  /**
   * `ModeDescriptor::responder_steps`. With psk the source inserts at index 3,
   * which panics when fewer than three steps precede it (NK, KK, XK, ...):
   * that outcome is `None` here.
   */
  function ResponderSteps(m: ModeDescriptor): (r: Option<seq<HandshakeStep>>)
    ensures r.None? <==> m.psk && m.pattern[0] != 'I' && m.pattern[1] == 'K'
    ensures r.Some? ==> |r.value| >= 3 && r.value[0] == RecvEphemeral
    ensures r.Some? ==> r.value[|r.value| - 1] == Done && multiset(r.value)[Done] == 1
    ensures r.Some? ==> RecvPskTag !in r.value && (SendPskTag in r.value <==> m.psk)
    ensures r.Some? && m.psk ==> |r.value| >= 5 && r.value[3] == SendPskTag
  {
    var base := ResponderBase(m.pattern);
    if m.psk && |base| < 3 then None else Some(Finish(base, m.psk, 3))
  }

  /** Without psk, the initiator's list is exactly the five optional/fixed pieces the source pushes. */
  lemma InitiatorStepsWithoutPsk(m: ModeDescriptor)
    requires !m.psk
    ensures var a, b := m.pattern[0], m.pattern[1];
      InitiatorSteps(m) ==
        (if a == 'I' then [SendStatic] else [])
        + [SendEphemeral]
        + (if a == 'N' || a == 'X' then [SendStatic] else [])
        + [RecvEphemeral]
        + (if a !in {'X', 'I'} && b in {'K', 'X'} then [SendStatic] else [])
        + [Done]
  {
    var a, b := m.pattern[0], m.pattern[1];
    assert InitiatorBase(m.pattern) ==
      (if a == 'I' then [SendStatic] else [])
        + [SendEphemeral]
        + (if a == 'N' || a == 'X' then [SendStatic] else [])
        + [RecvEphemeral]
        + (if a != 'X' && a != 'I' && (b == 'K' || b == 'X') then [SendStatic] else []);
  }

  /** The psk variant is the plain list with SendPskTag inserted at index 2. */
  lemma {:induction false} InitiatorPskInsertsAtTwo(pattern: Pattern)
    ensures InitiatorSteps(ModeDescriptor(pattern, true))
         == Insert(InitiatorSteps(ModeDescriptor(pattern, false)), 2, SendPskTag)
  {
    var base := InitiatorBase(pattern);
    assert |base| >= 2;
    assert Insert(base, 2, SendPskTag) + [Done] == Insert(base + [Done], 2, SendPskTag);
  }

  /** The responder's list: RecvEphemeral, RecvStatic iff a == 'I', SendEphemeral, SendStatic iff b != 'K', Done. */
  lemma ResponderStepsWithoutPsk(m: ModeDescriptor)
    requires !m.psk
    ensures var a, b := m.pattern[0], m.pattern[1];
      ResponderSteps(m) == Some(
        [RecvEphemeral]
        + (if a == 'I' then [RecvStatic] else [])
        + [SendEphemeral]
        + (if b != 'K' then [SendStatic] else [])
        + [Done])
  {
    var a, b := m.pattern[0], m.pattern[1];
    assert ResponderBase(m.pattern) == [RecvEphemeral] + (if a == 'I' then [RecvStatic] else [])
      + [SendEphemeral] + (if b != 'K' then [SendStatic] else []);
  }

  /** The IK/psk initiator list of the mock session log (smog/examples/mock_session.rs). */
  lemma IkPskInitiatorSteps()
    ensures InitiatorSteps(ModeDescriptor("IK", true))
         == [SendStatic, SendEphemeral, SendPskTag, RecvEphemeral, Done]
  {
    var base := InitiatorBase("IK");
    assert base == [SendStatic, SendEphemeral, RecvEphemeral];
    assert base[..2] + [SendPskTag] + base[2..] + [Done]
        == [SendStatic, SendEphemeral, SendPskTag, RecvEphemeral, Done];
  }

  /** The IK/psk responder list of the mock session log (smog/examples/mock_session.rs). */
  lemma IkPskResponderSteps()
    ensures ResponderSteps(ModeDescriptor("IK", true))
         == Some([RecvEphemeral, RecvStatic, SendEphemeral, SendPskTag, Done])
  {
    var base := ResponderBase("IK");
    assert base == [RecvEphemeral, RecvStatic, SendEphemeral];
    assert base[..3] + [SendPskTag] + base[3..] + [Done]
        == [RecvEphemeral, RecvStatic, SendEphemeral, SendPskTag, Done];
  }

  /** The list a role runs; `None` when deriving it panics. */
  function DerivedSteps(role: Role, m: ModeDescriptor): Option<seq<HandshakeStep>> {
    match role
    case Initiator => Some(InitiatorSteps(m))
    case Responder => ResponderSteps(m)
  }

  datatype TickOutcome = TickOk | TickErr | TickPanic

  /**
   * One `tick`: past the end it returns Ok and leaves the cursor alone;
   * otherwise it runs the step under the cursor and advances the cursor by
   * one exactly when `execute` succeeds.
   */
  function TickSpec(steps: Option<seq<HandshakeStep>>, cursor: nat, execute: HandshakeStep -> bool)
    : (r: (TickOutcome, nat))
    ensures r.0 == TickPanic <==> steps.None?
    ensures r.1 == cursor || (r.0 == TickOk && r.1 == cursor + 1)
    ensures r.1 == cursor + 1 <==> steps.Some? && cursor < |steps.value| && execute(steps.value[cursor])
    ensures r.0 == TickErr <==> steps.Some? && cursor < |steps.value| && !execute(steps.value[cursor])
    ensures steps.Some? ==> r.1 <= cursor || r.1 <= |steps.value|
  {
    match steps
    case None => (TickPanic, cursor)
    case Some(s) =>
      if cursor >= |s| then (TickOk, cursor)
      else if execute(s[cursor]) then (TickOk, cursor + 1)
      else (TickErr, cursor)
  }

  /** An `execute` hook whose every network action succeeds (the mock sessions' hook). */
  function AlwaysOk(step: HandshakeStep): bool {
    true
  }

  /** The steps `k` ticks run from `cursor`, with an `execute` that always succeeds. */
  function Drive(steps: seq<HandshakeStep>, cursor: nat, k: nat): (seq<HandshakeStep>, nat)
    decreases k
  {
    if k == 0 || cursor >= |steps| then ([], cursor)
    else
      var rest := Drive(steps, TickSpec(Some(steps), cursor, AlwaysOk).1, k - 1);
      ([steps[cursor]] + rest.0, rest.1)
  }

  function Min(x: nat, y: nat): nat {
    if x <= y then x else y
  }

  /**
   * Driving a session: `k` succeeding ticks from `cursor` execute exactly the
   * steps cursor .. cursor+k in order (fewer once the list is exhausted) and
   * leave the cursor just past them; further ticks do nothing.
   */
  lemma {:induction false} DriveRunsStepsInOrder(steps: seq<HandshakeStep>, cursor: nat, k: nat)
    requires cursor <= |steps|
    ensures Drive(steps, cursor, k) == (steps[cursor..Min(cursor + k, |steps|)], Min(cursor + k, |steps|))
    decreases k
  {
    var end := Min(cursor + k, |steps|);
    if k > 0 && cursor < |steps| {
      assert TickSpec(Some(steps), cursor, AlwaysOk).1 == cursor + 1;
      DriveRunsStepsInOrder(steps, cursor + 1, k - 1);
      assert Min(cursor + 1 + (k - 1), |steps|) == end;
      assert steps[cursor..end] == [steps[cursor]] + steps[cursor + 1..end];
    } else {
      assert end == cursor && steps[cursor..end] == [];
    }
  }

  /**
   * The session driver (`HandshakeSession` with `tick`): a role, a mode and a
   * cursor over the derived step list; `execute` stands for the network
   * action of a step.
   */
  class Session {
    const role: Role
    const mode: ModeDescriptor
    var cursor: nat

    constructor (role: Role, mode: ModeDescriptor)
      ensures this.role == role && this.mode == mode && cursor == 0
    {
      this.role := role;
      this.mode := mode;
      cursor := 0;
    }

    method Tick(execute: HandshakeStep -> bool) returns (r: TickOutcome)
      modifies this`cursor
      ensures (r, cursor) == TickSpec(DerivedSteps(role, mode), old(cursor), execute)
    {
      var steps := DerivedSteps(role, mode);
      if steps.None? {
        r := TickPanic;
      } else if cursor >= |steps.value| {
        r := TickOk;
      } else {
        var ok := execute(steps.value[cursor]);
        if ok {
          cursor := cursor + 1;
          r := TickOk;
        } else {
          r := TickErr;
        }
      }
    }
  }
}
