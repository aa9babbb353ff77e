/**
 * The Noise Pipes fallback automaton (smog/src/fallback.rs): a pipe starts
 * in zero round-trip IK with a pending XX descriptor and can fall back to
 * XX exactly once.
 */
module Fallback {

  import opened Wrappers

  /** A two-letter pattern name such as "IK". */
  type Pattern = s: seq<char> | |s| == 2 witness "XX"

  /** The descriptor this file builds: a pattern and the message index of its psk. */
  datatype ModeDescriptor = ModeDescriptor(pattern: Pattern, pskDelay: nat)

  datatype PipeState =
    | Ik(ik: ModeDescriptor, xxFallback: Option<ModeDescriptor>)
    | Xx(xx: ModeDescriptor)

  datatype FallbackError = NoFallback | AlreadyInFallback

  /** `PipeState::new_ik_with_fallback`. */
  function NewIkWithFallback(): PipeState {
    Ik(ModeDescriptor("IK", 2), Some(ModeDescriptor("XX", 3)))
  }

  /** `PipeState::active_mode`: the descriptor in use, never the pending fallback. */
  function ActiveMode(s: PipeState): ModeDescriptor {
    match s
    case Ik(ik, _) => ik
    case Xx(xx) => xx
  }

  /**
   * The outcome and the next state of one `fallback` call. It succeeds exactly
   * from IK with a pending descriptor, which becomes the XX state's descriptor;
   * every failure leaves the state as it was.
   */
  function FallbackStep(s: PipeState): (r: (Result<(), FallbackError>, PipeState))
    ensures r.0.Ok? <==> s.Ik? && s.xxFallback.Some?
    ensures r.0.Ok? ==> r.1 == Xx(s.xxFallback.value)
    ensures r.0.Err? ==> r.1 == s
    ensures r.0 == Err(AlreadyInFallback) <==> s.Xx?
  {
    match s
    case Ik(_, None) => (Err(NoFallback), s)
    case Ik(_, Some(xx)) => (Ok(()), Xx(xx))
    case Xx(_) => (Err(AlreadyInFallback), s)
  }

  /** XX is terminal: no call leaves it, and no call enters IK again. */
  lemma {:induction false} XxIsTerminal(s: PipeState, k: nat)
    requires s.Xx?
    ensures Repeat(s, k) == s
    decreases k
  {
    if k > 0 {
      XxIsTerminal(FallbackStep(s).1, k - 1);
    }
  }

  /** The state after `k` successive `fallback` calls. */
  function Repeat(s: PipeState, k: nat): PipeState
    decreases k
  {
    if k == 0 then s else Repeat(FallbackStep(s).1, k - 1)
  }

  /** Any number of calls succeeds at most once: after one call the next one fails. */
  lemma AtMostOneFallback(s: PipeState)
    ensures FallbackStep(FallbackStep(s).1).0.Err?
  {
  }

  /**
   * A fresh pipe falls back once to (XX, 3); a second fallback reports that
   * the pipe already fell back, and any further calls keep the XX descriptor.
   */
  lemma {:induction false} FreshPipeFallsBackOnce(k: nat)
    ensures var (first, s1) := FallbackStep(NewIkWithFallback());
      first.Ok? && ActiveMode(s1) == ModeDescriptor("XX", 3)
      && FallbackStep(s1).0 == Err(AlreadyInFallback)
      && ActiveMode(Repeat(s1, k)) == ModeDescriptor("XX", 3)
  {
    var s1 := FallbackStep(NewIkWithFallback()).1;
    XxIsTerminal(s1, k);
  }

  /** The pipe object whose `fallback` overwrites its state in place. */
  class Pipe {
    var state: PipeState

    /** A pipe built by `new_ik_with_fallback`. */
    constructor ()
      ensures state == NewIkWithFallback()
    {
      state := NewIkWithFallback();
    }

    method Mode() returns (m: ModeDescriptor)
      ensures m == ActiveMode(state)
    {
      m := ActiveMode(state);
    }

    /** `PipeState::fallback`, taking the pending descriptor out of the IK state. */
    method Fallback() returns (r: Result<(), FallbackError>)
      modifies this
      ensures (r, state) == FallbackStep(old(state))
    {
      match state
      case Ik(ik, pending) =>
        if pending.None? {
          return Err(NoFallback);
        }
        state := Xx(pending.value);
        r := Ok(());
      case Xx(_) =>
        r := Err(AlreadyInFallback);
    }
  }
}
