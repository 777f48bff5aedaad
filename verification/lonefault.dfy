/** A service that no other fault disturbs ends, however its steps are interleaved with other handlers. */
module LoneFaults {
  import opened Types
  import opened PageProtocol
  import opened Coherence
  import opened ServiceProgress

  /** The manager is serving the only outstanding fault; other handlers may still be installing replies. */
  predicate Alone(s: State) {
    && Shape(s) && s.svc.Serving?
    && forall i | 0 <= i < |s.app| && i != s.svc.req :: !s.app[i].NeedLock? && !s.app[i].Asking?
  }

  predicate IsAccess(st: Step) { st.AppLoad? || st.AppStore? }

  /** No new fault, and no failed fetch; the applications may load and store. */
  predicate NoNewWork(st: Step) { !st.Fault? && !st.FetchFails? }

  /** The steps that are not accesses of the applications. */
  function HandlerSteps(steps: seq<Step>): nat {
    if steps == [] then 0 else (if IsAccess(steps[0]) then 0 else 1) + HandlerSteps(steps[1..])
  }

  /** The service is not over before the last of these steps. */
  predicate Within(s: State, steps: seq<Step>, strict: bool)
    requires Shape(s) && Run(s, steps, strict)
    decreases |steps|
  {
    steps == [] || (s.svc.Serving? && NoNewWork(steps[0]) && Within(Do(s, steps[0]), steps[1..], strict))
  }

  // ---------- what is left to do ----------

  function AppWork(a: App): nat {
    match a
    case Granted(_, _) => CELLS + 3
    case Filling(_, _, done) => if done <= CELLS then CELLS - done + 2 else 2
    case Leaving => 1
    case _ => 0
  }

  function AllWork(apps: seq<App>): nat {
    if apps == [] then 0 else AppWork(apps[0]) + AllWork(apps[1..])
  }

  lemma {:induction false} AllWorkUpdate(apps: seq<App>, i: nat, a: App)
    requires i < |apps|
    ensures AllWork(apps[i := a]) == AllWork(apps) - AppWork(apps[i]) + AppWork(a)
    decreases i
  {
    if i == 0 {
      assert apps[i := a][1..] == apps[1..];
    } else {
      assert apps[i := a][1..] == apps[1..][i - 1 := a];
      AllWorkUpdate(apps[1..], i - 1, a);
    }
  }

  /** The work behind the fetch: the invalidations, two steps each. */
  function RevokeWork(s: State): nat
    requires Shape(s) && s.svc.Serving?
  {
    if s.svc.kind.Rd? then 1 else 2 * |s.copyset| + 2
  }

  function ServiceWork(s: State): nat
    requires Shape(s) && s.svc.Serving?
  {
    match s.svc.phase
    case Begin => CELLS + 4 + RevokeWork(s)
    case Calling => CELLS + 3 + RevokeWork(s)
    case FetchLocked => CELLS + 2 + RevokeWork(s)
    case Reading(buf) => (if |buf| <= CELLS then CELLS - |buf| else 0) + 1 + RevokeWork(s)
    case Fetched(_) => RevokeWork(s)
    case Revoking(_, todo, held) => 2 * |todo| + (if held.Some? then 1 else 0) + 1
  }

  function Work(s: State): nat
    requires Shape(s) && s.svc.Serving?
  {
    AllWork(s.app) + ServiceWork(s)
  }

  /** What a step does: the service is answered, or it goes on and less is left to do. */
  predicate Shrinks(s: State, s': State)
    requires Alone(s) && Shape(s')
  {
    if s'.svc.Free? then s.svc.req < |s'.app| && s'.app[s.svc.req].Granted?
    else Alone(s') && s'.svc.req == s.svc.req && Work(s') < Work(s)
  }

  /** A handler that has its answer gets on with installing it. */
  lemma HandlerWorks(s: State, st: Step)
    requires Shape(s) && Enabled(s, st) && (st.BeginFill? || st.CopyIn? || st.EndFill? || st.Release?)
    ensures var s' := Do(s, st);
            && s'.svc == s.svc && s'.copyset == s.copyset && s'.app == s.app[st.node := s'.app[st.node]]
            && AppWork(s'.app[st.node]) < AppWork(s.app[st.node])
            && !s'.app[st.node].NeedLock? && !s'.app[st.node].Asking? && !s.app[st.node].Asking?
  {
  }

  lemma ThreadShrinks(s: State, st: Step, strict: bool)
    requires Alone(s) && Inv(s, strict) && Allowed(s, st, strict) && NoNewWork(st) && ThreadStep(st)
    requires !IsAccess(st)
    ensures Shrinks(s, Do(s, st))
  {
    assert s.app[s.svc.req].Asking?;
    assert st.BeginFill? || st.CopyIn? || st.EndFill? || st.Release?;
    hide Inv, Do, AppWork;
    HandlerWorks(s, st);
    AllWorkUpdate(s.app, st.node, Do(s, st).app[st.node]);
  }

  lemma FetchShrinks(s: State, st: Step, strict: bool)
    requires Alone(s) && Inv(s, strict) && Allowed(s, st, strict)
    requires st.FetchLock? || st.FetchProtect? || st.CopyOut? || st.FetchReturn?
    ensures Shrinks(s, Do(s, st))
  {
  }

  lemma RegisterShrinks(s: State, strict: bool)
    requires Alone(s) && Inv(s, strict) && Allowed(s, Register, strict)
    ensures Shrinks(s, Do(s, Register))
  {
    if s.svc.req in s.copyset {
      assert s.copyset == (s.copyset - {s.svc.req}) + {s.svc.req};
    } else {
      assert s.copyset == s.copyset - {s.svc.req};
    }
  }

  lemma RevokeShrinks(s: State, st: Step, strict: bool)
    requires Alone(s) && Inv(s, strict) && Allowed(s, st, strict)
    requires st.StartRevoking? || st.RevokeLock? || st.RevokeReply? || st.Finish?
    ensures Shrinks(s, Do(s, st))
  {
    if st.RevokeLock? {
      assert s.svc.phase.todo == (s.svc.phase.todo - {st.node}) + {st.node};
    }
  }

  /** An access changes nothing that is left to do. */
  lemma AccessKeepsWork(s: State, st: Step)
    requires Alone(s) && Enabled(s, st) && IsAccess(st)
    ensures Alone(Do(s, st)) && Do(s, st).svc == s.svc && Work(Do(s, st)) == Work(s)
  {
  }

  lemma StepShrinks(s: State, st: Step, strict: bool)
    requires Alone(s) && Inv(s, strict) && Allowed(s, st, strict) && NoNewWork(st) && !IsAccess(st)
    ensures Shrinks(s, Do(s, st))
  {
    match st {
      case Register => RegisterShrinks(s, strict);
      case FetchLock => FetchShrinks(s, st, strict);
      case FetchProtect => FetchShrinks(s, st, strict);
      case CopyOut(_) => FetchShrinks(s, st, strict);
      case FetchReturn => FetchShrinks(s, st, strict);
      case StartRevoking => RevokeShrinks(s, st, strict);
      case RevokeLock(_) => RevokeShrinks(s, st, strict);
      case RevokeReply => RevokeShrinks(s, st, strict);
      case Finish => RevokeShrinks(s, st, strict);
      case RevokeFails =>
      case StartService(_) =>
      case _ => ThreadShrinks(s, st, strict);
    }
  }

  // ---------- there is always a step ----------

  lemma SomeStep(s: State, strict: bool) returns (st: Step)
    requires Alone(s) && Inv(s, strict)
    ensures Allowed(s, st, strict) && NoNewWork(st) && !IsAccess(st)
  {
    LoneFaultCompletes(s, strict);
    hide Alone, Inv, Entangled, Target, Awaited, WayIsFree;
    var z := Awaited(s);
    if z != 0 && s.locked[z] {
      LockIsGivenBack(s, z, strict);
      st := HandlerStep(s.app[z], z);
      HandlerStepWorks(s, z, strict);
    } else {
      st := ServiceStep(s, z);
      ServiceStepWorks(s, z, strict);
    }
  }

  lemma {:induction false} WithinIsOneService(s: State, steps: seq<Step>, strict: bool)
    requires Shape(s) && Run(s, steps, strict) && Within(s, steps, strict)
    ensures OneService(steps)
    decreases |steps|
  {
    if steps != [] {
      WithinIsOneService(Do(s, steps[0]), steps[1..], strict);
      assert !steps[0].StartService?;
      assert forall k | 0 < k < |steps| :: steps[k] == steps[1..][k - 1];
    }
  }

  /** The run can go on while the service does, and it has a bound. */
  lemma {:induction false} BoundedWithin(s: State, steps: seq<Step>, strict: bool)
    requires Alone(s) && Inv(s, strict) && Run(s, steps, strict) && Within(s, steps, strict)
    ensures HandlerSteps(steps) <= Work(s)
    ensures var t := Exec(s, steps, strict);
            if t.svc.Free? then t.app[s.svc.req].Granted?
            else Alone(t) && Inv(t, strict) && t.svc.req == s.svc.req
    decreases |steps|
  {
    if steps != [] {
      var st := steps[0];
      if IsAccess(st) { AccessKeepsWork(s, st); } else { StepShrinks(s, st, strict); }
      StepKeeps(s, st, strict);
      if Do(s, st).svc.Free? {
        assert steps[1..] == [];
      } else {
        BoundedWithin(Do(s, st), steps[1..], strict);
      }
    }
  }

  /**
   * With one outstanding fault and no failed fetch, every run of the service, whatever the order of
   * its steps and whatever the applications load and store meanwhile, can be continued until the
   * requester has its answer, has a bounded number of steps besides those accesses, and has then made
   * exactly the calls it had left, at most 1 + |copyset| from its beginning.
   */
  lemma LoneFaultEnds(s: State, steps: seq<Step>, strict: bool)
    requires Alone(s) && Inv(s, strict) && Run(s, steps, strict) && Within(s, steps, strict)
    ensures HandlerSteps(steps) <= Work(s)
    ensures var t := Exec(s, steps, strict);
            if t.svc.Free? then t.app[s.svc.req].Granted? && CallsIn(steps) == CallsLeft(s)
            else CallsIn(steps) <= CallsLeft(s) && exists st :: Allowed(t, st, strict) && NoNewWork(st) && !IsAccess(st)
    ensures s.svc.phase.Begin? ==> CallsIn(steps) <= 1 + |s.copyset|
  {
    var t := Exec(s, steps, strict);
    BoundedWithin(s, steps, strict);
    WithinIsOneService(s, steps, strict);
    EveryRunCounts(s, steps, strict);
    if t.svc.Serving? {
      var st := SomeStep(t, strict);
    }
    if s.svc.phase.Begin? { CallsAtMost(s); }
  }
}
