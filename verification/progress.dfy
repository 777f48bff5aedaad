/** When a service that the manager has begun can be completed, and when it hangs for good. */
module ServiceProgress {
  import opened Types
  import opened PageProtocol
  import opened Coherence

  /** A run in which no call and no fetch fails. */
  predicate Smooth(steps: seq<Step>) {
    forall k | 0 <= k < |steps| :: !steps[k].CallFails? && !steps[k].FetchFails?
  }

  predicate SmoothRun(s: State, steps: seq<Step>, strict: bool)
    requires Shape(s)
  {
    Smooth(steps) && Run(s, steps, strict)
  }

  /** Node z's page lock is still to be taken by the service: to fetch the page, or to invalidate it. */
  predicate Target(s: State, z: nat)
    requires Shape(s)
  {
    && 0 < z < |s.app|
    && s.svc.Serving?
    && match s.svc.phase
       case Begin => (z == s.owner || (s.svc.kind.Wr? && z in s.copyset)) && (s.svc.kind.Wr? ==> z != s.svc.req)
       case Calling => z == s.owner || (s.svc.kind.Wr? && z in s.copyset)
       case Revoking(_, todo, _) => z in todo
       case _ => s.svc.kind.Wr? && z in s.copyset
  }

  /** Some node the service has to call is itself waiting for the manager, holding its page lock. */
  predicate Entangled(s: State)
    requires Shape(s)
  {
    exists z | 0 <= z < |s.app| :: Target(s, z) && s.app[z].Asking?
  }

  // ---------- hanging ----------

  lemma StuckStep(s: State, st: Step, z: nat, strict: bool)
    requires Shape(s) && Inv(s, strict) && Target(s, z) && s.app[z].Asking?
    requires Allowed(s, st, strict) && !st.CallFails? && !st.FetchFails?
    ensures var s' := Do(s, st);
            Target(s', z) && s'.app[z] == s.app[z] && s'.svc.req == s.svc.req && s'.svc.kind == s.svc.kind
  {
    assert NodeOk(s, z, strict);
  }

  /** The service and the node it waits for then block each other in every failure-free future. */
  lemma {:induction false} StuckForever(s: State, steps: seq<Step>, z: nat, strict: bool)
    requires Shape(s) && Inv(s, strict) && Target(s, z) && s.app[z].Asking?
    requires SmoothRun(s, steps, strict)
    ensures var t := Exec(s, steps, strict);
            t.svc.Serving? && t.svc.req == s.svc.req && t.app[z] == s.app[z] && Target(t, z)
    decreases |steps|
  {
    if steps == [] {
    } else {
      assert !steps[0].CallFails? && !steps[0].FetchFails?;
      StuckStep(s, steps[0], z, strict);
      StepKeeps(s, steps[0], strict);
      assert forall k | 0 <= k < |steps[1..]| :: steps[1..][k] == steps[k + 1];
      StuckForever(Do(s, steps[0]), steps[1..], z, strict);
    }
  }

  // ---------- completing ----------

  lemma {:induction false} RunAppend(s: State, xs: seq<Step>, ys: seq<Step>, strict: bool)
    requires Shape(s) && Run(s, xs, strict) && Run(Exec(s, xs, strict), ys, strict)
    ensures Run(s, xs + ys, strict)
    ensures Exec(s, xs + ys, strict) == Exec(Exec(s, xs, strict), ys, strict)
    decreases |xs|
  {
    hide Enabled, Do;
    if xs == [] {
      assert xs + ys == ys;
    } else {
      assert (xs + ys)[0] == xs[0] && (xs + ys)[1..] == xs[1..] + ys;
      RunAppend(Do(s, xs[0]), xs[1..], ys, strict);
    }
  }

  lemma RunCons(s: State, st: Step, ys: seq<Step>, strict: bool)
    requires Shape(s) && Allowed(s, st, strict) && Run(Do(s, st), ys, strict)
    ensures Run(s, [st] + ys, strict)
    ensures Exec(s, [st] + ys, strict) == Exec(Do(s, st), ys, strict)
  {
    assert ([st] + ys)[1..] == ys;
  }

  /** What is left to do of a handler that has its answer. */
  function Rank(a: App): nat {
    match a
    case Granted(_, _) => 4
    case Filling(_, _, done) => if done < CELLS then 3 else 2
    case Leaving => 1
    case _ => 0
  }

  function HandlerStep(a: App, z: nat): Step
    requires Rank(a) > 0
  {
    match a
    case Granted(_, _) => BeginFill(z)
    case Filling(_, _, done) => if done < CELLS then CopyIn(z, CELLS - done) else EndFill(z)
    case Leaving => Release(z)
  }

  predicate OnlyNode(s: State, t: State, z: nat)
    requires Shape(s)
  {
    && |t.app| == |s.app| == |t.locked|
    && t.svc == s.svc && t.owner == s.owner && t.copyset == s.copyset
    && (forall j | 0 <= j < |s.app| && j != z :: t.app[j] == s.app[j] && t.locked[j] == s.locked[j])
  }

  /** No request begins and nothing fails in these steps. */
  predicate Quiet(steps: seq<Step>) {
    Smooth(steps) && forall k | 0 <= k < |steps| :: !steps[k].StartService?
  }

  lemma QuietCons(st: Step, ys: seq<Step>)
    requires Quiet([st]) && Quiet(ys)
    ensures Quiet([st] + ys)
  {
    assert forall k | 0 <= k < |[st] + ys| :: ([st] + ys)[k] == if k == 0 then st else ys[k - 1];
    assert [st][0] == st;
  }

  lemma HandlerStepWorks(s: State, z: nat, strict: bool)
    requires Shape(s) && Inv(s, strict) && 0 < z < |s.app| && Rank(s.app[z]) > 0
    ensures var st := HandlerStep(s.app[z], z);
            Allowed(s, st, strict) && !st.CallFails? && !st.FetchFails? && !st.StartService? && CallsIn([st]) == 0
    ensures var s' := Do(s, HandlerStep(s.app[z], z));
            OnlyNode(s, s', z) && Rank(s'.app[z]) < Rank(s.app[z]) &&
            (if s.app[z].Leaving? then s'.app[z].Running? && !s'.locked[z] else Rank(s'.app[z]) > 0)
  {
    assert NodeOk(s, z, strict);
  }

  /** A node that is not waiting for the manager gives its page lock back by itself. */
  lemma {:induction false} FreeLock(s: State, z: nat, strict: bool) returns (steps: seq<Step>)
    requires Shape(s) && Inv(s, strict) && 0 < z < |s.app| && Rank(s.app[z]) > 0
    ensures Quiet(steps) && Run(s, steps, strict) && CallsIn(steps) == 0
    ensures var t := Exec(s, steps, strict);
            Inv(t, strict) && OnlyNode(s, t, z) && t.app[z].Running? && !t.locked[z]
    decreases Rank(s.app[z])
  {
    var st := HandlerStep(s.app[z], z);
    HandlerStepWorks(s, z, strict);
    StepKeeps(s, st, strict);
    var s' := Do(s, st);
    var rest := [];
    if !s.app[z].Leaving? {
      rest := FreeLock(s', z, strict);
    }
    steps := [st] + rest;
    RunCons(s, st, rest, strict);
    QuietCons(st, rest);
    CallsAppend([st], rest);
  }

  /** The calls to other nodes that a sequence of steps makes. */
  function CallsIn(steps: seq<Step>): nat
    decreases |steps|
  {
    if steps == [] then 0
    else (if steps[0].FetchLock? || steps[0].RevokeLock? then 1 else 0) + CallsIn(steps[1..])
  }

  lemma {:induction false} CallsAppend(xs: seq<Step>, ys: seq<Step>)
    ensures CallsIn(xs + ys) == CallsIn(xs) + CallsIn(ys)
    decreases |xs|
  {
    if xs == [] {
      assert xs + ys == ys;
    } else {
      assert (xs + ys)[1..] == xs[1..] + ys;
      CallsAppend(xs[1..], ys);
    }
  }

  /** The calls a service still has to make: the fetch, and one invalidation for each other reader. */
  function CallsLeft(s: State): nat
    requires Shape(s)
  {
    if s.svc.Free? then 0 else
      match s.svc.phase
      case Begin =>
        if s.svc.kind.Rd? then 1
        else (if s.owner != 0 && s.owner == s.svc.req then 0 else 1) + |s.copyset - {s.svc.req}|
      case Calling => 1 + if s.svc.kind.Rd? then 0 else |s.copyset|
      case Revoking(_, todo, _) => |todo|
      case _ => if s.svc.kind.Rd? then 0 else |s.copyset|
  }

  function PhaseRank(s: State): nat
    requires Shape(s) && s.svc.Serving?
  {
    match s.svc.phase
    case Begin => 7
    case Calling => 6
    case FetchLocked => 5
    case Reading(buf) => if |buf| < CELLS then 4 else 3
    case Fetched(_) => 2
    case Revoking(_, _, _) => 1
  }

  function Remaining(s: State): nat
    requires Shape(s) && s.svc.Serving?
  {
    if s.svc.phase.Revoking? then 2 * |s.svc.phase.todo| + (if s.svc.phase.held.Some? then 1 else 0) else 0
  }

  /** The next step of the service itself, once no lock is in its way; z is the reader it goes to next. */
  function ServiceStep(s: State, z: nat): Step
    requires Shape(s) && s.svc.Serving?
  {
    match s.svc.phase
    case Begin => Register
    case Calling => FetchLock
    case FetchLocked => FetchProtect
    case Reading(buf) => if |buf| < CELLS then CopyOut(CELLS - |buf|) else FetchReturn
    case Fetched(_) => if s.svc.kind.Rd? then Finish else StartRevoking
    case Revoking(_, todo, held) => if held.Some? then RevokeReply else if todo == {} then Finish else RevokeLock(z)
  }

  /** The lock that the next step of the service takes, if any, is free. */
  predicate WayIsFree(s: State, z: nat)
    requires Shape(s) && s.svc.Serving?
  {
    && (s.svc.phase.Calling? && s.owner != 0 ==> !s.locked[s.owner])
    && (s.svc.phase.Revoking? && s.svc.phase.held.None? && s.svc.phase.todo != {} ==>
          z in s.svc.phase.todo && (z != 0 ==> !s.locked[z]))
  }

  /** What the service's step brings: it can be taken, and it gets the service closer to its end. */
  predicate StepWorks(s: State, st: Step, strict: bool)
    requires Shape(s) && s.svc.Serving?
  {
    && Allowed(s, st, strict) && !st.CallFails? && !st.FetchFails? && !st.StartService?
    && var s' := Do(s, st);
       if s'.svc.Free? then s'.app[s.svc.req].Granted?
       else s'.svc.req == s.svc.req &&
            (PhaseRank(s') < PhaseRank(s) || (PhaseRank(s') == PhaseRank(s) && Remaining(s') < Remaining(s)))
  }

  lemma FetchingWorks(s: State, z: nat, strict: bool)
    requires Shape(s) && Inv(s, strict) && s.svc.Serving? && WayIsFree(s, z)
    requires s.svc.phase.Begin? || s.svc.phase.Calling? || s.svc.phase.FetchLocked? || s.svc.phase.Reading?
    ensures StepWorks(s, ServiceStep(s, z), strict)
  {
  }

  lemma FetchedWorks(s: State, z: nat, strict: bool)
    requires Shape(s) && Inv(s, strict) && s.svc.Serving? && WayIsFree(s, z) && s.svc.phase.Fetched?
    ensures StepWorks(s, ServiceStep(s, z), strict)
  {
  }

  lemma RevokingWorks(s: State, z: nat, strict: bool)
    requires Shape(s) && Inv(s, strict) && s.svc.Serving? && WayIsFree(s, z) && s.svc.phase.Revoking?
    ensures StepWorks(s, ServiceStep(s, z), strict)
  {
  }

  lemma ServiceStepWorks(s: State, z: nat, strict: bool)
    requires Shape(s) && Inv(s, strict) && s.svc.Serving? && WayIsFree(s, z)
    ensures StepWorks(s, ServiceStep(s, z), strict)
  {
    match s.svc.phase {
      case Fetched(_) => FetchedWorks(s, z, strict);
      case Revoking(_, _, _) => RevokingWorks(s, z, strict);
      case _ => FetchingWorks(s, z, strict);
    }
  }

  predicate Counts(s: State, st: Step)
    requires Shape(s) && Enabled(s, st)
  {
    CallsLeft(Do(s, st)) + (if st.FetchLock? || st.RevokeLock? then 1 else 0) == CallsLeft(s)
  }

  lemma ThreadStepCounts(s: State, st: Step)
    requires Shape(s) && Enabled(s, st) && ThreadStep(st)
    ensures Counts(s, st)
  {
  }

  lemma RegisterCounts(s: State)
    requires Shape(s) && Enabled(s, Register)
    ensures Counts(s, Register)
  {
    assert s.svc.kind.Wr? ==> Do(s, Register).copyset == s.copyset - {s.svc.req};
  }

  lemma RevokeCounts(s: State, z: nat)
    requires Shape(s) && Enabled(s, RevokeLock(z))
    ensures Counts(s, RevokeLock(z))
  {
    assert s.svc.phase.todo == (s.svc.phase.todo - {z}) + {z};
  }

  lemma FetchStepCounts(s: State, st: Step)
    requires Shape(s) && Enabled(s, st)
    requires st.FetchLock? || st.FetchProtect? || st.CopyOut? || st.FetchReturn?
    ensures Counts(s, st)
  {
  }

  lemma EndStepCounts(s: State, st: Step)
    requires Shape(s) && Enabled(s, st) && (st.StartRevoking? || st.RevokeReply? || st.Finish?)
    ensures Counts(s, st)
  {
  }

  /** Every step of anybody makes just the calls by which the service has fewer left to make. */
  lemma EveryStepCounts(s: State, st: Step, strict: bool)
    requires Shape(s) && Allowed(s, st, strict) && !st.FetchFails? && !st.StartService?
    ensures CallsIn([st]) + CallsLeft(Do(s, st)) == CallsLeft(s)
  {
    hide Enabled, Do, CallsLeft;
    assert [st][1..] == [];
    match st {
      case Register => RegisterCounts(s);
      case RevokeLock(z) => RevokeCounts(s, z);
      case FetchLock => FetchStepCounts(s, st);
      case FetchProtect => FetchStepCounts(s, st);
      case CopyOut(_) => FetchStepCounts(s, st);
      case FetchReturn => FetchStepCounts(s, st);
      case StartRevoking => EndStepCounts(s, st);
      case RevokeReply => EndStepCounts(s, st);
      case Finish => EndStepCounts(s, st);
      case _ => ThreadStepCounts(s, st);
    }
  }

  /** No service begins in these steps, and no fetch fails. */
  predicate OneService(steps: seq<Step>) {
    forall k | 0 <= k < |steps| :: !steps[k].FetchFails? && !steps[k].StartService?
  }

  /** However a service is interleaved with everything else, it makes exactly the calls it has left. */
  lemma {:induction false} EveryRunCounts(s: State, steps: seq<Step>, strict: bool)
    requires Shape(s) && Run(s, steps, strict) && OneService(steps)
    ensures CallsIn(steps) + CallsLeft(Exec(s, steps, strict)) == CallsLeft(s)
    decreases |steps|
  {
    if steps == [] {
    } else {
      assert !steps[0].FetchFails? && !steps[0].StartService?;
      EveryStepCounts(s, steps[0], strict);
      assert [steps[0]][1..] == [];
      assert forall k | 0 <= k < |steps[1..]| :: steps[1..][k] == steps[k + 1];
      EveryRunCounts(Do(s, steps[0]), steps[1..], strict);
    }
  }

  lemma CallsAtMost(s: State)
    requires Shape(s) && s.svc.Serving? && s.svc.phase.Begin?
    ensures CallsLeft(s) <= 1 + |s.copyset|
  {
    if s.svc.req in s.copyset {
      assert s.copyset == (s.copyset - {s.svc.req}) + {s.svc.req};
    } else {
      assert s.copyset == s.copyset - {s.svc.req};
    }
  }

  lemma ServiceStepTargets(s: State, z: nat, strict: bool)
    requires Shape(s) && Inv(s, strict) && s.svc.Serving? && !Entangled(s)
    requires Allowed(s, ServiceStep(s, z), strict)
    ensures !Entangled(Do(s, ServiceStep(s, z)))
  {
    var s' := Do(s, ServiceStep(s, z));
    forall y | 0 <= y < |s.app| && Target(s', y) ensures !s'.app[y].Asking? {
      assert Target(s, y);
    }
  }

  /** If nobody it has to call waits for the manager, the lock the service waits for is given back. */
  lemma LockIsGivenBack(s: State, z: nat, strict: bool)
    requires Shape(s) && Inv(s, strict) && !Entangled(s) && Target(s, z) && s.locked[z]
    requires s.svc.phase.Calling? || (s.svc.phase.Revoking? && s.svc.phase.held.None?)
    ensures Rank(s.app[z]) > 0
  {
    assert NodeOk(s, z, strict);
  }

  lemma StillNotEntangled(s: State, t: State, z: nat)
    requires Shape(s) && Shape(t) && !Entangled(s) && z < |s.app| && OnlyNode(s, t, z) && t.app[z].Running?
    ensures !Entangled(t)
  {
    forall y | 0 <= y < |t.app| && Target(t, y) ensures !t.app[y].Asking? { assert Target(s, y); }
  }

  lemma WayIsFreed(s: State, t: State, z: nat)
    requires Shape(s) && Shape(t) && z < |s.app| && Target(s, z) && OnlyNode(s, t, z) && !t.locked[z]
    requires s.svc.phase.Calling? ==> z == s.owner
    ensures WayIsFree(t, z)
  {
  }

  /** The node whose lock the service takes next, or 0. */
  ghost function Awaited(s: State): (z: nat)
    requires Shape(s) && s.svc.Serving?
    ensures z < |s.app|
    ensures z != 0 && s.locked[z] ==>
              Target(s, z) && (s.svc.phase.Calling? || (s.svc.phase.Revoking? && s.svc.phase.held.None?))
    ensures s.svc.phase.Calling? ==> z == s.owner
    ensures (z == 0 || !s.locked[z]) ==> WayIsFree(s, z)
  {
    if s.svc.phase.Revoking? && s.svc.phase.held.None? && s.svc.phase.todo != {} then
      var z :| z in s.svc.phase.todo; z
    else if s.svc.phase.Calling? then s.owner
    else 0
  }

  /** Without entanglement the service can be completed, with exactly the calls it still has to make. */
  lemma {:induction false} Complete(s: State, strict: bool) returns (steps: seq<Step>)
    requires Shape(s) && Inv(s, strict) && s.svc.Serving? && !Entangled(s)
    ensures Quiet(steps) && Run(s, steps, strict) && CallsIn(steps) == CallsLeft(s)
    ensures var t := Exec(s, steps, strict); t.svc.Free? && t.app[s.svc.req].Granted?
    decreases PhaseRank(s), Remaining(s), 1
  {
    hide Inv, Entangled, Target, Awaited, WayIsFree;
    var z := Awaited(s);
    if z != 0 && s.locked[z] {
      LockIsGivenBack(s, z, strict);
      var free := FreeLock(s, z, strict);
      var t := Exec(s, free, strict);
      StillNotEntangled(s, t, z);
      WayIsFreed(s, t, z);
      var rest := CompleteFrom(t, z, strict);
      steps := free + rest;
      RunAppend(s, free, rest, strict);
      CallsAppend(free, rest);
    } else {
      steps := CompleteFrom(s, z, strict);
    }
  }

  lemma {:induction false} CompleteFrom(s: State, z: nat, strict: bool) returns (steps: seq<Step>)
    requires Shape(s) && Inv(s, strict) && s.svc.Serving? && !Entangled(s)
    requires WayIsFree(s, z)
    ensures Quiet(steps) && Run(s, steps, strict) && CallsIn(steps) == CallsLeft(s)
    ensures var t := Exec(s, steps, strict); t.svc.Free? && t.app[s.svc.req].Granted?
    decreases PhaseRank(s), Remaining(s), 0
  {
    var st := ServiceStep(s, z);
    ServiceStepWorks(s, z, strict);
    EveryStepCounts(s, st, strict);
    ServiceStepTargets(s, z, strict);
    StepKeeps(s, st, strict);
    var s' := Do(s, st);
    var rest := [];
    if s'.svc.Serving? {
      rest := Complete(s', strict);
    }
    steps := [st] + rest;
    RunCons(s, st, rest, strict);
    QuietCons(st, rest);
    CallsAppend([st], rest);
  }

  /**
   * A service can be completed without failures if and only if no node it still has to call is
   * waiting for the manager with its own page lock held. In every run, whatever else goes on, it makes
   * at most the calls it has left, and exactly these if it ends; for a service just begun they are at
   * most one more than there are readers.
   */
  lemma ServiceCompletesIff(s: State, strict: bool)
    requires Shape(s) && Inv(s, strict) && s.svc.Serving?
    ensures (exists steps :: SmoothRun(s, steps, strict) && Exec(s, steps, strict).svc.Free?)
            <==> !Entangled(s)
    ensures !Entangled(s) ==>
              exists steps :: SmoothRun(s, steps, strict) && Exec(s, steps, strict).svc.Free? &&
                              Exec(s, steps, strict).app[s.svc.req].Granted?
    ensures forall steps | Run(s, steps, strict) && OneService(steps) ::
              CallsIn(steps) <= CallsLeft(s) && (Exec(s, steps, strict).svc.Free? ==> CallsIn(steps) == CallsLeft(s))
    ensures s.svc.phase.Begin? ==> CallsLeft(s) <= 1 + |s.copyset|
  {
    if !Entangled(s) {
      var steps := Complete(s, strict);
      assert SmoothRun(s, steps, strict);
    } else {
      var z: nat :| z < |s.app| && Target(s, z) && s.app[z].Asking?;
      forall steps | SmoothRun(s, steps, strict) ensures !Exec(s, steps, strict).svc.Free? {
        StuckForever(s, steps, z, strict);
      }
    }
    forall steps | Run(s, steps, strict) && OneService(steps)
      ensures CallsIn(steps) <= CallsLeft(s) && (Exec(s, steps, strict).svc.Free? ==> CallsIn(steps) == CallsLeft(s))
    {
      EveryRunCounts(s, steps, strict);
    }
    if s.svc.phase.Begin? { CallsAtMost(s); }
  }

  /** With a single outstanding fault nothing can be entangled. */
  lemma LoneFaultCompletes(s: State, strict: bool)
    requires Shape(s) && Inv(s, strict) && s.svc.Serving?
    requires forall i | 0 <= i < |s.app| && i != s.svc.req :: !s.app[i].Asking?
    ensures !Entangled(s)
  {
    forall z | 0 <= z < |s.app| && Target(s, z) ensures z != s.svc.req { assert NodeOk(s, z, strict); }
  }
}
