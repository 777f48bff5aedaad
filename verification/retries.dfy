/** A fault whose calls fail and are made again is handled as the kind it was, and as if at once. */
module FaultRetries {
  import opened Types
  import opened PageProtocol
  import opened Coherence
  import opened AtomicFaults

  // ---------- the kind of a fault ----------

  /** Whatever kind the handler carries is k. */
  predicate HandlesAs(a: App, k: Kind) {
    match a
    case NeedLock(x) => x == k
    case Asking(x) => x == k
    case Granted(x, _) => x == k
    case Filling(x, _, _) => x == k
    case _ => true
  }

  function AccessFor(k: Kind): Access { if k.Rd? then ReadOnly else ReadWrite }

  /** Node i's fault is handled, and served, as one of kind k; before it gives its lock back it has the access. */
  predicate ForKind(t: State, i: nat, k: Kind)
    requires Shape(t) && i < |t.app|
  {
    && HandlesAs(t.app[i], k)
    && (t.svc.Serving? && t.svc.req == i ==> t.svc.kind == k)
    && (t.app[i].Leaving? && i != 0 ==> t.access[i] == AccessFor(k))
  }

  lemma StepForKind(t: State, st: Step, i: nat, k: Kind, strict: bool)
    requires Shape(t) && Inv(t, strict) && Allowed(t, st, strict) && i < |t.app| && ForKind(t, i, k)
    requires st.Fault? ==> st.node != i
    ensures ForKind(Do(t, st), i, k)
  {
    assert NodeOk(t, i, strict);
  }

  lemma {:induction false} RunForKind(t: State, steps: seq<Step>, i: nat, k: Kind, strict: bool)
    requires Shape(t) && Inv(t, strict) && Run(t, steps, strict) && i < |t.app| && ForKind(t, i, k)
    requires forall j | 0 <= j < |steps| && steps[j].Fault? :: steps[j].node != i
    ensures ForKind(Exec(t, steps, strict), i, k)
    decreases |steps|
  {
    if steps != [] {
      hide Inv, Allowed, Do, ForKind;
      StepForKind(t, steps[0], i, k, strict);
      StepKeeps(t, steps[0], strict);
      assert forall j | 0 <= j < |steps[1..]| :: steps[1..][j] == steps[j + 1];
      RunForKind(Do(t, steps[0]), steps[1..], i, k, strict);
    }
  }

  /**
   * Whatever else happens and whatever fails, a fault is requested, served and installed as the kind it
   * was raised as, until the same thread raises another one; when it is done with it, it has the access.
   */
  lemma FaultKeepsItsKind(s: State, i: nat, k: Kind, steps: seq<Step>, strict: bool)
    requires Shape(s) && Inv(s, strict) && Allowed(s, Fault(i, k), strict)
    requires Run(Do(s, Fault(i, k)), steps, strict)
    requires forall j | 0 <= j < |steps| && steps[j].Fault? :: steps[j].node != i
    ensures ForKind(Exec(Do(s, Fault(i, k)), steps, strict), i, k)
  {
    StepKeeps(s, Fault(i, k), strict);
    RunForKind(Do(s, Fault(i, k)), steps, i, k, strict);
  }

  // ---------- a lone fault, with retries ----------

  predicate Answered(a: App) { a.Granted? || a.Filling? || a.Leaving? || a.Running? }

  /** The copyset once the manager has registered the request. */
  function Registered(s: State, i: nat, k: Kind): set<nat> {
    if k.Rd? then s.copyset + {i} else s.copyset - {i}
  }

  /** The owner has been made to send its page. */
  predicate Sent(t: State, i: nat)
    requires i < |t.app|
  {
    Answered(t.app[i]) || (t.svc.Serving? && (t.svc.phase.Fetched? || t.svc.phase.Revoking?))
  }

  /** Node j, one of the readers, has been invalidated for a writer. */
  predicate Invalidated(t: State, i: nat, j: nat)
    requires i < |t.app|
  {
    Answered(t.app[i]) ||
    (t.svc.Serving? && t.svc.phase.Revoking? && j !in t.svc.phase.todo && t.svc.phase.held != Some(j))
  }

  /** The access of another node while the fault is being handled. */
  function AccessOf(s: State, t: State, i: nat, k: Kind, j: nat): Access
    requires Shape(s) && i < |t.app| && j < |s.app|
  {
    if k.Wr? && j in s.copyset && Invalidated(t, i, j) then NoAccess
    else if j == s.owner && t.svc.Serving? && t.svc.phase.Reading? then ReadOnly
    else if j == s.owner && Sent(t, i) then if k.Rd? then ReadOnly else NoAccess
    else s.access[j]
  }

  predicate OthersAsExpected(s: State, t: State, i: nat, k: Kind)
    requires Shape(s) && Shape(t) && i < |t.app| == |s.app|
  {
    forall j | 0 <= j < |s.app| && j != i ::
      t.app[j].Running? && t.mem[j] == s.mem[j] && t.access[j] == AccessOf(s, t, i, k, j)
  }

  /** Node i itself: as it was until it has its answer, and with the access it asked for in the end. */
  predicate OwnAsExpected(s: State, t: State, i: nat, k: Kind)
    requires Shape(s) && Shape(t) && i < |t.app| == |s.app|
  {
    && HandlesAs(t.app[i], k)
    && (t.app[i].NeedLock? || t.app[i].Asking? ==>
          t.mem[i] == s.mem[i] &&
          ((t.svc.Serving? && (t.svc.phase.Reading? || Sent(t, i))) || t.access[i] == s.access[i]))
    && (t.app[i].Filling? ==> t.access[i].ReadWrite?)
    && (t.app[i].Leaving? || t.app[i].Running? ==> t.access[i] == AccessFor(k))
  }

  /** The manager's record and service; `failed` if a fetch has failed on the way. */
  predicate RecordAsExpected(s: State, t: State, i: nat, k: Kind, failed: bool)
    requires Shape(s) && Shape(t) && i < |t.app|
  {
    var done := Answered(t.app[i]);
    && t.owner == (if done && k.Wr? then i else s.owner)
    && t.copyset == (if done then (if k.Rd? then s.copyset + {i} else {})
                     else if failed || (t.svc.Serving? && !t.svc.phase.Begin?) then Registered(s, i, k)
                     else s.copyset)
    && (done ==> t.svc.Free?)
    && (t.svc.Serving? ==> t.svc.req == i && t.svc.kind == k)
    && (t.svc.Serving? && t.svc.phase.Revoking? ==>
          t.svc.phase.todo <= s.copyset &&
          (t.svc.phase.held.Some? ==> t.svc.phase.held.value in s.copyset - t.svc.phase.todo))
  }

  /** A state on the way from s, in which only node i has faulted. */
  predicate OnTheWay(s: State, t: State, i: nat, k: Kind, failed: bool) {
    && Shape(s) && Shape(t) && i < |t.app| == |s.app|
    && OthersAsExpected(s, t, i, k) && OwnAsExpected(s, t, i, k) && RecordAsExpected(s, t, i, k, failed)
  }

  predicate NoAccessOrFault(st: Step) { !st.Fault? && !st.AppLoad? && !st.AppStore? }

  lemma RequestOnTheWay(s: State, t: State, st: Step, i: nat, k: Kind, failed: bool, strict: bool)
    requires Calm(s) && OnTheWay(s, t, i, k, failed) && Inv(t, strict)
    requires Allowed(t, st, strict) && (st.TakeLock? || st.CallFails?)
    ensures OnTheWay(s, Do(t, st), i, k, failed)
  {
    assert st.node == i;
  }

  lemma FillOnTheWay(s: State, t: State, st: Step, i: nat, k: Kind, failed: bool, strict: bool)
    requires Calm(s) && OnTheWay(s, t, i, k, failed) && Inv(t, strict)
    requires Allowed(t, st, strict) && (st.BeginFill? || st.CopyIn?)
    ensures OnTheWay(s, Do(t, st), i, k, failed)
  {
    assert st.node == i;
  }

  lemma LeaveOnTheWay(s: State, t: State, st: Step, i: nat, k: Kind, failed: bool, strict: bool)
    requires Calm(s) && OnTheWay(s, t, i, k, failed) && Inv(t, strict)
    requires Allowed(t, st, strict) && (st.EndFill? || st.Release?)
    ensures OnTheWay(s, Do(t, st), i, k, failed)
  {
    assert st.node == i;
  }

  lemma FetchOnTheWay(s: State, t: State, st: Step, i: nat, k: Kind, failed: bool, strict: bool)
    requires Calm(s) && OnTheWay(s, t, i, k, failed) && Inv(t, strict) && Allowed(t, st, strict)
    requires st.FetchLock? || st.FetchProtect? || st.CopyOut? || st.FetchReturn?
    ensures OnTheWay(s, Do(t, st), i, k, failed)
  {
  }

  lemma StartOnTheWay(s: State, t: State, st: Step, i: nat, k: Kind, failed: bool, strict: bool)
    requires Calm(s) && OnTheWay(s, t, i, k, failed) && Inv(t, strict) && Allowed(t, st, strict)
    requires st.StartService? || st.Register?
    ensures OnTheWay(s, Do(t, st), i, k, failed)
  {
  }

  lemma FailureOnTheWay(s: State, t: State, i: nat, k: Kind, failed: bool, strict: bool)
    requires Calm(s) && OnTheWay(s, t, i, k, failed) && Inv(t, strict) && Allowed(t, FetchFails, strict)
    ensures OnTheWay(s, Do(t, FetchFails), i, k, true)
  {
  }

  lemma RevokeOnTheWay(s: State, t: State, st: Step, i: nat, k: Kind, failed: bool, strict: bool)
    requires Calm(s) && OnTheWay(s, t, i, k, failed) && Inv(t, strict) && Allowed(t, st, strict)
    requires st.StartRevoking? || st.RevokeLock? || st.RevokeReply?
    ensures OnTheWay(s, Do(t, st), i, k, failed)
  {
  }

  lemma FinishOnTheWay(s: State, t: State, i: nat, k: Kind, failed: bool, strict: bool)
    requires Calm(s) && OnTheWay(s, t, i, k, failed) && Inv(t, strict) && Allowed(t, Finish, strict)
    ensures OnTheWay(s, Do(t, Finish), i, k, failed)
  {
  }

  lemma StepOnTheWay(s: State, t: State, st: Step, i: nat, k: Kind, failed: bool, strict: bool)
    requires Calm(s) && OnTheWay(s, t, i, k, failed) && Inv(t, strict)
    requires Allowed(t, st, strict) && NoAccessOrFault(st)
    ensures OnTheWay(s, Do(t, st), i, k, failed || st.FetchFails?)
  {
    hide OnTheWay, Inv, Enabled, Do;
    if st.TakeLock? || st.CallFails? {
      RequestOnTheWay(s, t, st, i, k, failed, strict);
    } else if st.BeginFill? || st.CopyIn? {
      FillOnTheWay(s, t, st, i, k, failed, strict);
    } else if st.EndFill? || st.Release? {
      LeaveOnTheWay(s, t, st, i, k, failed, strict);
    } else {
      match st {
        case FetchFails => FailureOnTheWay(s, t, i, k, failed, strict);
        case StartRevoking => RevokeOnTheWay(s, t, st, i, k, failed, strict);
        case RevokeLock(_) => RevokeOnTheWay(s, t, st, i, k, failed, strict);
        case RevokeReply => RevokeOnTheWay(s, t, st, i, k, failed, strict);
        case Finish => FinishOnTheWay(s, t, i, k, failed, strict);
        case StartService(_) => StartOnTheWay(s, t, st, i, k, failed, strict);
        case Register => StartOnTheWay(s, t, st, i, k, failed, strict);
        case _ => FetchOnTheWay(s, t, st, i, k, failed, strict);
      }
    }
  }

  /** Only a call to another node can fail: the request of any node but 0, a fetch at any owner but 0 and the writer. */
  predicate MayFail(s: State, i: nat, k: Kind, st: Step) {
    && (st.CallFails? ==> st.node == i != 0)
    && (st.FetchFails? ==> s.owner != 0 && (k.Wr? ==> s.owner != i))
  }

  lemma FailureIsRemote(s: State, t: State, st: Step, i: nat, k: Kind, failed: bool, strict: bool)
    requires Calm(s) && OnTheWay(s, t, i, k, failed) && Inv(t, strict) && Allowed(t, st, strict)
    ensures MayFail(s, i, k, st)
  {
  }

  predicate FetchFailsIn(steps: seq<Step>) { exists j | 0 <= j < |steps| :: steps[j].FetchFails? }

  lemma {:induction false} RunOnTheWay(s: State, t: State, steps: seq<Step>, i: nat, k: Kind, failed: bool,
                                       strict: bool)
    requires Calm(s) && OnTheWay(s, t, i, k, failed) && Inv(t, strict) && Run(t, steps, strict)
    requires forall j | 0 <= j < |steps| :: NoAccessOrFault(steps[j])
    ensures var u := Exec(t, steps, strict);
            OnTheWay(s, u, i, k, failed || FetchFailsIn(steps)) && Inv(u, strict) && Current(u) == Current(t)
    ensures forall j | 0 <= j < |steps| :: MayFail(s, i, k, steps[j])
    decreases |steps|
  {
    if steps != [] {
      hide OnTheWay, Inv, Allowed, Do, Current, MayFail, FetchFailsIn;
      FailureIsRemote(s, t, steps[0], i, k, failed, strict);
      StepOnTheWay(s, t, steps[0], i, k, failed, strict);
      StepKeeps(t, steps[0], strict);
      assert forall j | 0 <= j < |steps[1..]| :: steps[1..][j] == steps[j + 1];
      RunOnTheWay(s, Do(t, steps[0]), steps[1..], i, k, failed || steps[0].FetchFails?, strict);
      FetchFailsHere(steps);
    }
  }

  lemma FetchFailsHere(steps: seq<Step>)
    requires steps != []
    ensures FetchFailsIn(steps) <==> steps[0].FetchFails? || FetchFailsIn(steps[1..])
  {
    if FetchFailsIn(steps) && !steps[0].FetchFails? {
      var j :| 0 <= j < |steps| && steps[j].FetchFails?;
      assert steps[1..][j - 1].FetchFails?;
    }
  }

  lemma WayBegins(s: State, i: nat, k: Kind)
    requires Calm(s) && Faults(s, i, k)
    ensures OnTheWay(s, Do(s, Fault(i, k)), i, k, false)
  {
  }

  lemma WayEnds(s: State, t: State, i: nat, k: Kind, failed: bool, strict: bool)
    requires Calm(s) && OnTheWay(s, t, i, k, failed) && Inv(t, strict) && Current(t) == Current(s)
    requires t.app[i].Running?
    ensures t == AtomicFault(s, i, k)
  {
    var w := AtomicFault(s, i, k);
    forall j | 0 <= j < |s.app| ensures t.locked[j] == s.locked[j] { assert NodeOk(t, j, strict); }
    assert t.mem[i] == s.mem[s.owner] by { assert NodeOk(t, i, strict); }
    assert t.app == w.app && t.locked == w.locked && t.mem == w.mem && t.access == w.access;
  }

  /** What failed calls leave behind: nothing but the reader's entry in the copyset, or the writer's missing. */
  function Retrying(s: State, i: nat, a: App, registered: bool, k: Kind): State
    requires Shape(s) && i < |s.app|
  {
    s.(app := s.app[i := a],
       locked := SetLock(s.locked, i, a.Asking?),
       copyset := if registered then Registered(s, i, k) else s.copyset)
  }

  lemma WayGoesBack(s: State, t: State, i: nat, k: Kind, failed: bool, strict: bool)
    requires Calm(s) && OnTheWay(s, t, i, k, failed) && Inv(t, strict)
    requires t.svc.Free? && (t.app[i].NeedLock? || t.app[i].Asking?)
    ensures t == Retrying(s, i, t.app[i], failed, k)
  {
    var w := Retrying(s, i, t.app[i], failed, k);
    forall j | 0 <= j < |s.app| ensures t.locked[j] == w.locked[j] { assert NodeOk(t, j, strict); }
    assert t.app == w.app && t.locked == w.locked && t.mem == w.mem && t.access == w.access;
  }

  /**
   * A fault that no other fault or access disturbs, with any number of calls and fetches that fail and
   * are made again, which only calls to other nodes do: when its thread runs again it has come to the
   * one atomic step, and when it is between two tries nothing has changed but, after a failed fetch, the
   * requester's entry in the copyset.
   */
  lemma FaultWithRetries(s: State, i: nat, k: Kind, steps: seq<Step>, strict: bool)
    requires Calm(s) && Inv(s, strict) && Faults(s, i, k) && Run(Do(s, Fault(i, k)), steps, strict)
    requires forall j | 0 <= j < |steps| :: NoAccessOrFault(steps[j])
    ensures var t := Exec(Do(s, Fault(i, k)), steps, strict);
            && (t.app[i].Running? ==> t == AtomicFault(s, i, k))
            && (t.svc.Free? && (t.app[i].NeedLock? || t.app[i].Asking?) ==>
                  t == Retrying(s, i, t.app[i], FetchFailsIn(steps), k))
    ensures forall j | 0 <= j < |steps| :: MayFail(s, i, k, steps[j])
  {
    hide OnTheWay, Inv, Current, Retrying, AtomicFault, HandlesAs;
    var f := Do(s, Fault(i, k));
    StepKeeps(s, Fault(i, k), strict);
    WayBegins(s, i, k);
    RunOnTheWay(s, f, steps, i, k, false, strict);
    var t := Exec(f, steps, strict);
    if t.app[i].Running? {
      WayEnds(s, t, i, k, FetchFailsIn(steps), strict);
    } else if t.svc.Free? && (t.app[i].NeedLock? || t.app[i].Asking?) {
      WayGoesBack(s, t, i, k, FetchFailsIn(steps), strict);
    }
  }
}
