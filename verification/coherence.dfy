/** What every step of the page protocol keeps. */
module Coherence {
  import opened Types
  import opened PageProtocol

  // ---------- the abstraction ----------

  /**
   * The current contents of the page: the one write reply on its way to the owner if there is one,
   * and the owner's memory otherwise.
   */
  function Current(s: State): Page
    requires Shape(s)
  {
    match s.app[s.owner]
    case Granted(Wr, Some(p)) => p
    case Filling(Wr, p, _) => p
    case _ => s.mem[s.owner]
  }

  // ---------- the invariant ----------

  predicate Holding(a: App) { a.Asking? || a.Granted? || a.Filling? || a.Leaving? }

  predicate ReadPending(a: App) { (a.Granted? || a.Filling?) && a.kind.Rd? }

  predicate WritePending(a: App) { (a.Granted? || a.Filling?) && a.kind.Wr? }

  /** Blocked in its own write fault, with no answer yet. */
  predicate WriteBlocked(a: App) { (a.NeedLock? || a.Asking?) && a.kind.Wr? }

  /** Access that a failed write fetch may have left behind; there is none without such a failure. */
  predicate Stale(a: App, strict: bool) { !strict && WriteBlocked(a) }

  /** Node i may change its copy, or is about to be able to. */
  predicate Exclusive(s: State, i: nat)
    requires Shape(s) && i < |s.app|
  {
    WritePending(s.app[i]) ||
    (s.access[i].ReadWrite? && !(s.app[i].Filling? && s.app[i].kind.Rd?))
  }

  predicate HandlerAt(s: State, i: nat) {
    s.svc.Serving? &&
    (((s.svc.phase.FetchLocked? || s.svc.phase.Reading?) && i == s.owner) ||
     (s.svc.phase.Revoking? && s.svc.phase.held == Some(i)))
  }

  /** The owner's page has been made read-only by the service. */
  predicate PastFetch(s: State) {
    s.svc.Serving? &&
    (s.svc.phase.Reading? || s.svc.phase.Fetched? || s.svc.phase.Revoking?)
  }

  /** Node i has been dealt with in the present round of invalidations. */
  predicate Revoked(s: State, i: nat) {
    s.svc.Serving? && s.svc.phase.Revoking? && i != s.svc.req && i !in s.svc.phase.todo &&
    s.svc.phase.held != Some(i)
  }

  /** The reply of the service, once it has one. */
  function ReplyOf(svc: Service): Option<Option<Page>> {
    if svc.Serving? && (svc.phase.Fetched? || svc.phase.Revoking?) then Some(svc.phase.reply) else None
  }

  predicate LockOk(s: State, i: nat)
    requires Shape(s) && i < |s.app|
  {
    && (s.locked[i] <==> i != 0 && (Holding(s.app[i]) || HandlerAt(s, i)))
    && (i != 0 && Holding(s.app[i]) ==> !HandlerAt(s, i))
    && (i == 0 && ZeroInstalls(s) ==> s.svc.Free? || (s.svc.kind.Rd? && s.app[0].kind.Rd?))
  }

  predicate SharingOk(s: State, i: nat, strict: bool)
    requires Shape(s) && i < |s.app|
  {
    var a := s.app[i];
    var open := !s.access[i].NoAccess?;
    && (Exclusive(s, i) ==> i == s.owner)
    && (i != s.owner && Exclusive(s, s.owner) ==> !ReadPending(a) && (open ==> Stale(a, strict)))
    && (open ==> i == s.owner || i in s.copyset || ReadPending(a) || Stale(a, strict)
                 || (s.svc.Serving? && s.svc.req == i && s.svc.kind.Wr?))
    && (ReadPending(a) ==> i in s.copyset)
    && (ReadPending(a) && i == s.owner ==> i == 0)
    && (ReadPending(a) && i != s.owner && s.access[s.owner].NoAccess? ==>
          s.svc.Serving? && s.svc.kind.Wr? && ReplyOf(s.svc).Some?)
    && (Revoked(s, i) ==> !ReadPending(a) && (open ==> Stale(a, strict)))
  }

  predicate ContentsOk(s: State, i: nat, strict: bool)
    requires Shape(s) && i < |s.app|
  {
    var a := s.app[i];
    && (a.Filling? ==> a.done <= CELLS && s.mem[i][..a.done] == a.page[..a.done])
    && (ReadPending(a) && a.Granted? ==> a.reply == Some(Current(s)))
    && (ReadPending(a) && a.Filling? ==> a.page == Current(s))
    && (!s.access[i].NoAccess? && (a.Running? || a.Leaving? || (strict && !a.Filling?)) ==>
          s.mem[i] == Current(s))
  }

  predicate FaultOk(s: State, i: nat)
    requires Shape(s) && i < |s.app|
  {
    var a := s.app[i];
    && (a.NeedLock? || a.Asking? ==> !s.access[i].ReadWrite?)
    && (a.Granted? && a.reply.None? ==> a.kind.Wr? && i != 0)
    && (a.Filling? && !(i == s.owner && a.kind.Rd?) ==> s.access[i].ReadWrite?)
    && ((a.NeedLock? || a.Asking?) && a.kind.Rd? && (i != 0 || s.owner != 0) ==> s.access[i].NoAccess?)
  }

  predicate NodeOk(s: State, i: nat, strict: bool)
    requires Shape(s) && i < |s.app|
  {
    LockOk(s, i) && SharingOk(s, i, strict) && ContentsOk(s, i, strict) && FaultOk(s, i)
  }

  predicate ServiceOk(s: State)
    requires Shape(s)
  {
    && (s.svc.Serving? ==>
          && s.app[s.svc.req] == Asking(s.svc.kind)
          && (s.svc.kind.Rd? && s.owner == s.svc.req ==> s.owner == 0)
          && (s.svc.phase.Calling? || s.svc.phase.FetchLocked? ==>
                && (s.owner == s.svc.req ==> s.owner == 0)
                && (s.svc.kind.Rd? <==> s.svc.req in s.copyset))
          && (s.svc.phase.Reading? ==>
                && (s.owner == s.svc.req ==> s.owner == 0)
                && (s.svc.kind.Rd? <==> s.svc.req in s.copyset)
                && !s.access[s.owner].NoAccess?
                && |s.svc.phase.buf| <= CELLS
                && s.svc.phase.buf == s.mem[s.owner][..|s.svc.phase.buf|])
          && (s.svc.phase.Fetched? ==> (s.svc.kind.Rd? <==> s.svc.req in s.copyset))
          && (s.svc.phase.Revoking? ==>
                && s.svc.kind.Wr?
                && s.svc.req !in s.svc.phase.todo
                && s.svc.phase.held != Some(s.svc.req)))
    && (ReplyOf(s.svc).Some? ==>
          match ReplyOf(s.svc).value
          case Some(p) =>
            && p == Current(s)
            && (s.owner == s.svc.req ==> s.owner == 0)
            && (s.svc.kind.Wr? <==> s.access[s.owner].NoAccess?)
          case None => s.svc.kind.Wr? && s.owner == s.svc.req != 0)
    && (PastFetch(s) ==> !Exclusive(s, s.owner))
    && (s.owner != 0 && s.access[s.owner].NoAccess? ==>
          WritePending(s.app[s.owner]) || (s.svc.Serving? && s.svc.kind.Wr? && ReplyOf(s.svc).Some?))
  }

  predicate Inv(s: State, strict: bool)
    requires Shape(s)
  {
    ServiceOk(s) && forall i | 0 <= i < |s.app| :: NodeOk(s, i, strict)
  }

  lemma InitInv(n: nat, strict: bool)
    requires n > 0
    ensures Shape(Init(n)) && Inv(Init(n), strict)
  {
  }

  // ---------- one lemma per step ----------

  lemma KeepStore(s: State, st: Step, strict: bool)
    requires Shape(s) && Inv(s, strict) && Allowed(s, st, strict) && st.AppStore?
    ensures Inv(Do(s, st), strict)
    ensures s.owner == st.node && Current(Do(s, st)) == Current(s)[st.off := st.value]
  {
    assert NodeOk(s, st.node, strict);
    var s' := Do(s, st);
    forall i | 0 <= i < |s.app| ensures NodeOk(s', i, strict) { assert NodeOk(s, i, strict); }
  }

  /** A step of node i alone: the other nodes keep their part of the invariant. */
  lemma KeepOthers(s: State, s': State, i: nat, strict: bool)
    requires Shape(s) && Inv(s, strict) && Shape(s') && i < |s.app| == |s'.app|
    requires s'.owner == s.owner && s'.copyset == s.copyset && s'.svc == s.svc
    requires forall j | 0 <= j < |s.app| && j != i ::
               s'.app[j] == s.app[j] && s'.access[j] == s.access[j] &&
               s'.mem[j] == s.mem[j] && s'.locked[j] == s.locked[j]
    requires Current(s') == Current(s)
    requires Exclusive(s', s.owner) ==> Exclusive(s, s.owner)
    requires s'.access[s.owner].NoAccess? ==> s.access[s.owner].NoAccess?
    requires NodeOk(s', i, strict) && ServiceOk(s')
    ensures Inv(s', strict)
  {
    forall j | 0 <= j < |s.app| ensures NodeOk(s', j, strict) { assert NodeOk(s, j, strict); }
  }

  lemma KeepFault(s: State, st: Step, strict: bool)
    requires Shape(s) && Inv(s, strict) && Allowed(s, st, strict) && st.Fault?
    ensures Inv(Do(s, st), strict)
    ensures Current(Do(s, st)) == Current(s)
  {
    assert NodeOk(s, st.node, strict) && NodeOk(s, s.owner, strict);
    KeepOthers(s, Do(s, st), st.node, strict);
  }

  lemma KeepTakeLock(s: State, st: Step, strict: bool)
    requires Shape(s) && Inv(s, strict) && Allowed(s, st, strict) && st.TakeLock?
    ensures Inv(Do(s, st), strict)
    ensures Current(Do(s, st)) == Current(s)
  {
    assert NodeOk(s, st.node, strict) && NodeOk(s, s.owner, strict);
    KeepOthers(s, Do(s, st), st.node, strict);
  }

  lemma KeepCallFails(s: State, st: Step, strict: bool)
    requires Shape(s) && Inv(s, strict) && Allowed(s, st, strict) && st.CallFails?
    ensures Inv(Do(s, st), strict)
    ensures Current(Do(s, st)) == Current(s)
  {
    assert NodeOk(s, st.node, strict) && NodeOk(s, s.owner, strict);
    KeepOthers(s, Do(s, st), st.node, strict);
  }

  lemma KeepRelease(s: State, st: Step, strict: bool)
    requires Shape(s) && Inv(s, strict) && Allowed(s, st, strict) && st.Release?
    ensures Inv(Do(s, st), strict)
    ensures Current(Do(s, st)) == Current(s)
  {
    assert NodeOk(s, st.node, strict) && NodeOk(s, s.owner, strict);
    KeepOthers(s, Do(s, st), st.node, strict);
  }

  lemma KeepBeginFill(s: State, st: Step, strict: bool)
    requires Shape(s) && Inv(s, strict) && Allowed(s, st, strict) && st.BeginFill?
    ensures Inv(Do(s, st), strict)
    ensures Current(Do(s, st)) == Current(s)
  {
    assert NodeOk(s, st.node, strict) && NodeOk(s, s.owner, strict);
    KeepOthers(s, Do(s, st), st.node, strict);
  }

  lemma KeepCopyIn(s: State, st: Step, strict: bool)
    requires Shape(s) && Inv(s, strict) && Allowed(s, st, strict) && st.CopyIn?
    ensures Inv(Do(s, st), strict)
    ensures Current(Do(s, st)) == Current(s)
  {
    assert NodeOk(s, st.node, strict) && NodeOk(s, s.owner, strict);
    KeepOthers(s, Do(s, st), st.node, strict);
  }

  lemma KeepEndFill(s: State, st: Step, strict: bool)
    requires Shape(s) && Inv(s, strict) && Allowed(s, st, strict) && st.EndFill?
    ensures Inv(Do(s, st), strict)
    ensures Current(Do(s, st)) == Current(s)
  {
    assert NodeOk(s, st.node, strict) && NodeOk(s, s.owner, strict);
    assert s.mem[st.node] == s.mem[st.node][..CELLS] == s.app[st.node].page;
    KeepOthers(s, Do(s, st), st.node, strict);
  }

  lemma KeepStart(s: State, st: Step, strict: bool)
    requires Shape(s) && Inv(s, strict) && Allowed(s, st, strict)
    requires st.StartService?
    ensures Inv(Do(s, st), strict)
    ensures Current(Do(s, st)) == Current(s)
  {
    assert NodeOk(s, s.owner, strict);
    var s' := Do(s, st);
    forall i | 0 <= i < |s.app| ensures NodeOk(s', i, strict) { assert NodeOk(s, i, strict); }
  }

  lemma KeepRegisterRead(s: State, st: Step, strict: bool)
    requires Shape(s) && Inv(s, strict) && Allowed(s, st, strict)
    requires st.Register? && s.svc.kind.Rd?
    ensures Inv(Do(s, st), strict)
    ensures Current(Do(s, st)) == Current(s)
  {
    assert NodeOk(s, s.owner, strict);
    var s' := Do(s, st);
    forall i | 0 <= i < |s.app| ensures NodeOk(s', i, strict) { assert NodeOk(s, i, strict); }
  }

  lemma KeepRegisterWrite(s: State, st: Step, strict: bool)
    requires Shape(s) && Inv(s, strict) && Allowed(s, st, strict)
    requires st.Register? && s.svc.kind.Wr?
    ensures Inv(Do(s, st), strict)
    ensures Current(Do(s, st)) == Current(s)
  {
    assert NodeOk(s, s.owner, strict);
    var s' := Do(s, st);
    forall i | 0 <= i < |s.app| ensures NodeOk(s', i, strict) { assert NodeOk(s, i, strict); }
  }

  lemma KeepFetchFails(s: State, st: Step, strict: bool)
    requires Shape(s) && Inv(s, strict) && Allowed(s, st, strict)
    requires st.FetchFails?
    ensures Inv(Do(s, st), strict)
    ensures Current(Do(s, st)) == Current(s)
  {
    assert NodeOk(s, s.owner, strict);
    var s' := Do(s, st);
    forall i | 0 <= i < |s.app| ensures NodeOk(s', i, strict) { assert NodeOk(s, i, strict); }
  }

  lemma KeepFetchLock(s: State, st: Step, strict: bool)
    requires Shape(s) && Inv(s, strict) && Allowed(s, st, strict)
    requires st.FetchLock?
    ensures Inv(Do(s, st), strict)
    ensures Current(Do(s, st)) == Current(s)
  {
    assert NodeOk(s, s.owner, strict);
    var s' := Do(s, st);
    forall i | 0 <= i < |s.app| ensures NodeOk(s', i, strict) { assert NodeOk(s, i, strict); }
  }

  lemma KeepProtect(s: State, st: Step, strict: bool)
    requires Shape(s) && Inv(s, strict) && Allowed(s, st, strict)
    requires st.FetchProtect?
    ensures Inv(Do(s, st), strict)
    ensures Current(Do(s, st)) == Current(s)
  {
    assert NodeOk(s, s.owner, strict);
    var s' := Do(s, st);
    forall i | 0 <= i < |s.app| ensures NodeOk(s', i, strict) { assert NodeOk(s, i, strict); }
  }

  lemma KeepCopyOut(s: State, st: Step, strict: bool)
    requires Shape(s) && Inv(s, strict) && Allowed(s, st, strict)
    requires st.CopyOut?
    ensures Inv(Do(s, st), strict)
    ensures Current(Do(s, st)) == Current(s)
  {
    assert NodeOk(s, s.owner, strict);
    var s' := Do(s, st);
    forall i | 0 <= i < |s.app| ensures NodeOk(s', i, strict) { assert NodeOk(s, i, strict); }
  }

  lemma KeepFetchReturn(s: State, st: Step, strict: bool)
    requires Shape(s) && Inv(s, strict) && Allowed(s, st, strict)
    requires st.FetchReturn?
    ensures Inv(Do(s, st), strict)
    ensures Current(Do(s, st)) == Current(s)
  {
    assert NodeOk(s, s.owner, strict);
    var s' := Do(s, st);
    forall i | 0 <= i < |s.app| ensures NodeOk(s', i, strict) { assert NodeOk(s, i, strict); }
  }

  lemma KeepStartRevoking(s: State, st: Step, strict: bool)
    requires Shape(s) && Inv(s, strict) && Allowed(s, st, strict)
    requires st.StartRevoking?
    ensures Inv(Do(s, st), strict)
    ensures Current(Do(s, st)) == Current(s)
  {
    assert NodeOk(s, s.owner, strict);
    var s' := Do(s, st);
    forall i | 0 <= i < |s.app| ensures NodeOk(s', i, strict) { assert NodeOk(s, i, strict); }
  }

  lemma KeepRevokeLock(s: State, st: Step, strict: bool)
    requires Shape(s) && Inv(s, strict) && Allowed(s, st, strict)
    requires st.RevokeLock?
    ensures Inv(Do(s, st), strict)
    ensures Current(Do(s, st)) == Current(s)
  {
    assert NodeOk(s, s.owner, strict);
    var s' := Do(s, st);
    forall i | 0 <= i < |s.app| ensures NodeOk(s', i, strict) { assert NodeOk(s, i, strict); }
  }

  lemma KeepRevokeReply(s: State, st: Step, strict: bool)
    requires Shape(s) && Inv(s, strict) && Allowed(s, st, strict)
    requires st.RevokeReply?
    ensures Inv(Do(s, st), strict)
    ensures Current(Do(s, st)) == Current(s)
  {
    assert NodeOk(s, s.owner, strict);
    var s' := Do(s, st);
    forall i | 0 <= i < |s.app| ensures NodeOk(s', i, strict) { assert NodeOk(s, i, strict); }
  }

  lemma KeepFinishRead(s: State, st: Step, strict: bool)
    requires Shape(s) && Inv(s, strict) && Allowed(s, st, strict)
    requires st.Finish? && s.svc.kind.Rd?
    ensures Inv(Do(s, st), strict)
    ensures Current(Do(s, st)) == Current(s)
  {
    assert NodeOk(s, s.owner, strict);
    var s' := Do(s, st);
    forall i | 0 <= i < |s.app| ensures NodeOk(s', i, strict) { assert NodeOk(s, i, strict); }
  }

  lemma KeepFinishWrite(s: State, st: Step, strict: bool)
    requires Shape(s) && Inv(s, strict) && Allowed(s, st, strict)
    requires st.Finish? && s.svc.kind.Wr?
    ensures Inv(Do(s, st), strict)
    ensures Current(Do(s, st)) == Current(s)
  {
    assert NodeOk(s, s.owner, strict);
    var s' := Do(s, st);
    forall i | 0 <= i < |s.app| ensures NodeOk(s', i, strict) { assert NodeOk(s, i, strict); }
  }

  // ---------- any step, any run ----------

  function CurrentAfter(s: State, st: Step): Page
    requires Shape(s)
  {
    if st.AppStore? && st.off < CELLS then Current(s)[st.off := st.value] else Current(s)
  }

  /** Every step keeps the invariant, and only a store changes the current contents. */
  lemma StepKeeps(s: State, st: Step, strict: bool)
    requires Shape(s) && Inv(s, strict) && Allowed(s, st, strict)
    ensures Inv(Do(s, st), strict)
    ensures Current(Do(s, st)) == CurrentAfter(s, st)
    ensures st.AppLoad? ==> s.mem[st.node] == Current(s)
  {
    match st
    case AppLoad(i, _) => assert NodeOk(s, i, strict);
    case AppStore(_, _, _) => KeepStore(s, st, strict);
    case Fault(_, _) => KeepFault(s, st, strict);
    case TakeLock(_) => KeepTakeLock(s, st, strict);
    case CallFails(_) => KeepCallFails(s, st, strict);
    case BeginFill(_) => KeepBeginFill(s, st, strict);
    case CopyIn(_, _) => KeepCopyIn(s, st, strict);
    case EndFill(_) => KeepEndFill(s, st, strict);
    case Release(_) => KeepRelease(s, st, strict);
    case StartService(_) => KeepStart(s, st, strict);
    case Register =>
      if s.svc.kind.Rd? { KeepRegisterRead(s, st, strict); } else { KeepRegisterWrite(s, st, strict); }
    case FetchLock => KeepFetchLock(s, st, strict);
    case FetchProtect => KeepProtect(s, st, strict);
    case CopyOut(_) => KeepCopyOut(s, st, strict);
    case FetchReturn => KeepFetchReturn(s, st, strict);
    case FetchFails => KeepFetchFails(s, st, strict);
    case StartRevoking => KeepStartRevoking(s, st, strict);
    case RevokeLock(_) => KeepRevokeLock(s, st, strict);
    case RevokeReply => KeepRevokeReply(s, st, strict);
    case RevokeFails =>
    case Finish =>
      if s.svc.kind.Rd? { KeepFinishRead(s, st, strict); } else { KeepFinishWrite(s, st, strict); }
  }

  lemma {:induction false} RunKeeps(s: State, steps: seq<Step>, strict: bool)
    requires Shape(s) && Inv(s, strict) && Run(s, steps, strict)
    ensures Inv(Exec(s, steps, strict), strict)
    decreases |steps|
  {
    if steps == [] {
    } else {
      StepKeeps(s, steps[0], strict);
      RunKeeps(Do(s, steps[0]), steps[1..], strict);
    }
  }
}
