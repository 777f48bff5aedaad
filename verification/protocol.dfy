/**
 * The life of one page of the shared region, step by step.
 *
 * Every interleaving of application accesses, fault handlers, the manager's service and the remote
 * handlers is a sequence of `Step`s; `Enabled` says when a step can be taken and `Do` what it changes.
 * A thread that waits for a lock or for an answer simply has no enabled step.
 */
module PageProtocol {
  import opened Types

  datatype Kind = Rd | Wr

  // The page protection of one node.
  datatype Access = NoAccess | ReadOnly | ReadWrite

  /**
   * The application thread of one node. A fault handler first takes the node's page lock (not on
   * node 0), asks the manager, and installs the reply: it opens the page, copies the contents in,
   * and for a read closes the page to read-only again.
   */
  datatype App =
    | Running
    | NeedLock(kind: Kind)
    | Asking(kind: Kind)
    | Granted(kind: Kind, reply: Option<Page>)
    | Filling(kind: Kind, page: Page, done: nat)
    | Leaving

  /** Where the manager is in serving a request; `todo` are the readers still to be invalidated. */
  datatype Phase =
    | Begin
    | Calling
    | FetchLocked
    | Reading(buf: seq<Word>)
    | Fetched(reply: Option<Page>)
    | Revoking(reply: Option<Page>, todo: set<nat>, held: Option<nat>)

  // `Free` means that the manager's lock for the page is not taken.
  datatype Service = Free | Serving(req: nat, kind: Kind, phase: Phase)

  datatype State = State(
    access: seq<Access>,
    mem: seq<Page>,
    locked: seq<bool>,
    app: seq<App>,
    owner: nat,
    copyset: set<nat>,
    svc: Service)

  datatype Step =
    | AppLoad(node: nat, off: nat)
    | AppStore(node: nat, off: nat, value: Word)
    | Fault(node: nat, kind: Kind)
    | TakeLock(node: nat)
    | CallFails(node: nat)
    | BeginFill(node: nat)
    | CopyIn(node: nat, count: nat)
    | EndFill(node: nat)
    | Release(node: nat)
    | StartService(node: nat)
    | Register
    | FetchLock
    | FetchProtect
    | CopyOut(count: nat)
    | FetchReturn
    | FetchFails
    | StartRevoking
    | RevokeLock(node: nat)
    | RevokeReply
    | RevokeFails
    | Finish

  /** After the region is mapped: zeroed, closed everywhere, and recorded as owned by node 0. */
  function Init(n: nat): (s: State)
    requires n > 0
  {
    State(seq(n, _ => NoAccess), seq(n, _ => ZeroPage()), seq(n, _ => false), seq(n, _ => Running),
          0, {}, Free)
  }

  predicate Shape(s: State) {
    && 0 < |s.app| == |s.access| == |s.mem| == |s.locked|
    && s.owner < |s.app|
    && (forall i | i in s.copyset :: i < |s.app|)
    && (s.svc.Serving? ==>
          && s.svc.req < |s.app|
          && (s.svc.phase.Revoking? ==>
                && (forall i | i in s.svc.phase.todo :: i < |s.app|)
                && (s.svc.phase.held.Some? ==> s.svc.phase.held.value < |s.app|)))
  }

  /** Copying a reply in needs the page open for writing; a handler that finds it closed goes no further. */
  predicate Enabled(s: State, st: Step)
    requires Shape(s)
  {
    match st
    case AppLoad(i, off) =>
      i < |s.app| && off < CELLS && s.app[i].Running? && !s.access[i].NoAccess?
    case AppStore(i, off, _) =>
      i < |s.app| && off < CELLS && s.app[i].Running? && s.access[i].ReadWrite?
    case Fault(i, k) =>
      i < |s.app| && s.app[i].Running? &&
      (if k.Rd? then s.access[i].NoAccess? else !s.access[i].ReadWrite?)
    case TakeLock(i) =>
      i < |s.app| && s.app[i].NeedLock? && (i != 0 ==> !s.locked[i])
    case CallFails(i) =>
      0 < i < |s.app| && s.app[i].Asking? && !(s.svc.Serving? && s.svc.req == i)
    case BeginFill(i) =>
      i < |s.app| && s.app[i].Granted? && (s.app[i].kind.Rd? ==> s.app[i].reply.Some?)
    case CopyIn(i, count) =>
      i < |s.app| && s.app[i].Filling? && s.access[i].ReadWrite? && 0 < count && s.app[i].done + count <= CELLS
    case EndFill(i) =>
      i < |s.app| && s.app[i].Filling? && s.app[i].done == CELLS
    case Release(i) =>
      i < |s.app| && s.app[i].Leaving?
    case StartService(i) =>
      i < |s.app| && s.svc.Free? && s.app[i].Asking?
    case Register =>
      s.svc.Serving? && s.svc.phase.Begin?
    case FetchLock =>
      s.svc.Serving? && s.svc.phase.Calling? && (s.owner != 0 ==> !s.locked[s.owner])
    case FetchProtect =>
      s.svc.Serving? && s.svc.phase.FetchLocked?
    case CopyOut(count) =>
      s.svc.Serving? && s.svc.phase.Reading? && 0 < count && |s.svc.phase.buf| + count <= CELLS
    case FetchReturn =>
      s.svc.Serving? && s.svc.phase.Reading? && |s.svc.phase.buf| == CELLS
    case FetchFails =>
      s.svc.Serving? && s.svc.phase.Calling? && s.owner != 0
    case StartRevoking =>
      s.svc.Serving? && s.svc.kind.Wr? && s.svc.phase.Fetched?
    case RevokeLock(z) =>
      s.svc.Serving? && s.svc.phase.Revoking? && s.svc.phase.held.None? &&
      z in s.svc.phase.todo && (z != 0 ==> !s.locked[z])
    case RevokeReply =>
      s.svc.Serving? && s.svc.phase.Revoking? && s.svc.phase.held.Some?
    case RevokeFails =>
      s.svc.Serving? && s.svc.phase.Revoking? && s.svc.phase.held.None? && s.svc.phase.todo != {}
    case Finish =>
      s.svc.Serving? && s.app[s.svc.req].Asking? &&
      (if s.svc.kind.Rd? then s.svc.phase.Fetched?
       else s.svc.phase.Revoking? && s.svc.phase.todo == {} && s.svc.phase.held.None?)
  }

  /** `page` with the words [from, from + count) taken from `source`. */
  function CopyCells(page: Page, source: Page, from: nat, count: nat): Page
    requires from + count <= CELLS
  {
    page[..from] + source[from..from + count] + page[from + count..]
  }

  // Node 0 takes no page lock in its fault handler and in the handlers it runs for itself.
  function SetLock(locked: seq<bool>, i: nat, held: bool): seq<bool>
    requires i < |locked|
  {
    if i == 0 then locked else locked[i := held]
  }

  /** Steps of the application threads and their fault handlers. */
  predicate ThreadStep(st: Step) {
    st.AppLoad? || st.AppStore? || st.Fault? || st.TakeLock? || st.CallFails? ||
    st.BeginFill? || st.CopyIn? || st.EndFill? || st.Release?
  }

  function DoThread(s: State, st: Step): (s': State)
    requires Shape(s) && Enabled(s, st) && ThreadStep(st)
    ensures Shape(s') && |s'.app| == |s.app|
  {
    match st
    case AppLoad(i, off) => s
    case AppStore(i, off, v) => s.(mem := s.mem[i := s.mem[i][off := v]])
    case Fault(i, k) => s.(app := s.app[i := NeedLock(k)])
    case TakeLock(i) =>
      s.(app := s.app[i := Asking(s.app[i].kind)], locked := SetLock(s.locked, i, true))
    case CallFails(i) =>
      s.(app := s.app[i := NeedLock(s.app[i].kind)], locked := SetLock(s.locked, i, false))
    case BeginFill(i) =>
      var next := if s.app[i].reply.Some? then Filling(s.app[i].kind, s.app[i].reply.value, 0) else Leaving;
      s.(app := s.app[i := next], access := s.access[i := ReadWrite])
    case CopyIn(i, count) =>
      var a := s.app[i];
      s.(app := s.app[i := a.(done := a.done + count)],
         mem := s.mem[i := CopyCells(s.mem[i], a.page, a.done, count)])
    case EndFill(i) =>
      s.(app := s.app[i := Leaving],
         access := if s.app[i].kind.Rd? then s.access[i := ReadOnly] else s.access)
    case Release(i) =>
      s.(app := s.app[i := Running], locked := SetLock(s.locked, i, false))
  }

  /** Steps of the manager's service and of the handlers it calls. */
  function DoService(s: State, st: Step): (s': State)
    requires Shape(s) && Enabled(s, st) && !ThreadStep(st)
    ensures Shape(s') && |s'.app| == |s.app|
  {
    match st
    case StartService(i) =>
      s.(svc := Serving(i, s.app[i].kind, Begin))
    case Register =>
      if s.svc.kind.Rd? then
        s.(copyset := s.copyset + {s.svc.req}, svc := s.svc.(phase := Calling))
      else
        s.(copyset := s.copyset - {s.svc.req},
           svc := s.svc.(phase := if s.owner != 0 && s.owner == s.svc.req then Fetched(None) else Calling))
    case FetchLock =>
      s.(locked := SetLock(s.locked, s.owner, true), svc := s.svc.(phase := FetchLocked))
    case FetchProtect =>
      s.(access := s.access[s.owner := ReadOnly], svc := s.svc.(phase := Reading([])))
    case CopyOut(count) =>
      var buf := s.svc.phase.buf;
      s.(svc := s.svc.(phase := Reading(buf + s.mem[s.owner][|buf|..|buf| + count])))
    case FetchReturn =>
      s.(access := s.access[s.owner := if s.svc.kind.Rd? then ReadOnly else NoAccess],
         locked := SetLock(s.locked, s.owner, false),
         svc := s.svc.(phase := Fetched(Some(s.svc.phase.buf))))
    case FetchFails =>
      s.(svc := Free)
    case StartRevoking =>
      s.(svc := s.svc.(phase := Revoking(s.svc.phase.reply, s.copyset, None)))
    case RevokeLock(z) =>
      s.(locked := SetLock(s.locked, z, true),
         svc := s.svc.(phase := s.svc.phase.(todo := s.svc.phase.todo - {z}, held := Some(z))))
    case RevokeReply =>
      var z := s.svc.phase.held.value;
      s.(access := s.access[z := NoAccess], locked := SetLock(s.locked, z, false),
         svc := s.svc.(phase := s.svc.phase.(held := None)))
    case RevokeFails =>
      s.(svc := s.svc.(phase := s.svc.phase.(todo := {})))
    case Finish =>
      var r := s.svc.req;
      if s.svc.kind.Rd? then
        s.(app := s.app[r := Granted(Rd, s.svc.phase.reply)], svc := Free)
      else
        s.(app := s.app[r := Granted(Wr, s.svc.phase.reply)], svc := Free, owner := r, copyset := {})
  }

  function Do(s: State, st: Step): (s': State)
    requires Shape(s) && Enabled(s, st)
    ensures Shape(s') && |s'.app| == |s.app|
  {
    if ThreadStep(st) then DoThread(s, st) else DoService(s, st)
  }

  /** Node 0 has a reply that it has not installed yet. */
  predicate ZeroInstalls(s: State)
    requires Shape(s)
  {
    s.app[0].Granted? || s.app[0].Filling?
  }

  /**
   * The hypothesis on node 0: its fault handler does not hold a page lock while it installs a reply,
   * so no service may start in that window, unless both the reply and the request are for reading.
   * It holds trivially when node 0 only serves.
   */
  predicate Guard(s: State, st: Step)
    requires Shape(s) && Enabled(s, st)
  {
    st.StartService? && ZeroInstalls(s) ==> s.app[0].kind.Rd? && s.app[st.node].kind.Rd?
  }

  /** The manager ignores an invalidation that fails and skips the remaining ones. */
  predicate LostInvalidation(st: Step) { st.RevokeFails? }

  /** A fetch that fails after the writer was erased from the copyset. */
  predicate FailedWriteFetch(s: State, st: Step) {
    st.FetchFails? && s.svc.Serving? && s.svc.kind.Wr?
  }

  /** With `strict`, the run has no failed write fetch. */
  predicate Allowed(s: State, st: Step, strict: bool)
    requires Shape(s)
  {
    Enabled(s, st) && Guard(s, st) && !LostInvalidation(st) && (strict ==> !FailedWriteFetch(s, st))
  }

  predicate Run(s: State, steps: seq<Step>, strict: bool)
    requires Shape(s)
    decreases |steps|
  {
    steps == [] || (Allowed(s, steps[0], strict) && Run(Do(s, steps[0]), steps[1..], strict))
  }

  function Exec(s: State, steps: seq<Step>, strict: bool): (s': State)
    requires Shape(s) && Run(s, steps, strict)
    ensures Shape(s') && |s'.app| == |s.app|
    decreases |steps|
  {
    if steps == [] then s else Exec(Do(s, steps[0]), steps[1..], strict)
  }
}
