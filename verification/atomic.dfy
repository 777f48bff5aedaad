/** A fault that nothing disturbs, as one step: what the handlers amount to when they run alone. */
module AtomicFaults {
  import opened Types
  import opened PageProtocol
  import opened Coherence
  import opened ServiceProgress

  /** No fault is outstanding and no lock is held. */
  predicate Calm(s: State) {
    && Shape(s)
    && s.svc.Free?
    && (forall i | 0 <= i < |s.app| :: s.app[i].Running? && !s.locked[i])
  }

  predicate Faults(s: State, i: nat, k: Kind)
    requires Shape(s)
  {
    i < |s.app| && if k.Rd? then s.access[i].NoAccess? else !s.access[i].ReadWrite?
  }

  /** After a read fault: the owner and the reader both have the page read-only. */
  function AtomicRead(s: State, i: nat): (s': State)
    requires Shape(s) && i < |s.app|
    ensures Shape(s') && |s'.app| == |s.app|
  {
    s.(access := s.access[s.owner := ReadOnly][i := ReadOnly],
       mem := s.mem[i := s.mem[s.owner]],
       copyset := s.copyset + {i})
  }

  /** `access` closed at every node of `nodes`. */
  function Closed(access: seq<Access>, nodes: set<nat>): (r: seq<Access>)
    ensures |r| == |access|
  {
    seq(|access|, j requires 0 <= j < |access| => if j in nodes then NoAccess else access[j])
  }

  /** After a write fault: the writer owns the page and is the only one with access. */
  function AtomicWrite(s: State, i: nat): (s': State)
    requires Shape(s) && i < |s.app|
    ensures Shape(s') && |s'.app| == |s.app|
  {
    s.(access := Closed(s.access, s.copyset + {s.owner})[i := ReadWrite],
       mem := s.mem[i := s.mem[s.owner]],
       copyset := {},
       owner := i)
  }

  function AtomicFault(s: State, i: nat, k: Kind): (s': State)
    requires Shape(s) && i < |s.app|
  {
    if k.Rd? then AtomicRead(s, i) else AtomicWrite(s, i)
  }

  // ---------- runs by their end points ----------

  /** Steps in which nothing fails and no application accesses the page. */
  predicate Plain(steps: seq<Step>) {
    Smooth(steps) && forall k | 0 <= k < |steps| :: !steps[k].AppLoad? && !steps[k].AppStore?
  }

  ghost predicate Reaches(s: State, t: State, strict: bool)
    requires Shape(s)
  {
    exists steps :: Plain(steps) && Run(s, steps, strict) && Exec(s, steps, strict) == t
  }

  lemma Stay(s: State, strict: bool)
    requires Shape(s)
    ensures Reaches(s, s, strict)
  {
    assert Plain([]) && Run(s, [], strict) && Exec(s, [], strict) == s;
  }

  lemma Join(s: State, t: State, u: State, strict: bool)
    requires Shape(s) && Reaches(s, t, strict) && Shape(t) && Reaches(t, u, strict)
    ensures Reaches(s, u, strict)
  {
    hide Allowed, Do;
    var xs :| Plain(xs) && Run(s, xs, strict) && Exec(s, xs, strict) == t;
    var ys :| Plain(ys) && Run(t, ys, strict) && Exec(t, ys, strict) == u;
    RunAppend(s, xs, ys, strict);
    assert Plain(xs + ys);
  }

  lemma Then(s: State, t: State, st: Step, u: State, strict: bool)
    requires Shape(s) && Reaches(s, t, strict) && Shape(t) && Allowed(t, st, strict) && Do(t, st) == u
    requires !st.CallFails? && !st.FetchFails? && !st.AppLoad? && !st.AppStore?
    ensures Reaches(s, u, strict)
  {
    assert Run(u, [], strict) && Exec(u, [], strict) == u;
    RunCons(t, st, [], strict);
    assert [st] + [] == [st];
    assert Plain([st]) && Run(t, [st], strict) && Exec(t, [st], strict) == u;
    Join(s, t, u, strict);
  }

  // ---------- the stages of an undisturbed fault ----------

  /** The request has reached the manager, which has updated the copyset. */
  function Asked(s: State, i: nat, k: Kind): (t: State)
    requires Shape(s) && i < |s.app|
    ensures Shape(t)
  {
    s.(app := s.app[i := Asking(k)],
       locked := SetLock(s.locked, i, true),
       copyset := if k.Rd? then s.copyset + {i} else s.copyset - {i},
       svc := Serving(i, k, if k.Wr? && s.owner != 0 && s.owner == i then Fetched(None) else Calling))
  }

  /** The fault handler holds its node's page lock and has asked the manager. */
  function Requested(s: State, i: nat, k: Kind): (t: State)
    requires Shape(s) && i < |s.app|
    ensures Shape(t)
  {
    s.(app := s.app[i := Asking(k)], locked := SetLock(s.locked, i, true))
  }

  lemma RequestRun(s: State, i: nat, k: Kind, strict: bool)
    requires Shape(s) && Faults(s, i, k) && s.app[i].Running? && !s.locked[i]
    ensures Reaches(s, Requested(s, i, k), strict)
  {
    var s1 := s.(app := s.app[i := NeedLock(k)]);
    Stay(s, strict);
    Then(s, s, Fault(i, k), s1, strict);
    assert s1.app[i := Asking(k)] == Requested(s, i, k).app;
    Then(s, s1, TakeLock(i), Requested(s, i, k), strict);
  }

  lemma AskRun(s: State, i: nat, k: Kind, strict: bool)
    requires Calm(s) && Faults(s, i, k)
    ensures Reaches(s, Asked(s, i, k), strict)
  {
    var s2 := Requested(s, i, k);
    var s3 := s2.(svc := Serving(i, k, Begin));
    RequestRun(s, i, k, strict);
    Then(s, s2, StartService(i), s3, strict);
    Then(s, s3, Register, Asked(s, i, k), strict);
  }

  /** The owner has sent its page. */
  function FetchDone(t: State): (t': State)
    requires Shape(t) && t.svc.Serving?
    ensures Shape(t')
  {
    t.(access := t.access[t.owner := if t.svc.kind.Rd? then ReadOnly else NoAccess],
       svc := t.svc.(phase := Fetched(Some(t.mem[t.owner]))))
  }

  /** The handler at the owner has closed the page for writing and is about to copy it. */
  function Protected(t: State): (t': State)
    requires Shape(t) && t.svc.Serving?
    ensures Shape(t')
  {
    t.(locked := SetLock(t.locked, t.owner, true),
       access := t.access[t.owner := ReadOnly],
       svc := t.svc.(phase := Reading([])))
  }

  lemma ProtectRun(t: State, strict: bool)
    requires Shape(t) && t.svc.Serving? && t.svc.phase.Calling? && !t.locked[t.owner]
    ensures Reaches(t, Protected(t), strict)
  {
    var t1 := t.(locked := SetLock(t.locked, t.owner, true), svc := t.svc.(phase := FetchLocked));
    Stay(t, strict);
    Then(t, t, FetchLock, t1, strict);
    Then(t, t1, FetchProtect, Protected(t), strict);
  }

  lemma FetchRun(t: State, strict: bool)
    requires Shape(t) && t.svc.Serving? && t.svc.phase.Calling? && !t.locked[t.owner]
    ensures Reaches(t, FetchDone(t), strict)
  {
    var t2 := Protected(t);
    var t3 := t2.(svc := t.svc.(phase := Reading(t.mem[t.owner])));
    ProtectRun(t, strict);
    assert [] + t.mem[t.owner][0..CELLS] == t.mem[t.owner];
    Then(t, t2, CopyOut(CELLS), t3, strict);
    assert SetLock(t3.locked, t.owner, false) == t.locked;
    assert FetchDone(t).access == t3.access[t.owner := if t.svc.kind.Rd? then ReadOnly else NoAccess];
    Then(t, t3, FetchReturn, FetchDone(t), strict);
  }

  /** All of `todo` has been invalidated. */
  function RevokeDone(t: State): (t': State)
    requires Shape(t) && t.svc.Serving? && t.svc.phase.Revoking?
    ensures Shape(t')
  {
    t.(access := Closed(t.access, t.svc.phase.todo),
       svc := t.svc.(phase := t.svc.phase.(todo := {}, held := None)))
  }

  lemma {:induction false} RevokeRun(t: State, strict: bool)
    requires Shape(t) && t.svc.Serving? && t.svc.phase.Revoking? && t.svc.phase.held.None?
    requires forall z | z in t.svc.phase.todo :: !t.locked[z]
    ensures Reaches(t, RevokeDone(t), strict)
    decreases |t.svc.phase.todo|
  {
    hide Reaches;
    var todo := t.svc.phase.todo;
    Stay(t, strict);
    if todo == {} {
      assert RevokeDone(t) == t;
    } else {
      var z :| z in todo;
      var t1 := Do(t, RevokeLock(z));
      var t2 := Do(t1, RevokeReply);
      assert t2.locked == t.locked;
      Then(t, t, RevokeLock(z), t1, strict);
      Then(t, t1, RevokeReply, t2, strict);
      RevokeRun(t2, strict);
      assert Closed(t2.access, todo - {z}) == Closed(t.access, todo);
      assert RevokeDone(t2) == RevokeDone(t);
      Join(t, t2, RevokeDone(t), strict);
    }
  }

  /** The requester has finished, and its lock is free again. */
  function Installed(t: State): (t': State)
    requires Shape(t) && t.svc.Serving? && ReplyOf(t.svc).Some?
    ensures Shape(t')
  {
    var i := t.svc.req;
    var reply := ReplyOf(t.svc).value;
    t.(access := t.access[i := if t.svc.kind.Rd? then ReadOnly else ReadWrite],
       mem := if reply.Some? then t.mem[i := reply.value] else t.mem,
       app := t.app[i := Running],
       locked := SetLock(t.locked, i, false),
       svc := Free,
       owner := if t.svc.kind.Rd? then t.owner else i,
       copyset := if t.svc.kind.Rd? then t.copyset else {})
  }

  /** A handler with its answer copies it in, and leaves; only node i changes. */
  function Filled(u: State, i: nat, k: Kind, page: Page): (t: State)
    requires Shape(u) && i < |u.app|
    ensures Shape(t)
  {
    u.(app := u.app[i := Filling(k, page, CELLS)],
       access := u.access[i := ReadWrite],
       mem := u.mem[i := page])
  }

  function Left(u: State, i: nat, k: Kind, page: Page): (t: State)
    requires Shape(u) && i < |u.app|
    ensures Shape(t)
  {
    u.(app := u.app[i := Running],
       access := u.access[i := if k.Rd? then ReadOnly else ReadWrite],
       mem := u.mem[i := page],
       locked := SetLock(u.locked, i, false))
  }

  lemma FillRun(u: State, i: nat, k: Kind, page: Page, strict: bool)
    requires Shape(u) && i < |u.app| && u.app[i] == Granted(k, Some(page))
    ensures Reaches(u, Filled(u, i, k, page), strict)
  {
    var t2 := u.(app := u.app[i := Filling(k, page, 0)], access := u.access[i := ReadWrite]);
    Stay(u, strict);
    Then(u, u, BeginFill(i), t2, strict);
    assert CopyCells(u.mem[i], page, 0, CELLS) == page;
    assert t2.app[i := Filling(k, page, CELLS)] == Filled(u, i, k, page).app;
    Then(u, t2, CopyIn(i, CELLS), Filled(u, i, k, page), strict);
  }

  lemma LeaveRun(u: State, i: nat, k: Kind, page: Page, strict: bool)
    requires Shape(u) && i < |u.app| && u.app[i] == Granted(k, Some(page))
    ensures Reaches(u, Left(u, i, k, page), strict)
  {
    var t3, done := Filled(u, i, k, page), Left(u, i, k, page);
    var t4 := t3.(app := u.app[i := Leaving], access := done.access);
    FillRun(u, i, k, page, strict);
    assert t3.app[i := Leaving] == t4.app;
    assert t3.access[i := ReadOnly] == u.access[i := ReadOnly];
    Then(u, t3, EndFill(i), t4, strict);
    assert t4.app[i := Running] == done.app;
    Then(u, t4, Release(i), done, strict);
  }

  lemma InstallPage(t: State, page: Page, strict: bool)
    requires Shape(t) && Enabled(t, Finish) && ReplyOf(t.svc).value == Some(page)
    ensures Reaches(t, Installed(t), strict)
  {
    var i, k := t.svc.req, t.svc.kind;
    var t1 := Do(t, Finish);
    Stay(t, strict);
    Then(t, t, Finish, t1, strict);
    LeaveRun(t1, i, k, page, strict);
    assert t1.app[i := Running] == t.app[i := Running];
    assert Left(t1, i, k, page) == Installed(t);
    Join(t, t1, Installed(t), strict);
  }

  lemma OpenRun(u: State, i: nat, strict: bool)
    requires Shape(u) && i < |u.app| && u.app[i] == Granted(Wr, None)
    ensures Reaches(u, u.(app := u.app[i := Running], access := u.access[i := ReadWrite],
                          locked := SetLock(u.locked, i, false)), strict)
  {
    var t2 := u.(app := u.app[i := Leaving], access := u.access[i := ReadWrite]);
    Stay(u, strict);
    Then(u, u, BeginFill(i), t2, strict);
    assert t2.app[i := Running] == u.app[i := Running];
    Then(u, t2, Release(i), t2.(app := u.app[i := Running], locked := SetLock(u.locked, i, false)), strict);
  }

  lemma InstallNothing(t: State, strict: bool)
    requires Shape(t) && Enabled(t, Finish) && t.svc.kind.Wr? && ReplyOf(t.svc).value == None
    ensures Reaches(t, Installed(t), strict)
  {
    var i := t.svc.req;
    var t1 := Do(t, Finish);
    Stay(t, strict);
    Then(t, t, Finish, t1, strict);
    OpenRun(t1, i, strict);
    assert t1.app[i := Running] == t.app[i := Running];
    Join(t, t1, Installed(t), strict);
  }

  // ---------- whole faults ----------

  lemma UndisturbedRead(s: State, i: nat, strict: bool)
    requires Calm(s) && Inv(s, strict) && Faults(s, i, Rd)
    ensures Reaches(s, AtomicRead(s, i), strict)
  {
    var t := Asked(s, i, Rd);
    AskRun(s, i, Rd, strict);
    assert NodeOk(s, s.owner, strict);
    assert s.owner == i ==> i == 0;
    FetchRun(t, strict);
    Join(s, t, FetchDone(t), strict);
    InstallPage(FetchDone(t), s.mem[s.owner], strict);
    var u := Installed(FetchDone(t));
    assert u.app == s.app && u.locked == s.locked;
    assert u.access == AtomicRead(s, i).access;
    Join(s, FetchDone(t), u, strict);
  }

  /** The write service has its reply, and all other readers are invalidated. */
  lemma UndisturbedRevoke(s: State, i: nat, t: State, strict: bool)
    requires Calm(s) && Inv(s, strict) && Faults(s, i, Wr) && Shape(t)
    requires var a := Asked(s, i, Wr);
             t.svc.Serving? && t == a.(access := t.access, svc := a.svc.(phase := t.svc.phase)) && t.svc.phase.Fetched?
    ensures var r := RevokeDone(Do(t, StartRevoking)); Reaches(t, r, strict) && Enabled(r, Finish)
  {
    hide Reaches, Inv, Closed;
    var t1 := Do(t, StartRevoking);
    Stay(t, strict);
    Then(t, t, StartRevoking, t1, strict);
    RevokeRun(t1, strict);
    Join(t, t1, RevokeDone(t1), strict);
  }

  lemma UndisturbedWriteFetches(s: State, i: nat, strict: bool)
    requires Calm(s) && Inv(s, strict) && Faults(s, i, Wr) && (s.owner == 0 || s.owner != i)
    ensures Reaches(s, AtomicWrite(s, i), strict)
  {
    hide Reaches, Inv, AtomicWrite, Installed;
    var a := Asked(s, i, Wr);
    AskRun(s, i, Wr, strict);
    var t := FetchDone(a);
    FetchRun(a, strict);
    Join(s, a, t, strict);
    UndisturbedRevoke(s, i, t, strict);
    var r := RevokeDone(Do(t, StartRevoking));
    Join(s, t, r, strict);
    InstallPage(r, s.mem[s.owner], strict);
    WriteEnds(s, i, r, strict);
    Join(s, r, Installed(r), strict);
  }

  lemma UndisturbedUpgrade(s: State, i: nat, strict: bool)
    requires Calm(s) && Inv(s, strict) && Faults(s, i, Wr) && s.owner == i != 0
    ensures Reaches(s, AtomicWrite(s, i), strict)
  {
    var a := Asked(s, i, Wr);
    AskRun(s, i, Wr, strict);
    UndisturbedRevoke(s, i, a, strict);
    var r := RevokeDone(Do(a, StartRevoking));
    Join(s, a, r, strict);
    InstallNothing(r, strict);
    WriteEnds(s, i, r, strict);
    Join(s, r, Installed(r), strict);
  }

  lemma WriteEnds(s: State, i: nat, r: State, strict: bool)
    requires Calm(s) && Inv(s, strict) && Faults(s, i, Wr)
    requires var a := Asked(s, i, Wr);
             Shape(r) && r.svc.Serving? && r.svc.phase.Revoking? && r.svc.req == i && r.svc.kind.Wr? &&
             r == a.(access := r.access, svc := r.svc) &&
             (if a.svc.phase.Calling?
              then r.access == Closed(a.access[s.owner := NoAccess], a.copyset) &&
                   r.svc.phase.reply == Some(s.mem[s.owner])
              else r.access == Closed(a.access, a.copyset) && r.svc.phase.reply == None)
    ensures Installed(r) == AtomicWrite(s, i)
  {
    var u, w := Installed(r), AtomicWrite(s, i);
    assert u.app == s.app && u.locked == s.locked;
    assert u.access == w.access;
    assert u.mem == w.mem;
  }

  /** An undisturbed fault is one of the runs of the fine-grained machine, and ends in one atomic step. */
  lemma UndisturbedFault(s: State, i: nat, k: Kind, strict: bool)
    requires Calm(s) && Inv(s, strict) && Faults(s, i, k)
    ensures Reaches(s, AtomicFault(s, i, k), strict)
    ensures Calm(AtomicFault(s, i, k)) && Inv(AtomicFault(s, i, k), strict)
    ensures Current(AtomicFault(s, i, k)) == Current(s)
  {
    if k.Rd? {
      UndisturbedRead(s, i, strict);
    } else if s.owner == i != 0 {
      UndisturbedUpgrade(s, i, strict);
    } else {
      UndisturbedWriteFetches(s, i, strict);
    }
    var t := AtomicFault(s, i, k);
    var steps :| Plain(steps) && Run(s, steps, strict) && Exec(s, steps, strict) == t;
    RunKeeps(s, steps, strict);
    assert t.app == s.app && t.locked == s.locked;
  }
}
