/** Runs that show why each hypothesis is there: what the code does where its promises end. */
module Races {
  import opened Types
  import opened FlatMemory
  import opened PageProtocol
  import opened Coherence
  import opened ServiceProgress
  import opened AtomicFaults
  import opened SharedRegion

  // ---------- runs without the hypotheses ----------

  /** Any enabled step may be taken: services race with node 0, and calls are lost. */
  predicate RawRun(s: State, steps: seq<Step>)
    requires Shape(s)
    decreases |steps|
  {
    steps == [] || (Enabled(s, steps[0]) && RawRun(Do(s, steps[0]), steps[1..]))
  }

  function RawExec(s: State, steps: seq<Step>): (t: State)
    requires Shape(s) && RawRun(s, steps)
    ensures Shape(t) && |t.app| == |s.app|
    decreases |steps|
  {
    if steps == [] then s else RawExec(Do(s, steps[0]), steps[1..])
  }

  function RawEvents(s: State, steps: seq<Step>): seq<Event>
    requires Shape(s) && RawRun(s, steps)
    decreases |steps|
  {
    if steps == [] then [] else EventsOf(s, 0, steps[0]) + RawEvents(Do(s, steps[0]), steps[1..])
  }

  /** A run from s to t in which the applications see exactly `events`. */
  ghost predicate Leads(s: State, events: seq<Event>, t: State)
    requires Shape(s)
  {
    exists steps :: RawRun(s, steps) && RawExec(s, steps) == t && RawEvents(s, steps) == events
  }

  lemma {:induction false} RawAppend(s: State, xs: seq<Step>, ys: seq<Step>)
    requires Shape(s) && RawRun(s, xs) && RawRun(RawExec(s, xs), ys)
    ensures RawRun(s, xs + ys)
    ensures RawExec(s, xs + ys) == RawExec(RawExec(s, xs), ys)
    ensures RawEvents(s, xs + ys) == RawEvents(s, xs) + RawEvents(RawExec(s, xs), ys)
    decreases |xs|
  {
    hide Do, Enabled;
    if xs == [] {
      assert xs + ys == ys;
    } else {
      assert (xs + ys)[0] == xs[0] && (xs + ys)[1..] == xs[1..] + ys;
      RawAppend(Do(s, xs[0]), xs[1..], ys);
    }
  }

  lemma LeadsJoin(s: State, xs: seq<Event>, t: State, ys: seq<Event>, u: State)
    requires Shape(s) && Leads(s, xs, t) && Shape(t) && Leads(t, ys, u)
    ensures Leads(s, xs + ys, u)
  {
    var a :| RawRun(s, a) && RawExec(s, a) == t && RawEvents(s, a) == xs;
    var b :| RawRun(t, b) && RawExec(t, b) == u && RawEvents(t, b) == ys;
    RawAppend(s, a, b);
  }

  lemma LeadsThen(s: State, xs: seq<Event>, t: State, st: Step, u: State)
    requires Shape(s) && Leads(s, xs, t) && Shape(t) && Enabled(t, st) && Do(t, st) == u
    ensures Leads(s, xs + EventsOf(t, 0, st), u)
  {
    assert [st][1..] == [];
    assert RawRun(u, []) && RawExec(u, []) == u;
    assert RawRun(t, [st]) && RawExec(t, [st]) == u;
    assert RawEvents(t, [st]) == EventsOf(t, 0, st) + [];
    assert EventsOf(t, 0, st) + [] == EventsOf(t, 0, st);
    LeadsJoin(s, xs, t, EventsOf(t, 0, st), u);
  }

  lemma {:induction false} RawFromRun(s: State, steps: seq<Step>, strict: bool)
    requires Shape(s) && Run(s, steps, strict) && Plain(steps)
    ensures RawRun(s, steps) && RawExec(s, steps) == Exec(s, steps, strict) && RawEvents(s, steps) == []
    decreases |steps|
  {
    if steps == [] {
    } else {
      assert steps[0] == steps[0];
      assert forall k | 0 <= k < |steps[1..]| :: steps[1..][k] == steps[k + 1];
      RawFromRun(Do(s, steps[0]), steps[1..], strict);
    }
  }

  lemma LeadsPlain(s: State, xs: seq<Event>, t: State, u: State, strict: bool)
    requires Shape(s) && Leads(s, xs, t) && Shape(t) && Reaches(t, u, strict)
    ensures Leads(s, xs, u)
  {
    var steps :| Plain(steps) && Run(t, steps, strict) && Exec(t, steps, strict) == u;
    RawFromRun(t, steps, strict);
    LeadsJoin(s, xs, t, [], u);
    assert xs + [] == xs;
  }

  // ---------- node 0 installs without its lock ----------

  /**
   * If a service for a reader starts while a write grant of node 0 is not yet installed, the reader
   * can be sent node 0's old memory, although the current contents are those of the grant.
   */
  lemma GuardIsNeeded(s: State, x: nat, page: Page, strict: bool)
    requires Shape(s) && Inv(s, strict) && s.svc.Free? && s.app[0] == Granted(Wr, Some(page))
    requires 0 < x < |s.app| && s.app[x] == Asking(Rd)
    ensures Current(s) == page && !Guard(s, StartService(x))
    ensures exists t :: Shape(t) && |t.app| == |s.app| && Leads(s, [], t) &&
                        t.app[x] == Granted(Rd, Some(s.mem[0])) && t.owner == 0 && t.app[0] == s.app[0]
  {
    assert NodeOk(s, 0, strict);
    var t := StalelyServed(s, x);
    ServedStale(s, x);
  }

  /** The state in which reader x has been sent what node 0 has in memory. */
  function StalelyServed(s: State, x: nat): (t: State)
    requires Shape(s) && x < |s.app|
    ensures Shape(t)
  {
    s.(access := s.access[s.owner := ReadOnly],
       app := s.app[x := Granted(Rd, Some(s.mem[s.owner]))],
       copyset := s.copyset + {x},
       svc := Free)
  }

  lemma ServedStale(s: State, x: nat)
    requires Shape(s) && s.svc.Free? && x < |s.app| && s.app[x] == Asking(Rd) && !s.locked[s.owner]
    ensures Leads(s, [], StalelyServed(s, x))
  {
    var s1 := s.(svc := Serving(x, Rd, Begin));
    var s2 := s.(copyset := s.copyset + {x}, svc := Serving(x, Rd, Calling));
    assert RawRun(s, []) && RawExec(s, []) == s && RawEvents(s, []) == [];
    assert Leads(s, [], s);
    LeadsThen(s, [], s, StartService(x), s1);
    LeadsThen(s, [], s1, Register, s2);
    FetchRun(s2, false);
    LeadsPlain(s, [], s2, FetchDone(s2), false);
    LeadsThen(s, [], FetchDone(s2), Finish, StalelyServed(s, x));
  }

  lemma LeadsStay(s: State)
    requires Shape(s)
    ensures Leads(s, [], s)
  {
    assert RawRun(s, []) && RawExec(s, []) == s && RawEvents(s, []) == [];
  }

  /** Node `i` has the page read-write in a calm state and has just stored 7 in the first word. */
  function Stored(s: State, i: nat): (t: State)
    requires Shape(s) && i < |s.app|
    ensures Shape(t)
  {
    s.(mem := s.mem[i := s.mem[i][0 := 7]])
  }

  /** Node 0 owns the page, and the contents are still in its grant. */
  function GrantToZero(s: State): (t: State)
    requires Shape(s)
    ensures Shape(t)
  {
    s.(access := s.access[s.owner := NoAccess],
       app := s.app[0 := Granted(Wr, Some(s.mem[s.owner]))],
       owner := 0)
  }

  /** A write service with nobody to invalidate goes from its reply straight to the grant. */
  lemma GrantRun(t: State, strict: bool)
    requires Shape(t) && Enabled(t, StartRevoking) && t.copyset == {} && t.app[t.svc.req].Asking?
    ensures Reaches(t, Granting(t), strict)
  {
    var t1 := t.(svc := t.svc.(phase := Revoking(t.svc.phase.reply, {}, None)));
    Stay(t, strict);
    Then(t, t, StartRevoking, t1, strict);
    Then(t, t1, Finish, Granting(t), strict);
  }

  function Granting(t: State): (t': State)
    requires Shape(t) && Enabled(t, StartRevoking)
    ensures Shape(t')
  {
    t.(app := t.app[t.svc.req := Granted(Wr, t.svc.phase.reply)], svc := Free, owner := t.svc.req, copyset := {})
  }

  lemma ZeroIsGranted(s: State, strict: bool)
    requires Calm(s) && Inv(s, strict) && Faults(s, 0, Wr) && s.owner != 0 && s.copyset == {}
    ensures Reaches(s, GrantToZero(s), strict)
  {
    var a := Asked(s, 0, Wr);
    AskRun(s, 0, Wr, strict);
    var t := FetchDone(a);
    FetchRun(a, strict);
    Join(s, a, t, strict);
    GrantRun(t, strict);
    assert Granting(t).app == GrantToZero(s).app;
    Join(s, t, Granting(t), strict);
  }

  lemma WriterReady(n: nat, i: nat, strict: bool) returns (s: State)
    requires i < n && n > 1
    ensures s == Stored(AtomicWrite(Init(n), i), i) && Calm(s) && Inv(s, strict)
    ensures Leads(Init(n), [Store(i, 0, 7)], s)
  {
    var s1 := AtomicWrite(Init(n), i);
    InitInv(n, strict);
    UndisturbedFault(Init(n), i, Wr, strict);
    s := Stored(s1, i);
    LeadsStay(Init(n));
    LeadsPlain(Init(n), [], Init(n), s1, strict);
    LeadsThen(Init(n), [], s1, AppStore(i, 0, 7), s);
    StepKeeps(s1, AppStore(i, 0, 7), strict);
    assert [] + [Store(i, 0, 7)] == [Store(i, 0, 7)];
  }

  /** From there the reader asks, is sent zeros, and loads one. */
  lemma ReaderLoadsZero(g: State) returns (w: State)
    requires Shape(g) && |g.app| == 2 && g.svc.Free? && g.owner == 0 && g.mem[0] == ZeroPage()
    requires g.app[1].Running? && g.access[1].NoAccess? && !g.locked[0] && !g.locked[1]
    ensures Shape(w) && |w.app| == 2 && Leads(g, [], w)
    ensures w.app[1].Running? && !w.access[1].NoAccess? && w.mem[1] == ZeroPage()
  {
    var q := Requested(g, 1, Rd);
    RequestRun(g, 1, Rd, true);
    LeadsStay(g);
    LeadsPlain(g, [], g, q, true);
    var v := StalelyServed(q, 1);
    ServedStale(q, 1);
    LeadsJoin(g, [], q, [], v);
    w := Left(v, 1, Rd, ZeroPage());
    LeaveRun(v, 1, Rd, ZeroPage(), true);
    LeadsPlain(g, [], v, w, true);
  }

  /** Node 0 as a faulting node, unguarded: a node stores 7, and then loads 0 from the same word. */
  lemma NodeZeroLosesAStore()
    ensures exists events, t :: Leads(Init(2), events, t) && !Legal(ZeroMemory(1), events)
  {
    hide Inv, Leads, Reaches;
    var events := [Store(1, 0, 7)];
    var s := WriterReady(2, 1, true);
    var g := GrantToZero(s);
    ZeroIsGranted(s, true);
    LeadsPlain(Init(2), events, s, g, true);
    var w := ReaderLoadsZero(g);
    LeadsJoin(Init(2), events, g, [], w);
    assert events + [] == events;
    LeadsThen(Init(2), events, w, AppLoad(1, 0), w);
    IllegalLoad(ZeroMemory(1), 1, 1);
  }

  lemma IllegalLoad(m: Memory, i: nat, j: nat)
    requires |m| > 0
    ensures !Legal(m, [Store(i, 0, 7)] + [Load(j, 0, 0)])
  {
    var events := [Store(i, 0, 7)] + [Load(j, 0, 0)];
    assert events[1..] == [Load(j, 0, 0)];
  }

  // ---------- the manager ignores a failed invalidation ----------

  /** Node 2 owns a zero page that node 1 reads too. */
  predicate OwnerAndReader(s: State) {
    && Calm(s) && |s.app| == 3 && s.owner == 2 && s.copyset == {1}
    && s.access[1].ReadOnly? && s.access[2].ReadOnly? && s.mem[1] == ZeroPage()
  }

  lemma OwnerAndReaderReached(strict: bool) returns (s: State)
    ensures OwnerAndReader(s) && Inv(s, strict) && Reaches(Init(3), s, strict)
  {
    hide Inv, Reaches;
    var s1 := AtomicWrite(Init(3), 2);
    s := AtomicRead(s1, 1);
    InitInv(3, strict);
    UndisturbedFault(Init(3), 2, Wr, strict);
    UndisturbedFault(s1, 1, Rd, strict);
    Join(Init(3), s1, s, strict);
  }

  /** Node 2 has upgraded, and node 1 still has its copy. */
  function Upgraded(s: State): (t: State)
    requires Shape(s) && |s.app| == 3
    ensures Shape(t)
  {
    s.(access := s.access[2 := ReadWrite], copyset := {}, owner := 2)
  }

  lemma UpgradeWithoutInvalidation(s: State)
    requires OwnerAndReader(s)
    ensures Leads(s, [], Upgraded(s))
  {
    var a := Asked(s, 2, Wr);
    LeadsStay(s);
    AskRun(s, 2, Wr, true);
    LeadsPlain(s, [], s, a, true);
    var r := a.(svc := Serving(2, Wr, Revoking(None, {1}, None)));
    assert a.copyset == {1};
    LeadsThen(s, [], a, StartRevoking, r);
    var l := a.(svc := Serving(2, Wr, Revoking(None, {}, None)));
    LeadsThen(s, [], r, RevokeFails, l);
    InstallNothing(l, true);
    assert Installed(l).app == s.app && Installed(l).locked == s.locked;
    assert Installed(l) == Upgraded(s);
    LeadsPlain(s, [], l, Upgraded(s), true);
  }

  /** If the invalidation of node 1 fails, node 2 stores 7 and node 1 still loads 0. */
  lemma LostInvalidationGoesUnnoticed()
    ensures exists events, t :: Leads(Init(3), events, t) && !Legal(ZeroMemory(1), events)
  {
    var s := OwnerAndReaderReached(true);
    LeadsStay(Init(3));
    LeadsPlain(Init(3), [], Init(3), s, true);
    UpgradeWithoutInvalidation(s);
    LeadsJoin(Init(3), [], s, [], Upgraded(s));
    StoreAndStaleLoad(Upgraded(s));
  }

  lemma StoreAndStaleLoad(w: State)
    requires Shape(w) && |w.app| == 3 && Leads(Init(3), [], w) && w.app[1].Running? && w.app[2].Running?
    requires w.access[1].ReadOnly? && w.access[2].ReadWrite? && w.mem[1] == ZeroPage()
    ensures exists events, t :: Leads(Init(3), events, t) && !Legal(ZeroMemory(1), events)
  {
    var v := Stored(w, 2);
    LeadsThen(Init(3), [], w, AppStore(2, 0, 7), v);
    assert [] + [Store(2, 0, 7)] == [Store(2, 0, 7)];
    LeadsThen(Init(3), [Store(2, 0, 7)], v, AppLoad(1, 0), v);
    IllegalLoad(ZeroMemory(1), 2, 1);
  }

  // ---------- a failed write fetch ----------

  /** Node 1 is blocked in its write fault with its old copy, and node 2 runs with the page writable. */
  predicate WriterBesideACopy(s: State) {
    && Shape(s) && |s.app| == 3
    && s.app[2].Running? && s.access[2].ReadWrite? && s.access[1].ReadOnly? && s.app[1] == Asking(Wr)
  }

  /** After a failed write fetch a second node may have access beside a writer. */
  lemma FailedFetchLeavesACopy()
    ensures exists steps :: Run(Init(3), steps, false) && WriterBesideACopy(Exec(Init(3), steps, false))
  {
    hide Inv, Reaches, Run, Exec;
    var s := OwnerAndReaderReached(false);
    var a := Asked(s, 1, Wr);
    AskRun(s, 1, Wr, false);
    Join(Init(3), s, a, false);
    var f := a.(svc := Free);
    UpgradeBeside(s, f);
    var q :| Reaches(f, q, false) && WriterBesideACopy(q);
    AroundAFailure(Init(3), a, f, q);
  }

  lemma AroundAFailure(s: State, a: State, f: State, q: State)
    requires Shape(s) && Reaches(s, a, false) && Shape(a) && Allowed(a, FetchFails, false)
    requires Do(a, FetchFails) == f && Reaches(f, q, false)
    ensures exists steps :: Run(s, steps, false) && Exec(s, steps, false) == q
  {
    hide Do, Enabled;
    var ys :| Plain(ys) && Run(s, ys, false) && Exec(s, ys, false) == a;
    var zs :| Plain(zs) && Run(f, zs, false) && Exec(f, zs, false) == q;
    RunCons(a, FetchFails, zs, false);
    RunAppend(s, ys, [FetchFails] + zs, false);
  }

  lemma UpgradeBeside(s: State, f: State)
    requires OwnerAndReader(s) && f == Asked(s, 1, Wr).(svc := Free)
    ensures exists q :: Reaches(f, q, false) && WriterBesideACopy(q)
  {
    var q := Requested(f, 2, Wr);
    assert f.copyset == {} && f.app[2].Running? && !f.locked[2];
    RequestRun(f, 2, Wr, false);
    GrantOwner(f, q);
    var g := q.(app := q.app[2 := Granted(Wr, None)]);
    OpenRun(g, 2, false);
    var w := g.(app := g.app[2 := Running], access := g.access[2 := ReadWrite], locked := SetLock(g.locked, 2, false));
    Join(f, g, w, false);
    assert WriterBesideACopy(w);
  }

  lemma GrantOwner(f: State, q: State)
    requires Shape(f) && Reaches(f, q, false) && Shape(q) && |q.app| == 3
    requires q.svc.Free? && q.app[0].Running? && q.app[2] == Asking(Wr) && q.owner == 2 && q.copyset == {}
    ensures Reaches(f, q.(app := q.app[2 := Granted(Wr, None)]), false)
  {
    var b := q.(svc := Serving(2, Wr, Begin));
    Then(f, q, StartService(2), b, false);
    var c := q.(svc := Serving(2, Wr, Fetched(None)));
    assert q.copyset - {2} == {};
    Then(f, b, Register, c, false);
    GrantRun(c, false);
    Join(f, c, Granting(c), false);
  }

  // ---------- a reader opens its page for writing ----------

  predicate OpenBesideACopy(s: State) {
    Shape(s) && |s.app| == 2 && s.svc.Free? && s.access[1].ReadWrite? && s.access[0].ReadOnly?
  }

  /** From the grant of node 1's read on. */
  lemma OpensFrom(s: State, f: State, strict: bool)
    requires Shape(s) && Reaches(s, f, strict) && Shape(f) && |f.app| == 2 && f.access[0].ReadOnly?
    requires f.svc.Serving? && f.svc.req == 1 && f.svc.kind.Rd? && f.app[1].Asking?
    requires f.svc.phase.Fetched? && f.svc.phase.reply.Some?
    ensures exists o :: Reaches(s, o, strict) && OpenBesideACopy(o)
  {
    hide Reaches;
    var g := Do(f, Finish);
    Then(s, f, Finish, g, strict);
    var o := Do(g, BeginFill(1));
    Then(s, g, BeginFill(1), o, strict);
    assert OpenBesideACopy(o);
  }

  /** Node 1 has the page read-write beside node 0's copy, and nothing has failed. */
  lemma ReaderOpensItsPage()
    ensures exists steps :: SmoothRun(Init(2), steps, true) && OpenBesideACopy(Exec(Init(2), steps, true))
  {
    hide Run, Exec, Reaches, Inv;
    var a := Asked(Init(2), 1, Rd);
    AskRun(Init(2), 1, Rd, true);
    FetchRun(a, true);
    Join(Init(2), a, FetchDone(a), true);
    OpensFrom(Init(2), FetchDone(a), true);
    var o :| Reaches(Init(2), o, true) && OpenBesideACopy(o);
    SmoothlyReached(Init(2), o, true);
  }

  lemma SmoothlyReached(s: State, t: State, strict: bool)
    requires Shape(s) && Reaches(s, t, strict)
    ensures exists steps :: SmoothRun(s, steps, strict) && Exec(s, steps, strict) == t
  {
  }

  // ---------- two readers that both want to write ----------

  /** The manager has begun to serve node 1's write while node 2 waits with its page lock held. */
  predicate Crossed(s: State) {
    && Shape(s) && |s.app| == 3
    && s.svc == Serving(1, Wr, Begin) && s.app[2] == Asking(Wr) && 2 in s.copyset
  }

  lemma CrossedReached() returns (b: State)
    ensures Crossed(b) && Reaches(Init(3), b, true)
  {
    var s1 := AtomicRead(Init(3), 1);
    var s := AtomicRead(s1, 2);
    InitInv(3, true);
    UndisturbedFault(Init(3), 1, Rd, true);
    UndisturbedFault(s1, 2, Rd, true);
    Join(Init(3), s1, s, true);
    b := CrossFrom(s);
    Join(Init(3), s, b, true);
  }

  lemma CrossFrom(s: State) returns (b: State)
    requires Calm(s) && |s.app| == 3 && s.access[1].ReadOnly? && s.access[2].ReadOnly? && 2 in s.copyset
    ensures Crossed(b) && Reaches(s, b, true)
  {
    var q2 := Requested(s, 2, Wr);
    RequestRun(s, 2, Wr, true);
    var q1 := Requested(q2, 1, Wr);
    RequestRun(q2, 1, Wr, true);
    Join(s, q2, q1, true);
    b := q1.(svc := Serving(1, Wr, Begin));
    Then(s, q1, StartService(1), b, true);
  }

  /** However the run goes on, if nothing fails, node 1 is not answered and node 2 keeps waiting. */
  ghost predicate HangsFrom(s: State)
    requires Shape(s) && |s.app| == 3
  {
    forall more :: SmoothRun(s, more, true) ==>
      Exec(s, more, true).svc.Serving? && Exec(s, more, true).svc.req == 1 &&
      Exec(s, more, true).app[2] == Asking(Wr)
  }

  /** Two upgrades, no failure: the manager serves node 1 and can never finish. */
  lemma DeadlockIsReachable()
    ensures exists steps :: SmoothRun(Init(3), steps, true) && Crossed(Exec(Init(3), steps, true)) &&
                            HangsFrom(Exec(Init(3), steps, true))
  {
    var b := CrossedReached();
    var steps :| Plain(steps) && Run(Init(3), steps, true) && Exec(Init(3), steps, true) == b;
    InitInv(3, true);
    RunKeeps(Init(3), steps, true);
    forall more | SmoothRun(b, more, true)
      ensures Exec(b, more, true).svc.Serving? && Exec(b, more, true).svc.req == 1 &&
              Exec(b, more, true).app[2] == Asking(Wr)
    {
      StuckForever(b, more, 2, true);
    }
    assert SmoothRun(Init(3), steps, true);
  }
}
