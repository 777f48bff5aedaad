/** What happens when a service starts while node 0 has a reply that it has not installed yet. */
module NodeZero {
  import opened Types
  import opened FlatMemory
  import opened PageProtocol
  import opened Coherence
  import opened ServiceProgress
  import opened AtomicFaults
  import opened SharedRegion
  import opened Histories
  import opened LostInvalidations
  import opened CarefulRuns

  // ---------- runs without accesses ----------

  ghost predicate Silently(t: State, u: State, strict: bool) {
    Shape(t) && Shape(u) && |u.app| == |t.app| && Shows(One(t), [], One(u), strict)
  }

  lemma SilentlyStays(t: State, strict: bool)
    requires Shape(t)
    ensures Silently(t, t, strict)
  {
    ShowsStay(One(t), strict);
  }

  lemma SilentlyJoins(t: State, u: State, v: State, strict: bool)
    requires Silently(t, u, strict) && Silently(u, v, strict)
    ensures Silently(t, v, strict)
  {
    var none: seq<Event> := [];
    ShowsJoin(One(t), none, One(u), none, One(v), strict);
    assert none + none == none;
  }

  lemma SilentlySteps(t: State, st: Step, strict: bool)
    requires Shape(t) && Allowed(t, st, strict) && !st.AppLoad? && !st.AppStore?
    ensures Silently(t, Do(t, st), strict)
  {
    OnPageStep(One(t), 0, st, strict);
    ShowsMove(One(t), At(0, st), strict);
    assert OnPage(One(t), 0, Do(t, st)) == One(Do(t, st));
  }

  lemma SilentlyReaches(t: State, u: State, strict: bool)
    requires Shape(t) && Reaches(t, u, strict)
    ensures Silently(t, u, strict)
  {
    ReachesOnPage(One(t), 0, u, strict);
    assert OnPage(One(t), 0, u) == One(u);
  }

  // ---------- the other nodes give their locks back ----------

  /** The state in which the manager has just begun to serve x. */
  function Started(s: State, x: nat, k: Kind): (t: State)
    requires Shape(s) && x < |s.app|
    ensures Shape(t)
  {
    s.(svc := Serving(x, k, Begin))
  }

  /** Only node z's thread has moved. */
  predicate OnlyThread(s: State, u: State, z: nat)
    requires Shape(s)
  {
    && Shape(u) && |u.app| == |s.app| && u.svc == s.svc && u.owner == s.owner && u.copyset == s.copyset
    && forall j | 0 <= j < |s.app| && j != z ::
         u.app[j] == s.app[j] && u.access[j] == s.access[j] && u.mem[j] == s.mem[j] && u.locked[j] == s.locked[j]
  }

  /** A step of z's thread is the same whether or not the manager is serving somebody else. */
  lemma StepUnderService(s: State, st: Step, z: nat, x: nat, k: Kind, strict: bool)
    requires Shape(s) && s.svc.Free? && x < |s.app| && z != x && Allowed(s, st, strict)
    requires st == CallFails(z) || st == BeginFill(z) || st.CopyIn? || st == EndFill(z) || st == Release(z)
    requires st.CopyIn? ==> st.node == z
    ensures Allowed(Started(s, x, k), st, strict)
    ensures Do(Started(s, x, k), st) == Started(Do(s, st), x, k) && OnlyThread(s, Do(s, st), z)
  {
  }

  /** What node z can do to get closer to giving its lock back; a request is given up as failed. */
  function WayOut(a: App, z: nat): Step
    requires Holding(a)
  {
    if a.Asking? then CallFails(z) else HandlerStep(a, z)
  }

  function WayLeft(a: App): nat { if a.Asking? then 1 else Rank(a) }

  lemma WayOutWorks(s: State, z: nat, strict: bool)
    requires Shape(s) && Inv(s, strict) && s.svc.Free? && 0 < z < |s.app| && s.locked[z]
    ensures Holding(s.app[z]) && Allowed(s, WayOut(s.app[z], z), strict)
    ensures var s' := Do(s, WayOut(s.app[z], z)); s'.locked[z] ==> WayLeft(s'.app[z]) < WayLeft(s.app[z])
  {
    assert NodeOk(s, z, strict);
    if !s.app[z].Asking? {
      HandlerStepWorks(s, z, strict);
    }
  }

  lemma {:induction false} FreeOne(s: State, z: nat, x: nat, k: Kind, strict: bool) returns (u: State)
    requires Shape(s) && Inv(s, strict) && s.svc.Free? && x < |s.app| && 0 < z < |s.app| && z != x
    ensures OnlyThread(s, u, z) && Inv(u, strict) && !u.locked[z]
    ensures Silently(Started(s, x, k), Started(u, x, k), strict)
    decreases s.locked[z], WayLeft(s.app[z])
  {
    hide Inv, Silently, Allowed, Do;
    if !s.locked[z] {
      u := s;
      SilentlyStays(Started(s, x, k), strict);
    } else {
      WayOutWorks(s, z, strict);
      var st := WayOut(s.app[z], z);
      StepUnderService(s, st, z, x, k, strict);
      StepKeeps(s, st, strict);
      SilentlySteps(Started(s, x, k), st, strict);
      var s' := Do(s, st);
      u := FreeOne(s', z, x, k, strict);
      SilentlyJoins(Started(s, x, k), Started(s', x, k), Started(u, x, k), strict);
    }
  }

  /** Nodes 0 and x are as they were. */
  predicate BothStay(s: State, u: State, x: nat)
    requires Shape(s) && x < |s.app|
  {
    && Shape(u) && |u.app| == |s.app| && u.svc == s.svc && u.owner == s.owner && u.copyset == s.copyset
    && forall j | j in {0, x} :: u.app[j] == s.app[j] && u.access[j] == s.access[j] && u.mem[j] == s.mem[j]
  }

  lemma {:induction false} FreeOthers(s: State, n: nat, x: nat, k: Kind, strict: bool) returns (u: State)
    requires Shape(s) && Inv(s, strict) && s.svc.Free? && x < |s.app| && n <= |s.app|
    ensures BothStay(s, u, x) && Inv(u, strict) && forall z | 0 <= z < n && z != x :: !u.locked[z]
    ensures Silently(Started(s, x, k), Started(u, x, k), strict)
    decreases n
  {
    if n == 0 {
      u := s;
      SilentlyStays(Started(s, x, k), strict);
    } else {
      var v := FreeOthers(s, n - 1, x, k, strict);
      if n - 1 == x || n - 1 == 0 {
        u := v;
        assert NodeOk(v, n - 1, strict);
      } else {
        hide Inv, Silently;
        u := FreeOne(v, n - 1, x, k, strict);
        SilentlyJoins(Started(s, x, k), Started(v, x, k), Started(u, x, k), strict);
      }
    }
  }

  // ---------- the service of x ----------

  /** x has its answer installed, node 0's thread and memory are as they were. */
  predicate Served(u: State, w: State, x: nat, k: Kind)
    requires Shape(u) && 0 < x < |u.app|
  {
    && Shape(w) && |w.app| == |u.app| && w.svc.Free?
    && w.app[0] == u.app[0] && w.mem[0] == u.mem[0]
    && w.app[x].Running? && (if k.Rd? then w.access[x].ReadOnly? else w.access[x].ReadWrite?)
    && (u.owner == 0 ==> w.mem[x] == u.mem[0])
  }

  lemma ReadServed(u: State, x: nat, strict: bool) returns (w: State)
    requires Shape(u) && 0 < x < |u.app| && u.app[x] == Asking(Rd) && u.owner != x && !u.locked[u.owner]
    ensures Served(u, w, x, Rd) && Reaches(Started(u, x, Rd), w, strict)
  {
    hide Reaches;
    var b := Started(u, x, Rd);
    var c := u.(copyset := u.copyset + {x}, svc := Serving(x, Rd, Calling));
    Stay(b, strict);
    Then(b, b, Register, c, strict);
    FetchRun(c, strict);
    Join(b, c, FetchDone(c), strict);
    InstallPage(FetchDone(c), u.mem[u.owner], strict);
    w := Installed(FetchDone(c));
    Join(b, FetchDone(c), w, strict);
  }

  /** The reply to x's write request is there; only node 0's access may have changed. */
  predicate WriteFetched(u: State, d: State, x: nat)
    requires Shape(u)
  {
    && Shape(d) && d == u.(access := d.access, copyset := u.copyset - {x}, svc := d.svc)
    && d.svc.Serving? && d.svc.req == x && d.svc.kind.Wr? && d.svc.phase.Fetched?
    && d.svc.phase.reply == (if u.owner != 0 && u.owner == x then None else Some(u.mem[u.owner]))
  }

  lemma FetchesForWriter(u: State, x: nat, strict: bool) returns (d: State)
    requires Shape(u) && 0 < x < |u.app| && u.app[x] == Asking(Wr) && (u.owner != x ==> !u.locked[u.owner])
    ensures WriteFetched(u, d, x) && Reaches(Started(u, x, Wr), d, strict)
  {
    hide Reaches;
    var b := Started(u, x, Wr);
    var c := Do(b, Register);
    Stay(b, strict);
    Then(b, b, Register, c, strict);
    if u.owner == x {
      d := c;
    } else {
      FetchRun(c, strict);
      d := FetchDone(c);
      Join(b, c, d, strict);
    }
  }

  lemma WriteInstalled(u: State, d: State, x: nat, strict: bool) returns (w: State)
    requires Shape(u) && 0 < x < |u.app| && u.app[x] == Asking(Wr) && WriteFetched(u, d, x)
    requires forall z | 0 <= z < |u.app| && z != x :: !u.locked[z]
    ensures Served(u, w, x, Wr) && Reaches(d, w, strict)
  {
    hide Reaches;
    var e := Do(d, StartRevoking);
    Stay(d, strict);
    Then(d, d, StartRevoking, e, strict);
    RevokeRun(e, strict);
    var r := RevokeDone(e);
    Join(d, e, r, strict);
    w := Installed(r);
    if u.owner == x {
      InstallNothing(r, strict);
    } else {
      InstallPage(r, u.mem[u.owner], strict);
    }
    Join(d, r, w, strict);
  }

  /** With every other lock free, x is served. */
  lemma GetsServed(u: State, x: nat, k: Kind, strict: bool) returns (w: State)
    requires Shape(u) && 0 < x < |u.app| && u.app[x] == Asking(k)
    requires forall z | 0 <= z < |u.app| && z != x :: !u.locked[z]
    requires k.Rd? ==> u.owner != x
    ensures Served(u, w, x, k) && Silently(Started(u, x, k), w, strict)
  {
    hide Reaches, Silently;
    if k.Rd? {
      w := ReadServed(u, x, strict);
    } else {
      var d := FetchesForWriter(u, x, strict);
      w := WriteInstalled(u, d, x, strict);
      Join(Started(u, x, k), d, w, strict);
    }
    SilentlyReaches(Started(u, x, k), w, strict);
  }

  /** From the start of the service on: whatever is in its way is cleared first. */
  lemma ServedFromStart(s: State, x: nat, strict: bool) returns (w: State)
    requires Shape(s) && Inv(s, strict) && s.svc.Free? && 0 < x < |s.app| && s.app[x].Asking?
    ensures Served(s, w, x, s.app[x].kind) && Silently(Started(s, x, s.app[x].kind), w, strict)
  {
    var k := s.app[x].kind;
    var u := FreeOthers(s, |s.app|, x, k, strict);
    assert k.Rd? ==> u.owner != x by { assert NodeOk(u, x, strict); }
    w := GetsServed(u, x, k, strict);
    SilentlyJoins(Started(s, x, k), Started(u, x, k), w, strict);
  }

  // ---------- harm ----------

  lemma BothRunning(t: State, v: State, r: nat, i: nat, strict: bool)
    requires Silently(t, v, strict) && r < |v.app| && i < |v.app| && r != i
    requires v.app[r].Running? && v.access[r].ReadWrite? && v.app[i].Running? && !v.access[i].NoAccess?
    ensures CanGoWrong(t, strict)
  {
    hide Shows;
    var events, sys' := StaleLoad(One(v), r, i, strict);
    var none: seq<Event> := [];
    ShowsJoin(One(t), none, One(v), events, sys', strict);
    assert none + events == events;
    GoesWrong(t, events, sys', strict);
  }

  /** Node 0 installs its untouched reply after x has been served, and one of the two can write. */
  lemma GrantedHarms(s: State, x: nat, strict: bool)
    requires Window(s, x, strict) && s.app[0].Granted? && (s.app[0].kind.Wr? || s.app[x].kind.Wr?)
    ensures CanGoWrong(Started(s, x, s.app[x].kind), strict)
  {
    assert s.app[0].reply.Some? by { assert NodeOk(s, 0, strict); }
    hide Inv, Silently, Reaches, CanGoWrong;
    var k0, page := s.app[0].kind, s.app[0].reply.value;
    var t := Started(s, x, s.app[x].kind);
    var w := ServedFromStart(s, x, strict);
    var v := Left(w, 0, k0, page);
    LeaveRun(w, 0, k0, page, strict);
    SilentlyReaches(w, v, strict);
    SilentlyJoins(t, w, v, strict);
    if k0.Wr? { BothRunning(t, v, 0, x, strict); } else { BothRunning(t, v, x, 0, strict); }
  }

  /** Node 0 has copied its reply in, is invalidated, and ends with a copy all the same. */
  lemma CopiedHarms(s: State, x: nat, strict: bool)
    requires Window(s, x, strict) && s.app[x].kind.Wr?
    requires s.app[0].Filling? && s.app[0].kind.Rd? && s.app[0].done == CELLS
    ensures CanGoWrong(Started(s, x, Wr), strict)
  {
    hide Inv, Silently, Reaches, CanGoWrong;
    var t := Started(s, x, Wr);
    var w := ServedFromStart(s, x, strict);
    var v := EndsCopying(w, 0, strict);
    SilentlyReaches(w, v, strict);
    SilentlyJoins(t, w, v, strict);
    BothRunning(t, v, x, 0, strict);
  }

  lemma ReaderFillsAndHarms(s: State, x: nat, strict: bool)
    requires Window(s, x, strict) && s.app[x].kind.Wr?
    requires s.app[0].Filling? && s.app[0].kind.Rd? && (s.access[0].ReadWrite? || s.app[0].done == CELLS)
    ensures CanGoWrong(Started(s, x, Wr), strict)
  {
    if s.app[0].done == CELLS {
      CopiedHarms(s, x, strict);
    } else {
      assert s.app[0].done <= CELLS by { assert NodeOk(s, 0, strict); }
      hide Inv, Silently, CanGoWrong;
      var st := CopyIn(0, CELLS - s.app[0].done);
      StepKeeps(s, st, strict);
      StepUnderService(s, st, 0, x, Wr, strict);
      SilentlySteps(Started(s, x, Wr), st, strict);
      CopiedHarms(Do(s, st), x, strict);
      WrongLater(Started(s, x, Wr), Started(Do(s, st), x, Wr), strict);
    }
  }

  /** What can go wrong after steps without accesses and without a change of the contents can go wrong before them. */
  lemma WrongLater(t: State, u: State, strict: bool)
    requires Silently(t, u, strict) && CanGoWrong(u, strict) && Current(u) == Current(t)
    ensures CanGoWrong(t, strict)
  {
    var moves :| RunOf(One(u), moves, strict) && !Legal(Contents(One(u)), Events(One(u), moves, strict));
    var events, none: seq<Event> := Events(One(u), moves, strict), [];
    assert Shows(One(u), events, ExecOf(One(u), moves, strict), strict);
    ShowsJoin(One(t), none, One(u), events, ExecOf(One(u), moves, strict), strict);
    assert none + events == events;
    SameContents(One(t), One(u));
  }

  /** x is sent a page of which node 0 has copied only a part, and loads a word of the rest. */
  lemma HalfCopiedHarms(s: State, x: nat, strict: bool)
    requires Window(s, x, strict) && s.app[0].Filling? && s.app[0].kind.Wr? && s.mem[0] != s.app[0].page
    ensures CanGoWrong(Started(s, x, s.app[x].kind), strict)
  {
    var t := Started(s, x, s.app[x].kind);
    assert s.owner == 0 && Current(t) == s.app[0].page by { assert NodeOk(s, 0, strict); }
    var off := FirstDifference(s.mem[0], s.app[0].page);
    hide Inv;
    var w := ServedFromStart(s, x, strict);
    LoadsFrom(t, w, x, off, strict);
  }

  lemma FirstDifference(a: Page, b: Page) returns (k: nat)
    requires a != b
    ensures k < CELLS && a[k] != b[k]
  {
    k :| 0 <= k < CELLS && a[k] != b[k];
  }

  lemma LoadsFrom(t: State, w: State, x: nat, off: nat, strict: bool)
    requires Silently(t, w, strict) && x < |w.app| && off < CELLS && w.app[x].Running? && !w.access[x].NoAccess?
    requires w.mem[x][off] != Current(t)[off]
    ensures CanGoWrong(t, strict)
  {
    hide Shows;
    var load, e := At(0, AppLoad(x, off)), Load(x, off, w.mem[x][off]);
    ShowsMove(One(w), load, strict);
    var none: seq<Event> := [];
    ShowsJoin(One(t), none, One(w), [e], Apply(One(w), load), strict);
    assert none + [e] == [e];
    assert Contents(One(t))[0 * CELLS + off] == Current(t)[off];
    ShowsIllegal(t, [e], Apply(One(w), load), strict);
  }

  lemma ShowsIllegal(t: State, events: seq<Event>, sys: System, strict: bool)
    requires Shape(t) && Shows(One(t), events, sys, strict) && !Legal(Contents(One(t)), events)
    ensures CanGoWrong(t, strict)
  {
  }

  // ---------- the exact condition ----------

  lemma HarmfulStartHarms(s: State, x: nat, strict: bool)
    requires Window(s, x, strict) && Harmful(s, x)
    ensures CanGoWrong(Started(s, x, s.app[x].kind), strict)
  {
    if s.app[0].Granted? {
      GrantedHarms(s, x, strict);
    } else if s.app[0].kind.Wr? {
      HalfCopiedHarms(s, x, strict);
    } else {
      ReaderFillsAndHarms(s, x, strict);
    }
  }

  /**
   * When the manager starts to serve x although node 0 has not installed its reply, an application
   * can come to see a stale value if and only if the start is harmful; for a reply not touched yet,
   * these are just the starts that the hypothesis on node 0 rules out.
   */
  lemma UnguardedStartHarmsIff(s: State, x: nat, strict: bool)
    requires Window(s, x, strict)
    ensures CanGoWrong(Do(s, StartService(x)), strict) <==> Harmful(s, x)
    ensures Guard(s, StartService(x)) ==> !Harmful(s, x)
    ensures s.app[0].Granted? ==> (Harmful(s, x) <==> !Guard(s, StartService(x)))
  {
    assert NodeOk(s, 0, strict);
    var k := s.app[x].kind;
    assert Do(s, StartService(x)) == Started(s, x, k);
    if !Harmful(s, x) {
      CarefulStepIsHarmless(s, StartService(x), strict);
    } else {
      HarmfulStartHarms(s, x, strict);
    }
  }

  lemma HarmfulStartIsUnmasked(u: State, v: State, st: Step)
    requires Mimics(u, v) && Inv(v, false) && Enabled(u, st) && HarmfulStep(u, st) && !st.RevokeFails?
    ensures u == v && st == StartService(st.node) && Window(u, st.node, false)
  {
  }

  /** Another node that is skipped reads its copy, wherever node 0's thread is. */
  lemma SkippedNodeHarms(u: State, v: State, i: nat)
    requires Mimics(u, v) && v != u && Inv(v, false) && Enabled(u, RevokeFails) && i in u.svc.phase.todo && i != 0
    requires WouldRead(u, i)
    ensures CanGoWrong(Do(u, RevokeFails), false)
  {
    HarmedNode(v, i, false);
    SkippedReads(Do(u, RevokeFails), i);
  }

  lemma SkippedReads(t: State, i: nat)
    requires Shape(t) && Enabled(t, Finish) && t.svc.kind.Wr? && i < |t.app| && i != t.svc.req && WillRead(t, i)
    ensures CanGoWrong(t, false)
  {
    if t.svc.phase.reply.Some? {
      InstallPage(t, t.svc.phase.reply.value, false);
    } else {
      InstallNothing(t, false);
    }
    WrongAfterInstall(t, i, false);
  }

  /** Node 0 is skipped when it has copied all of its reply: it ends its fault, and reads its copy. */
  lemma SkippedZeroHarms(u: State, v: State)
    requires Mimics(u, v) && v != u && Inv(v, false) && Enabled(u, RevokeFails) && 0 in u.svc.phase.todo
    requires !Halfway(u) && WouldRead(u, 0)
    ensures CanGoWrong(Do(u, RevokeFails), false)
  {
    hide Inv, CanGoWrong, Silently;
    var t := Do(u, RevokeFails);
    SkippedZeroEnds(u, v);
    LostInvalidationHarmsIff(v, false);
    SilentlySteps(t, EndFill(0), false);
    WrongLater(t, Do(v, RevokeFails), false);
  }

  lemma SkippedZeroEnds(u: State, v: State)
    requires Mimics(u, v) && v != u && Inv(v, false) && Enabled(u, RevokeFails) && 0 in u.svc.phase.todo
    requires !Halfway(u) && WouldRead(u, 0)
    ensures Enabled(v, RevokeFails) && Harms(v)
    ensures var t := Do(u, RevokeFails);
            && Allowed(t, EndFill(0), false) && Do(t, EndFill(0)) == Do(v, RevokeFails)
            && Current(t) == Current(Do(v, RevokeFails))
  {
    assert NodeOk(v, 0, false);
    assert WouldRead(v, 0);
  }

  lemma SkipHarmsIndeed(u: State, v: State)
    requires Mimics(u, v) && Inv(v, false) && Enabled(u, RevokeFails) && SkipHarms(u)
    ensures CanGoWrong(Do(u, RevokeFails), false)
  {
    if u == v {
      LostInvalidationHarmsIff(u, false);
    } else {
      var i :| i in u.svc.phase.todo && !(i == 0 && Halfway(u)) && WouldRead(u, i);
      if i == 0 { SkippedZeroHarms(u, v); } else { SkippedNodeHarms(u, v, i); }
    }
  }

  lemma HarmOfStepIff(u: State, v: State, st: Step)
    requires Mimics(u, v) && Inv(v, false) && Enabled(u, st)
    ensures CanGoWrong(Do(u, st), false) <==> HarmfulStep(u, st)
  {
    hide Inv, CanGoWrong;
    if !HarmfulStep(u, st) {
      var v' := CarefulStep(u, v, st);
      MimickedIsHarmless(Do(u, st), v', false);
    } else if st.RevokeFails? {
      SkipHarmsIndeed(u, v);
    } else {
      HarmfulStartIsUnmasked(u, v, st);
      UnguardedStartHarmsIff(u, st.node, false);
    }
  }

  /**
   * After a run of a page without a harmful step, the next step, whatever it is, makes an illegal load
   * possible if and only if it is harmful.
   */
  lemma FirstHarmIff(s: State, moves: seq<Move>, st: Step)
    requires Shape(s) && Inv(s, false) && CarefulRun(One(s), moves)
    requires Enabled(CarefulExec(One(s), moves).pages[0], st)
    ensures var u := CarefulExec(One(s), moves).pages[0];
            CanGoWrong(Do(u, st), false) <==> HarmfulStep(u, st)
  {
    hide Inv, Do, Enabled, CanGoWrong, HarmfulStep, Careful;
    var vs := Mirrored(One(s), One(s), moves);
    HarmOfStepIff(CarefulExec(One(s), moves).pages[0], vs.pages[0], st);
  }

  // ---------- the copy that never ends ----------

  /** Closed under its copy, node 0's fault never ends, whatever happens. */
  lemma {:induction false} StuckForGood(s: State, steps: seq<Step>, strict: bool)
    requires Stuck(s) && Run(s, steps, strict)
    ensures Stuck(Exec(s, steps, strict)) && Exec(s, steps, strict).app[0] == s.app[0]
    decreases |steps|
  {
    if steps != [] {
      assert !Hidden(s, steps[0]);
      OnlyOthersMove(s, steps[0]);
      MaskStays(s, steps[0]);
      StuckForGood(Do(s, steps[0]), steps[1..], strict);
    }
  }

  /** Node 0's handler gets closer to its end, unless it has been closed under its copy. */
  lemma ZeroStepWorks(s: State, strict: bool)
    requires Shape(s) && Inv(s, strict) && Rank(s.app[0]) > 0 && !Stuck(s)
    ensures Allowed(s, HandlerStep(s.app[0], 0), strict)
    ensures var s' := Do(s, HandlerStep(s.app[0], 0));
            !Stuck(s') && Rank(s'.app[0]) < Rank(s.app[0]) && (Rank(s'.app[0]) > 0 || s'.app[0].Running?)
  {
    assert NodeOk(s, 0, strict);
  }

  lemma {:induction false} ZeroFinishes(s: State, strict: bool) returns (steps: seq<Step>)
    requires Shape(s) && Inv(s, strict) && Rank(s.app[0]) > 0 && !Stuck(s)
    ensures Run(s, steps, strict) && Exec(s, steps, strict).app[0].Running?
    decreases Rank(s.app[0])
  {
    hide Inv, Do, Allowed, Stuck;
    var st := HandlerStep(s.app[0], 0);
    ZeroStepWorks(s, strict);
    StepKeeps(s, st, strict);
    var rest := [];
    if Rank(Do(s, st).app[0]) > 0 { rest := ZeroFinishes(Do(s, st), strict); }
    RunCons(s, st, rest, strict);
    steps := [st] + rest;
  }

  /** Once node 0 has its answer, its fault can come to an end exactly if it is not closed under its copy. */
  lemma ZeroFinishesIff(s: State, strict: bool)
    requires Shape(s) && Inv(s, strict) && (ZeroInstalls(s) || s.app[0].Leaving?)
    ensures (exists steps :: Run(s, steps, strict) && Exec(s, steps, strict).app[0].Running?) <==> !Stuck(s)
  {
    if Stuck(s) {
      forall steps | Run(s, steps, strict) ensures !Exec(s, steps, strict).app[0].Running? {
        StuckForGood(s, steps, strict);
      }
    } else {
      var steps := ZeroFinishes(s, strict);
    }
  }

  /** Node 0's read fault on a page it owns is answered, and node 1 asks for the page too. */
  lemma BothRead(strict: bool) returns (q: State)
    ensures Shape(q) && |q.app| == 2 && q.owner == 0 && q.svc.Free? && !q.locked[0]
    ensures q.app[0].Granted? && q.app[0].kind.Rd? && q.app[0].reply.Some? && q.app[1] == Asking(Rd)
    ensures Reaches(Init(2), q, strict)
  {
    hide Reaches;
    var a := Asked(Init(2), 0, Rd);
    AskRun(Init(2), 0, Rd, strict);
    FetchRun(a, strict);
    Join(Init(2), a, FetchDone(a), strict);
    var g := Do(FetchDone(a), Finish);
    Then(Init(2), FetchDone(a), Finish, g, strict);
    q := Requested(g, 1, Rd);
    RequestRun(g, 1, Rd, strict);
    Join(Init(2), g, q, strict);
  }

  /** The manager serves node 1 up to the fetch. */
  lemma FetchBegins(q: State, strict: bool) returns (f: State)
    requires Shape(q) && |q.app| == 2 && q.owner == 0 && q.svc.Free? && q.app[1] == Asking(Rd)
    requires q.app[0].Granted? && q.app[0].kind.Rd?
    ensures Shape(f) && f == q.(copyset := f.copyset, svc := Serving(1, Rd, FetchLocked)) && Reaches(q, f, strict)
  {
    hide Reaches;
    var b := Started(q, 1, Rd);
    var c := q.(copyset := q.copyset + {1}, svc := Serving(1, Rd, Calling));
    f := c.(svc := Serving(1, Rd, FetchLocked));
    Stay(q, strict);
    Then(q, q, StartService(1), b, strict);
    Then(q, b, Register, c, strict);
    Then(q, c, FetchLock, f, strict);
  }

  /** The fetch for node 1 closes the page that node 0 has just opened to copy its reply in. */
  lemma GetsStuck(q: State, strict: bool) returns (p: State)
    requires Shape(q) && |q.app| == 2 && q.owner == 0 && q.svc.Free? && q.app[1] == Asking(Rd)
    requires q.app[0].Granted? && q.app[0].kind.Rd? && q.app[0].reply.Some?
    ensures Stuck(p) && Reaches(q, p, strict)
  {
    hide Reaches;
    var f := FetchBegins(q, strict);
    var o := f.(app := f.app[0 := Filling(Rd, q.app[0].reply.value, 0)], access := f.access[0 := ReadWrite]);
    p := o.(access := o.access[0 := ReadOnly], svc := Serving(1, Rd, Reading([])));
    Then(q, f, BeginFill(0), o, strict);
    Then(q, o, FetchProtect, p, strict);
  }

  /** A run in which nothing fails and every start is guarded leaves node 0 stuck in a read fault. */
  lemma ZeroGetsStuck()
    ensures exists steps :: SmoothRun(Init(2), steps, true) && Stuck(Exec(Init(2), steps, true))
  {
    hide Run, Exec, Stuck;
    var q := BothRead(true);
    var p := GetsStuck(q, true);
    Join(Init(2), q, p, true);
    var steps :| Plain(steps) && Run(Init(2), steps, true) && Exec(Init(2), steps, true) == p;
  }
}
