/** The histories of loads and stores that the protocol can produce are exactly those of a flat memory. */
module Histories {
  import opened Types
  import opened FlatMemory
  import opened PageProtocol
  import opened Coherence
  import opened AtomicFaults
  import opened SharedRegion

  // ---------- runs of the region by their end points ----------

  /** A run leads from one state of the region to another, and the applications see exactly `events`. */
  ghost predicate Shows(sys: System, events: seq<Event>, sys': System, strict: bool)
    requires Formed(sys)
  {
    exists moves :: RunOf(sys, moves, strict) && ExecOf(sys, moves, strict) == sys' &&
                    Events(sys, moves, strict) == events
  }

  lemma {:induction false} MovesAppend(sys: System, xs: seq<Move>, ys: seq<Move>, strict: bool)
    requires Formed(sys) && RunOf(sys, xs, strict) && RunOf(ExecOf(sys, xs, strict), ys, strict)
    ensures RunOf(sys, xs + ys, strict)
    ensures ExecOf(sys, xs + ys, strict) == ExecOf(ExecOf(sys, xs, strict), ys, strict)
    ensures Events(sys, xs + ys, strict) == Events(sys, xs, strict) + Events(ExecOf(sys, xs, strict), ys, strict)
    decreases |xs|
  {
    hide Enabled, Do, Apply, EventsOf, Formed;
    if xs == [] {
      assert xs + ys == ys;
    } else {
      assert (xs + ys)[0] == xs[0] && (xs + ys)[1..] == xs[1..] + ys;
      MovesAppend(Apply(sys, xs[0]), xs[1..], ys, strict);
    }
  }

  lemma ShowsStay(sys: System, strict: bool)
    requires Formed(sys)
    ensures Shows(sys, [], sys, strict)
  {
    assert RunOf(sys, [], strict) && ExecOf(sys, [], strict) == sys && Events(sys, [], strict) == [];
  }

  lemma ShowsJoin(sys: System, xs: seq<Event>, sys1: System, ys: seq<Event>, sys2: System, strict: bool)
    requires Formed(sys) && Shows(sys, xs, sys1, strict) && Formed(sys1) && Shows(sys1, ys, sys2, strict)
    ensures Shows(sys, xs + ys, sys2, strict)
  {
    var a :| RunOf(sys, a, strict) && ExecOf(sys, a, strict) == sys1 && Events(sys, a, strict) == xs;
    var b :| RunOf(sys1, b, strict) && ExecOf(sys1, b, strict) == sys2 && Events(sys1, b, strict) == ys;
    MovesAppend(sys, a, b, strict);
  }

  lemma ShowsMove(sys: System, m: Move, strict: bool)
    requires Formed(sys) && CanMove(sys, m, strict)
    ensures Shows(sys, EventsOf(sys.pages[m.page], m.page, m.step), Apply(sys, m), strict)
  {
    hide Enabled, Do, Apply, EventsOf;
    var sys1 := Apply(sys, m);
    assert [m][1..] == [];
    assert RunOf(sys1, [], strict) && ExecOf(sys1, [], strict) == sys1 && Events(sys1, [], strict) == [];
    assert RunOf(sys, [m], strict) && ExecOf(sys, [m], strict) == sys1;
    var events := EventsOf(sys.pages[m.page], m.page, m.step);
    assert Events(sys, [m], strict) == events + [] == events;
  }

  /** No thread is in the fault handler for a page other than p. */
  predicate IdleBut(sys: System, p: nat)
    requires Formed(sys)
  {
    forall q, i | 0 <= q < |sys.pages| && q != p && 0 <= i < |sys.pages[q].app| :: sys.pages[q].app[i].Running?
  }

  function OnPage(sys: System, p: nat, t: State): (sys': System)
    requires Formed(sys) && p < |sys.pages| && Shape(t) && |t.app| == |sys.pages[p].app|
    ensures Formed(sys') && |sys'.pages| == |sys.pages|
  {
    System(sys.pages[p := t])
  }

  lemma OnPageStep(sys: System, p: nat, st: Step, strict: bool)
    requires Formed(sys) && p < |sys.pages| && IdleBut(sys, p) && Allowed(sys.pages[p], st, strict)
    ensures CanMove(sys, At(p, st), strict)
    ensures Apply(sys, At(p, st)) == OnPage(sys, p, Do(sys.pages[p], st)) && IdleBut(Apply(sys, At(p, st)), p)
  {
    hide Do, Allowed;
  }

  /** Steps in which no application accesses the page. */
  predicate Silent(steps: seq<Step>) {
    forall k | 0 <= k < |steps| :: !steps[k].AppLoad? && !steps[k].AppStore?
  }

  /** Steps of one page, without accesses, are moves of the region as long as all other pages are idle. */
  lemma {:induction false} SilentOnPage(sys: System, p: nat, steps: seq<Step>, strict: bool)
    requires Formed(sys) && p < |sys.pages| && IdleBut(sys, p)
    requires Silent(steps) && Run(sys.pages[p], steps, strict)
    ensures Shows(sys, [], OnPage(sys, p, Exec(sys.pages[p], steps, strict)), strict)
    decreases |steps|
  {
    hide Do, Enabled, Shows, IdleBut;
    if steps == [] {
      ShowsStay(sys, strict);
      assert sys.pages[p := sys.pages[p]] == sys.pages;
    } else {
      var st := steps[0];
      assert !st.AppLoad? && !st.AppStore?;
      OnPageStep(sys, p, st, strict);
      ShowsMove(sys, At(p, st), strict);
      var sys1 := OnPage(sys, p, Do(sys.pages[p], st));
      assert forall k | 0 <= k < |steps[1..]| :: steps[1..][k] == steps[k + 1];
      SilentOnPage(sys1, p, steps[1..], strict);
      var t := Exec(sys.pages[p], steps, strict);
      assert sys1.pages[p := t] == sys.pages[p := t];
      var none: seq<Event> := [];
      ShowsJoin(sys, none, sys1, none, OnPage(sys, p, t), strict);
      assert none + none == none;
    }
  }

  lemma ReachesOnPage(sys: System, p: nat, t: State, strict: bool)
    requires Formed(sys) && p < |sys.pages| && IdleBut(sys, p) && Reaches(sys.pages[p], t, strict)
    ensures Shape(t) && |t.app| == |sys.pages[p].app| && Shows(sys, [], OnPage(sys, p, t), strict)
  {
    var steps :| Plain(steps) && Run(sys.pages[p], steps, strict) && Exec(sys.pages[p], steps, strict) == t;
    SilentOnPage(sys, p, steps, strict);
  }

  // ---------- every history of a flat memory has a run ----------

  predicate AllCalm(sys: System)
    requires Formed(sys)
  {
    forall p | 0 <= p < |sys.pages| :: Calm(sys.pages[p])
  }

  /** The kind of fault an access would cause. */
  function KindOf(e: Event): Kind { if e.Load? then Rd else Wr }

  /** After its fault, if it needs one, the access can be made. */
  lemma Faulted(sys: System, e: Event, strict: bool) returns (sys': System)
    requires Formed(sys) && Coherent(sys, strict) && AllCalm(sys)
    requires e.loc < |Contents(sys)| && e.node < |sys.pages[0].app|
    ensures Formed(sys') && |sys'.pages| == |sys.pages| && |sys'.pages[0].app| == |sys.pages[0].app|
    ensures Coherent(sys', strict) && AllCalm(sys') && Contents(sys') == Contents(sys)
    ensures Shows(sys, [], sys', strict)
    ensures !Faults(sys'.pages[e.loc / CELLS], e.node, KindOf(e))
  {
    hide Inv, Shows, Reaches;
    var p := e.loc / CELLS;
    var s, k := sys.pages[p], KindOf(e);
    if Faults(s, e.node, k) {
      var t := AtomicFault(s, e.node, k);
      UndisturbedFault(s, e.node, k, strict);
      ReachesOnPage(sys, p, t, strict);
      sys' := OnPage(sys, p, t);
      SameContents(sys, sys');
    } else {
      sys' := sys;
      ShowsStay(sys, strict);
    }
  }

  function StepOf(e: Event): Step {
    if e.Load? then AppLoad(e.node, e.loc % CELLS) else AppStore(e.node, e.loc % CELLS, e.value)
  }

  lemma AccessStep(s: State, e: Event, strict: bool)
    requires Calm(s) && Inv(s, strict) && e.node < |s.app| && !Faults(s, e.node, KindOf(e))
    ensures Allowed(s, StepOf(e), strict) && Calm(Do(s, StepOf(e))) && s.mem[e.node] == Current(s)
  {
    assert NodeOk(s, e.node, strict);
  }

  lemma AccessMove(sys: System, e: Event, strict: bool)
    requires Formed(sys) && Coherent(sys, strict) && AllCalm(sys)
    requires Legal(Contents(sys), [e]) && e.node < |sys.pages[0].app|
    requires !Faults(sys.pages[e.loc / CELLS], e.node, KindOf(e))
    ensures var m := At(e.loc / CELLS, StepOf(e));
            CanMove(sys, m, strict) && EventsOf(sys.pages[m.page], m.page, m.step) == [e] &&
            AllCalm(Apply(sys, m)) && |Apply(sys, m).pages[0].app| == |sys.pages[0].app|
  {
    hide Inv, Do, Allowed, Contents, Update;
    var p, off := e.loc / CELLS, e.loc % CELLS;
    AccessStep(sys.pages[p], e, strict);
    assert e.loc == p * CELLS + off;
    assert Contents(sys)[e.loc] == Current(sys.pages[p])[off];
  }

  lemma FirstLegal(m: Memory, events: seq<Event>)
    requires events != [] && Legal(m, events)
    ensures Legal(m, [events[0]]) && events[0].loc < |m| && Legal(Update(m, events[0]), events[1..])
  {
    assert [events[0]][1..] == [];
  }

  /** One access, with the fault it may cause. */
  lemma OneAccess(sys: System, e: Event, strict: bool) returns (sys': System)
    requires Formed(sys) && Coherent(sys, strict) && AllCalm(sys)
    requires Legal(Contents(sys), [e]) && e.node < |sys.pages[0].app|
    ensures Formed(sys') && |sys'.pages| == |sys.pages| && |sys'.pages[0].app| == |sys.pages[0].app|
    ensures Coherent(sys', strict) && AllCalm(sys') && Contents(sys') == Update(Contents(sys), e)
    ensures Shows(sys, [e], sys', strict)
  {
    hide Formed, Inv, Shows, AllCalm, Coherent, Contents, Legal, EventsOf, Faults, Enabled, Do;
    FirstLegal(Contents(sys), [e]);
    var sys1 := Faulted(sys, e, strict);
    var m := At(e.loc / CELLS, StepOf(e));
    AccessMove(sys1, e, strict);
    MoveRefines(sys1, m, strict);
    ShowsMove(sys1, m, strict);
    sys' := Apply(sys1, m);
    assert [e][1..] == [];
    assert After(Contents(sys), [e]) == Update(Contents(sys), e);
    var none: seq<Event> := [];
    ShowsJoin(sys, none, sys1, [e], sys', strict);
    assert none + [e] == [e];
  }

  /** A legal history can be seen from any coherent region in which nothing is going on. */
  lemma {:induction false} HistoryHasARun(sys: System, events: seq<Event>, strict: bool) returns (sys': System)
    requires Formed(sys) && Coherent(sys, strict) && AllCalm(sys) && Legal(Contents(sys), events)
    requires |sys.pages| > 0 ==> forall k | 0 <= k < |events| :: events[k].node < |sys.pages[0].app|
    ensures Shows(sys, events, sys', strict)
    decreases |events|
  {
    hide Formed, Inv, Shows, AllCalm, Coherent, Contents, Legal, Update;
    if events == [] {
      sys' := sys;
      ShowsStay(sys, strict);
    } else {
      var e := events[0];
      FirstLegal(Contents(sys), events);
      var sys1 := OneAccess(sys, e, strict);
      assert forall k | 0 <= k < |events[1..]| :: events[1..][k] == events[k + 1];
      sys' := HistoryHasARun(sys1, events[1..], strict);
      ShowsJoin(sys, [e], sys1, events[1..], sys', strict);
      assert [e] + events[1..] == events;
    }
  }

  predicate NodesBelow(events: seq<Event>, n: nat) { forall k | 0 <= k < |events| :: events[k].node < n }

  lemma NodesBelowAppend(xs: seq<Event>, ys: seq<Event>, n: nat)
    requires NodesBelow(xs, n) && NodesBelow(ys, n)
    ensures NodesBelow(xs + ys, n)
  {
  }

  lemma MoveNodes(sys: System, m: Move, strict: bool)
    requires Formed(sys) && CanMove(sys, m, strict)
    ensures |Apply(sys, m).pages[0].app| == |sys.pages[0].app|
    ensures NodesBelow(EventsOf(sys.pages[m.page], m.page, m.step), |sys.pages[0].app|)
  {
  }

  lemma {:induction false} NodesInRange(sys: System, moves: seq<Move>, strict: bool)
    requires Formed(sys) && RunOf(sys, moves, strict)
    ensures Events(sys, moves, strict) != [] ==> |sys.pages| > 0
    ensures |sys.pages| > 0 ==> NodesBelow(Events(sys, moves, strict), |sys.pages[0].app|)
    decreases |moves|
  {
    if moves != [] {
      hide Formed, Enabled, Do, Apply, EventsOf, NodesBelow;
      var m := moves[0];
      NodesInRange(Apply(sys, m), moves[1..], strict);
      MoveNodes(sys, m, strict);
      NodesBelowAppend(EventsOf(sys.pages[m.page], m.page, m.step), Events(Apply(sys, m), moves[1..], strict),
                       |sys.pages[0].app|);
    }
  }

  /** Some run of the region, from its freshly mapped state, shows exactly these accesses. */
  ghost predicate Possible(pages: nat, n: nat, events: seq<Event>, strict: bool)
    requires n > 0
  {
    exists moves :: RunOf(InitSystem(pages, n), moves, strict) && Events(InitSystem(pages, n), moves, strict) == events
  }

  lemma LegalIsPossible(pages: nat, n: nat, events: seq<Event>, strict: bool)
    requires n > 0 && Legal(ZeroMemory(pages), events) && NodesBelow(events, n)
    ensures Possible(pages, n, events, strict)
  {
    InitCoherent(pages, n, strict);
    var sys' := HistoryHasARun(InitSystem(pages, n), events, strict);
  }

  lemma PossibleIsLegal(pages: nat, n: nat, moves: seq<Move>, strict: bool)
    requires n > 0 && RunOf(InitSystem(pages, n), moves, strict)
    ensures Legal(ZeroMemory(pages), Events(InitSystem(pages, n), moves, strict))
    ensures NodesBelow(Events(InitSystem(pages, n), moves, strict), n)
  {
    LoadsSeeLatestStores(pages, n, moves, strict);
    NodesInRange(InitSystem(pages, n), moves, strict);
  }

  /**
   * Applications on n nodes can see a history on the freshly mapped region if and only if it is a
   * legal history of one flat memory of zeros.
   */
  lemma HistoriesExactly(pages: nat, n: nat, events: seq<Event>, strict: bool)
    requires n > 0
    ensures Possible(pages, n, events, strict) <==> Legal(ZeroMemory(pages), events) && NodesBelow(events, n)
  {
    hide Possible, Legal, NodesBelow, ZeroMemory;
    if Possible(pages, n, events, strict) {
      PossibleOnly(pages, n, events, strict);
    } else if Legal(ZeroMemory(pages), events) && NodesBelow(events, n) {
      LegalIsPossible(pages, n, events, strict);
    }
  }

  lemma PossibleOnly(pages: nat, n: nat, events: seq<Event>, strict: bool)
    requires n > 0 && Possible(pages, n, events, strict)
    ensures Legal(ZeroMemory(pages), events) && NodesBelow(events, n)
  {
    var moves :| RunOf(InitSystem(pages, n), moves, strict) && Events(InitSystem(pages, n), moves, strict) == events;
    PossibleIsLegal(pages, n, moves, strict);
  }
}
