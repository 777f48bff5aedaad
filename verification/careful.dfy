/** Runs without a harmful step: what they need not avoid, and that the applications see one flat memory in them. */
module CarefulRuns {
  import opened Types
  import opened FlatMemory
  import opened PageProtocol
  import opened Coherence
  import opened PageGuarantees
  import opened SharedRegion
  import opened Histories
  import opened LostInvalidations

  // ---------- harmful steps ----------

  /** The manager is free to serve x although node 0 is in the middle of its own fault. */
  predicate Window(s: State, x: nat, strict: bool) {
    && Shape(s) && Inv(s, strict) && s.svc.Free? && ZeroInstalls(s)
    && x < |s.app| && s.app[x].Asking?
  }

  /**
   * Serving x now can make an application see a stale value. With a reply not touched yet, that is so
   * if the reply or the request is for writing. With a reply for writing that is half copied in, it
   * is so if node 0's memory still differs from it; with one for reading, if the request is for
   * writing, unless node 0 was closed under its copy and cannot finish it.
   */
  predicate Harmful(s: State, x: nat)
    requires Shape(s) && x < |s.app| && s.app[x].Asking?
  {
    match s.app[0]
    case Granted(k, _) => k.Wr? || s.app[x].kind.Wr?
    case Filling(k, page, done) =>
      if k.Wr? then s.mem[0] != page
      else s.app[x].kind.Wr? && (s.access[0].ReadWrite? || done == CELLS)
    case _ => false
  }

  /** Node 0 has been closed in the middle of copying its reply in, and goes no further. */
  predicate Halfway(s: State) {
    Shape(s) && s.app[0].Filling? && s.app[0].done < CELLS && !s.access[0].ReadWrite?
  }

  /** Some node that is skipped has a copy, or is being handed one, and will get to read it. */
  predicate SkipHarms(s: State)
    requires Shape(s) && Enabled(s, RevokeFails)
  {
    exists i | i in s.svc.phase.todo && !(i == 0 && Halfway(s)) :: WouldRead(s, i)
  }

  /** A start at a bad moment for node 0, or a failed invalidation that skips a node with a copy. */
  predicate HarmfulStep(s: State, st: Step)
    requires Shape(s) && Enabled(s, st)
  {
    match st
    case StartService(x) => Harmful(s, x)
    case RevokeFails => SkipHarms(s)
    case _ => false
  }

  predicate Careful(s: State, st: Step)
    requires Shape(s)
  {
    Enabled(s, st) && !HarmfulStep(s, st)
  }

  predicate CanMoveCarefully(sys: System, m: Move)
    requires Formed(sys)
  {
    && m.page < |sys.pages|
    && Careful(sys.pages[m.page], m.step)
    && (ThreadOf(m.step).Some? ==> Elsewhere(sys, m.page, ThreadOf(m.step).value))
  }

  predicate CarefulRun(sys: System, moves: seq<Move>)
    requires Formed(sys)
    decreases |moves|
  {
    moves == [] || (CanMoveCarefully(sys, moves[0]) && CarefulRun(Apply(sys, moves[0]), moves[1..]))
  }

  function CarefulExec(sys: System, moves: seq<Move>): (sys': System)
    requires Formed(sys) && CarefulRun(sys, moves)
    ensures Formed(sys') && |sys'.pages| == |sys.pages|
    decreases |moves|
  {
    if moves == [] then sys else CarefulExec(Apply(sys, moves[0]), moves[1..])
  }

  function CarefulEvents(sys: System, moves: seq<Move>): seq<Event>
    requires Formed(sys) && CarefulRun(sys, moves)
    decreases |moves|
  {
    if moves == [] then []
    else EventsOf(sys.pages[moves[0].page], moves[0].page, moves[0].step)
         + CarefulEvents(Apply(sys, moves[0]), moves[1..])
  }

  lemma GuardedMoveIsCareful(sys: System, m: Move, strict: bool)
    requires Formed(sys) && CanMove(sys, m, strict)
    ensures CanMoveCarefully(sys, m)
  {
  }

  /** A run that keeps to the hypotheses has no harmful step. */
  lemma {:induction false} GuardedIsCareful(sys: System, moves: seq<Move>, strict: bool)
    requires Formed(sys) && RunOf(sys, moves, strict)
    ensures CarefulRun(sys, moves) && CarefulEvents(sys, moves) == Events(sys, moves, strict)
    decreases |moves|
  {
    hide Enabled, HarmfulStep, Elsewhere, EventsOf;
    if moves != [] {
      GuardedMoveIsCareful(sys, moves[0], strict);
      GuardedIsCareful(Apply(sys, moves[0]), moves[1..], strict);
    }
  }

  // ---------- states the applications cannot tell apart ----------

  /** Node 0's thread, seen as having its write reply in place already. */
  predicate InPlace(u: State) {
    Shape(u) && u.app[0].Filling? && u.app[0].kind.Wr? && u.app[0].done <= CELLS && u.mem[0] == u.app[0].page
  }

  /** Node 0's thread, closed under the copy it makes for reading, goes no further. */
  predicate Stuck(u: State) {
    Halfway(u) && u.app[0].kind.Rd?
  }

  function WithZero(u: State, a: App): (v: State)
    requires Shape(u)
    ensures Shape(v)
  {
    u.(app := u.app[0 := a])
  }

  /** v is a state that the applications cannot tell from u. */
  predicate Mimics(u: State, v: State) {
    && Shape(u) && Shape(v)
    && (|| v == u
        || (InPlace(u) && v == WithZero(u, Leaving))
        || (Halfway(u) && (InPlace(u) || Stuck(u)) && v == WithZero(u, NeedLock(u.app[0].kind))))
  }

  /** Steps of node 0's thread that have already been taken in the state that mimics it. */
  predicate Hidden(u: State, st: Step)
    requires Shape(u)
  {
    InPlace(u) && (st == EndFill(0) || (st.CopyIn? && st.node == 0))
  }

  lemma HiddenStep(u: State, v: State, st: Step)
    requires Mimics(u, v) && v != u && Enabled(u, st) && Hidden(u, st)
    ensures Mimics(Do(u, st), v)
  {
    var u' := Do(u, st);
    if st.CopyIn? {
      assert u'.mem[0] == u.mem[0];
      assert u'.mem == u.mem;
      assert WithZero(u', Leaving) == v;
    } else {
      assert u' == v;
    }
  }

  /** The step is not one of node 0's thread, nor one that begins or ends a service for it. */
  predicate NotZero(u: State, st: Step)
    requires Shape(u) && Enabled(u, st)
  {
    && (ThreadStep(st) || st.StartService? ==> st.node != 0)
    && (st.Finish? ==> u.svc.req != 0)
  }

  lemma OnlyOthersMove(u: State, st: Step)
    requires (InPlace(u) || Stuck(u)) && Enabled(u, st) && !Hidden(u, st)
    ensures NotZero(u, st)
  {
  }

  lemma SameThreadStep(u: State, a: App, st: Step)
    requires Shape(u) && Enabled(u, st) && NotZero(u, st) && ThreadStep(st)
    ensures Enabled(WithZero(u, a), st) && Do(WithZero(u, a), st) == WithZero(Do(u, st), a)
  {
    assert Do(WithZero(u, a), st).app == Do(u, st).app[0 := a];
  }

  lemma SameServiceStep(u: State, a: App, st: Step)
    requires Shape(u) && Enabled(u, st) && NotZero(u, st) && !ThreadStep(st)
    ensures Enabled(WithZero(u, a), st) && Do(WithZero(u, a), st) == WithZero(Do(u, st), a)
  {
    assert Do(WithZero(u, a), st).app == Do(u, st).app[0 := a];
  }

  lemma MaskStays(u: State, st: Step)
    requires (InPlace(u) || Stuck(u)) && Enabled(u, st) && NotZero(u, st)
    ensures Do(u, st).app[0] == u.app[0] && Do(u, st).mem[0] == u.mem[0]
    ensures !u.access[0].ReadWrite? ==> !Do(u, st).access[0].ReadWrite?
  {
  }

  lemma MimicsCurrent(u: State, v: State)
    requires Mimics(u, v)
    ensures Current(v) == Current(u)
  {
  }

  /** Before the service starts, node 0's thread may as well be where the mimicking state has it. */
  lemma MaskedInv(s: State, x: nat, a: App, strict: bool)
    requires Window(s, x, strict) && ((InPlace(s) && a == Leaving) || (Stuck(s) && a == NeedLock(Rd)))
    ensures Inv(WithZero(s, a), strict) && Current(WithZero(s, a)) == Current(s)
  {
    var v := WithZero(s, a);
    assert NodeOk(s, 0, strict) && s.owner == 0;
    assert Current(v) == Current(s);
    forall i | 0 <= i < |s.app| ensures NodeOk(v, i, strict) { assert NodeOk(s, i, strict); }
  }

  // ---------- careful steps ----------

  /** What a step does to the contents, and what it shows of them, in a state that mimics. */
  predicate Follows(u: State, v: State, st: Step, v': State)
    requires Shape(u) && Enabled(u, st) && Shape(v) && Shape(v')
  {
    && Mimics(Do(u, st), v') && Inv(v', false)
    && Current(v') == (if st.AppStore? then Current(v)[st.off := st.value] else Current(v))
    && (st.AppLoad? ==> u.mem[st.node][st.off] == Current(v)[st.off])
  }

  /** A start without harm: node 0's reply may as well be installed, or not asked for yet. */
  lemma HarmlessStart(u: State, x: nat) returns (v': State)
    requires Shape(u) && Inv(u, false) && Careful(u, StartService(x)) && !Guard(u, StartService(x))
    ensures Shape(v') && Follows(u, u, StartService(x), v')
  {
    assert NodeOk(u, 0, false);
    var a := if u.app[0].kind.Wr? then Leaving else NeedLock(Rd);
    MaskedInv(u, x, a, false);
    var v := WithZero(u, a);
    StepKeeps(v, StartService(x), false);
    v' := Do(v, StartService(x));
    assert v' == WithZero(Do(u, StartService(x)), a);
  }

  /** While a writer is served, node 0's thread may as well be blocked again, if it goes no further. */
  lemma BlockedInv(u: State, v: State)
    requires Mimics(u, v) && v != u && Halfway(u) && Inv(v, false) && PastFetch(v) && v.svc.kind.Wr?
    ensures Inv(WithZero(u, NeedLock(u.app[0].kind)), false)
  {
    var w := WithZero(u, NeedLock(u.app[0].kind));
    assert Current(w) == Current(v);
    forall i | 0 <= i < |w.app| ensures NodeOk(w, i, false) { assert NodeOk(v, i, false); }
  }

  lemma HarmlessLoss(u: State, v: State) returns (v': State)
    requires Mimics(u, v) && Inv(v, false) && Careful(u, RevokeFails)
    ensures Shape(v') && Follows(u, v, RevokeFails, v')
  {
    if v != u && Halfway(u) {
      v' := WithZero(u, NeedLock(u.app[0].kind));
      BlockedInv(u, v);
    } else {
      v' := v;
    }
    LossKeeps(u, v');
    v' := Do(v', RevokeFails);
  }

  lemma LossKeeps(u: State, v: State)
    requires Mimics(u, v) && Inv(v, false) && Careful(u, RevokeFails)
    requires v != u && Halfway(u) ==> v.app[0].NeedLock?
    ensures Enabled(v, RevokeFails) && Follows(u, v, RevokeFails, Do(v, RevokeFails))
  {
    assert NodeOk(v, 0, false);
    LostInvalidationExactly(v, false);
  }

  lemma SameDo(u: State, v: State, st: Step)
    requires Mimics(u, v) && v != u && Enabled(u, st) && !Hidden(u, st)
    ensures Enabled(v, st) && Guard(v, st) && Mimics(Do(u, st), Do(v, st))
    ensures st.AppLoad? ==> v.mem == u.mem
  {
    hide Enabled, Do;
    var a := v.app[0];
    assert v == WithZero(u, a);
    OnlyOthersMove(u, st);
    MaskStays(u, st);
    if ThreadStep(st) { SameThreadStep(u, a, st); } else { SameServiceStep(u, a, st); }
  }

  lemma CarefulStep(u: State, v: State, st: Step) returns (v': State)
    requires Mimics(u, v) && Inv(v, false) && Careful(u, st)
    ensures Shape(v') && Follows(u, v, st, v')
  {
    hide Inv, Do, Current;
    if v != u && Hidden(u, st) {
      HiddenStep(u, v, st);
      v' := v;
    } else if st.RevokeFails? {
      v' := HarmlessLoss(u, v);
    } else if v == u && !Guard(u, st) {
      v' := HarmlessStart(u, st.node);
    } else {
      if v != u { SameDo(u, v, st); }
      StepKeeps(v, st, false);
      v' := Do(v, st);
    }
  }

  // ---------- careful runs ----------

  predicate MimicsAll(us: System, vs: System)
    requires Formed(us) && Formed(vs)
  {
    && |vs.pages| == |us.pages|
    && forall p | 0 <= p < |us.pages| :: Mimics(us.pages[p], vs.pages[p])
  }

  lemma MimicsContents(us: System, vs: System)
    requires Formed(us) && Formed(vs) && MimicsAll(us, vs)
    ensures Contents(us) == Contents(vs)
  {
    hide Contents;
    forall p | 0 <= p < |us.pages| ensures Current(us.pages[p]) == Current(vs.pages[p]) {
      MimicsCurrent(us.pages[p], vs.pages[p]);
    }
    SameContents(us, vs);
  }

  lemma CarefulMove(us: System, vs: System, m: Move) returns (vs': System)
    requires Formed(us) && Formed(vs) && MimicsAll(us, vs) && Coherent(vs, false) && CanMoveCarefully(us, m)
    ensures Formed(vs') && MimicsAll(Apply(us, m), vs') && Coherent(vs', false)
    ensures Legal(Contents(vs), EventsOf(us.pages[m.page], m.page, m.step))
    ensures Contents(vs') == After(Contents(vs), EventsOf(us.pages[m.page], m.page, m.step))
  {
    hide Inv, Do, Contents, Mimics, Current, HarmfulStep;
    var u, v := us.pages[m.page], vs.pages[m.page];
    var v' := CarefulStep(u, v, m.step);
    MimicsShape(u, v);
    MimicsShape(Do(u, m.step), v');
    vs' := System(vs.pages[m.page := v']);
    var events := EventsOf(u, m.page, m.step);
    if m.step.AppStore? {
      StoreInContents(vs, vs', m.page, m.step.off, m.step.value);
    } else {
      SameContents(vs, vs');
    }
    assert events != [] ==> events[1..] == [];
  }

  lemma MimicsShape(u: State, v: State)
    requires Mimics(u, v)
    ensures Shape(v) && |v.app| == |u.app|
  {
  }

  lemma {:induction false} Mirrored(us: System, vs: System, moves: seq<Move>) returns (vs': System)
    requires Formed(us) && Formed(vs) && MimicsAll(us, vs) && Coherent(vs, false) && CarefulRun(us, moves)
    ensures Formed(vs') && MimicsAll(CarefulExec(us, moves), vs') && Coherent(vs', false)
    ensures Legal(Contents(vs), CarefulEvents(us, moves))
    ensures Contents(vs') == After(Contents(vs), CarefulEvents(us, moves))
    decreases |moves|
  {
    hide MimicsAll, Coherent, Contents, Enabled, HarmfulStep, Elsewhere, EventsOf;
    if moves == [] {
      vs' := vs;
    } else {
      var m, us1 := moves[0], Apply(us, moves[0]);
      var now := EventsOf(us.pages[m.page], m.page, m.step);
      var vs1 := CarefulMove(us, vs, m);
      vs' := Mirrored(us1, vs1, moves[1..]);
      AfterAppend(Contents(vs), now, CarefulEvents(us1, moves[1..]));
    }
  }

  /**
   * In every run without a harmful step, with any number of failed calls and fetches, harmless lost
   * invalidations and harmless starts, every load returns the value of the latest store to that word,
   * and the region's contents are what the stores made them.
   */
  lemma CarefulRunsAreFlat(sys: System, moves: seq<Move>)
    requires Formed(sys) && Coherent(sys, false) && CarefulRun(sys, moves)
    ensures Legal(Contents(sys), CarefulEvents(sys, moves))
    ensures Contents(CarefulExec(sys, moves)) == After(Contents(sys), CarefulEvents(sys, moves))
  {
    var vs' := Mirrored(sys, sys, moves);
    MimicsContents(CarefulExec(sys, moves), vs');
  }

  // ---------- their histories ----------

  /** Some run of the region without a harmful step, from its freshly mapped state, shows exactly these accesses. */
  ghost predicate CarefullyPossible(pages: nat, n: nat, events: seq<Event>)
    requires n > 0
  {
    exists moves :: CarefulRun(InitSystem(pages, n), moves) && CarefulEvents(InitSystem(pages, n), moves) == events
  }

  lemma CarefulMoveNodes(sys: System, m: Move)
    requires Formed(sys) && CanMoveCarefully(sys, m)
    ensures |Apply(sys, m).pages[0].app| == |sys.pages[0].app|
    ensures NodesBelow(EventsOf(sys.pages[m.page], m.page, m.step), |sys.pages[0].app|)
  {
  }

  lemma {:induction false} CarefulNodes(sys: System, moves: seq<Move>)
    requires Formed(sys) && CarefulRun(sys, moves)
    ensures CarefulEvents(sys, moves) != [] ==> |sys.pages| > 0
    ensures |sys.pages| > 0 ==> NodesBelow(CarefulEvents(sys, moves), |sys.pages[0].app|)
    decreases |moves|
  {
    if moves != [] {
      hide Formed, Careful, Apply, EventsOf, NodesBelow;
      var m := moves[0];
      CarefulNodes(Apply(sys, m), moves[1..]);
      CarefulMoveNodes(sys, m);
      NodesBelowAppend(EventsOf(sys.pages[m.page], m.page, m.step), CarefulEvents(Apply(sys, m), moves[1..]),
                       |sys.pages[0].app|);
    }
  }

  lemma CarefulOnly(pages: nat, n: nat, moves: seq<Move>)
    requires n > 0 && CarefulRun(InitSystem(pages, n), moves)
    ensures Legal(ZeroMemory(pages), CarefulEvents(InitSystem(pages, n), moves))
    ensures NodesBelow(CarefulEvents(InitSystem(pages, n), moves), n)
  {
    InitCoherent(pages, n, false);
    CarefulRunsAreFlat(InitSystem(pages, n), moves);
    CarefulNodes(InitSystem(pages, n), moves);
  }

  /**
   * Runs without a harmful step show just the histories that runs under the hypotheses show, so what
   * is proved of the programs' histories holds for them too.
   */
  lemma CarefulHistoriesExactly(pages: nat, n: nat, events: seq<Event>, strict: bool)
    requires n > 0
    ensures CarefullyPossible(pages, n, events) <==> Possible(pages, n, events, strict)
  {
    HistoriesExactly(pages, n, events, strict);
    if Possible(pages, n, events, strict) {
      var moves :| RunOf(InitSystem(pages, n), moves, strict) && Events(InitSystem(pages, n), moves, strict) == events;
      GuardedIsCareful(InitSystem(pages, n), moves, strict);
    } else if CarefullyPossible(pages, n, events) {
      var moves :| CarefulRun(InitSystem(pages, n), moves) && CarefulEvents(InitSystem(pages, n), moves) == events;
      CarefulOnly(pages, n, moves);
    }
  }

  // ---------- no harm ----------

  /** What is mimicked by a coherent state cannot go wrong under the hypotheses. */
  lemma MimickedIsHarmless(t: State, v: State, strict: bool)
    requires Mimics(t, v) && Inv(v, false)
    ensures !CanGoWrong(t, strict)
  {
    MimicsContents(One(t), One(v));
    forall moves | RunOf(One(t), moves, strict)
      ensures Legal(Contents(One(t)), Events(One(t), moves, strict))
    {
      GuardedIsCareful(One(t), moves, strict);
      var vs' := Mirrored(One(t), One(v), moves);
    }
  }

  lemma CarefulStepIsHarmless(s: State, st: Step, strict: bool)
    requires Shape(s) && Inv(s, strict) && Careful(s, st)
    ensures !CanGoWrong(Do(s, st), strict)
  {
    InvWeakens(s, strict);
    var v' := CarefulStep(s, s, st);
    MimickedIsHarmless(Do(s, st), v', strict);
  }
}
