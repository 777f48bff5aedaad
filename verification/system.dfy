/** The whole shared region: one page machine per page, and one application thread per node. */
module SharedRegion {
  import opened Types
  import opened FlatMemory
  import opened PageProtocol
  import opened Coherence

  datatype System = System(pages: seq<State>)

  datatype Move = At(page: nat, step: Step)

  predicate Formed(sys: System) {
    forall p | 0 <= p < |sys.pages| :: Shape(sys.pages[p]) && |sys.pages[p].app| == |sys.pages[0].app|
  }

  function InitSystem(pages: nat, n: nat): (sys: System)
    requires n > 0
    ensures Formed(sys)
  {
    System(seq(pages, _ => Init(n)))
  }

  /** The application thread that takes a step; steps of the manager and of the handlers have none. */
  function ThreadOf(st: Step): Option<nat> {
    match st
    case AppLoad(i, _) => Some(i)
    case AppStore(i, _, _) => Some(i)
    case Fault(i, _) => Some(i)
    case TakeLock(i) => Some(i)
    case CallFails(i) => Some(i)
    case BeginFill(i) => Some(i)
    case CopyIn(i, _) => Some(i)
    case EndFill(i) => Some(i)
    case Release(i) => Some(i)
    case _ => None
  }

  /** The thread of node i is not inside the fault handler for a page other than p. */
  predicate Elsewhere(sys: System, p: nat, i: nat)
    requires Formed(sys)
  {
    forall q | 0 <= q < |sys.pages| && q != p && i < |sys.pages[q].app| :: sys.pages[q].app[i].Running?
  }

  predicate CanMove(sys: System, m: Move, strict: bool)
    requires Formed(sys)
  {
    && m.page < |sys.pages|
    && Allowed(sys.pages[m.page], m.step, strict)
    && (ThreadOf(m.step).Some? ==> Elsewhere(sys, m.page, ThreadOf(m.step).value))
  }

  function Apply(sys: System, m: Move): (sys': System)
    requires Formed(sys) && m.page < |sys.pages| && Enabled(sys.pages[m.page], m.step)
    ensures Formed(sys') && |sys'.pages| == |sys.pages|
  {
    System(sys.pages[m.page := Do(sys.pages[m.page], m.step)])
  }

  predicate RunOf(sys: System, moves: seq<Move>, strict: bool)
    requires Formed(sys)
    decreases |moves|
  {
    moves == [] || (CanMove(sys, moves[0], strict) && RunOf(Apply(sys, moves[0]), moves[1..], strict))
  }

  function ExecOf(sys: System, moves: seq<Move>, strict: bool): (sys': System)
    requires Formed(sys) && RunOf(sys, moves, strict)
    ensures Formed(sys') && |sys'.pages| == |sys.pages|
    decreases |moves|
  {
    if moves == [] then sys else ExecOf(Apply(sys, moves[0]), moves[1..], strict)
  }

  /** What the applications see of a step: the loads and stores that went through. */
  function EventsOf(s: State, p: nat, st: Step): seq<Event>
    requires Shape(s) && Enabled(s, st)
  {
    match st
    case AppLoad(i, off) => [Load(i, p * CELLS + off, s.mem[i][off])]
    case AppStore(i, off, v) => [Store(i, p * CELLS + off, v)]
    case _ => []
  }

  function Events(sys: System, moves: seq<Move>, strict: bool): seq<Event>
    requires Formed(sys) && RunOf(sys, moves, strict)
    decreases |moves|
  {
    if moves == [] then []
    else EventsOf(sys.pages[moves[0].page], moves[0].page, moves[0].step)
         + Events(Apply(sys, moves[0]), moves[1..], strict)
  }

  // ---------- the region is one flat memory ----------

  /** The current contents of all pages, laid end to end. */
  function Contents(sys: System): (m: Memory)
    requires Formed(sys)
    ensures |m| == |sys.pages| * CELLS
    ensures forall p, off | 0 <= p < |sys.pages| && 0 <= off < CELLS ::
              m[p * CELLS + off] == Current(sys.pages[p])[off]
  {
    seq(|sys.pages| * CELLS, l requires 0 <= l < |sys.pages| * CELLS =>
      Current(sys.pages[l / CELLS])[l % CELLS])
  }

  function ZeroMemory(pages: nat): Memory { seq(pages * CELLS, _ => 0) }

  predicate Coherent(sys: System, strict: bool)
    requires Formed(sys)
  {
    forall p | 0 <= p < |sys.pages| :: Inv(sys.pages[p], strict)
  }

  lemma InitCoherent(pages: nat, n: nat, strict: bool)
    requires n > 0
    ensures Coherent(InitSystem(pages, n), strict)
    ensures Contents(InitSystem(pages, n)) == ZeroMemory(pages)
  {
    InitInv(n, strict);
  }

  /** The contents follow the pages' contents: nothing changed, or one word of one page. */
  lemma SameContents(sys: System, sys': System)
    requires Formed(sys) && Formed(sys') && |sys'.pages| == |sys.pages|
    requires forall p | 0 <= p < |sys.pages| :: Current(sys'.pages[p]) == Current(sys.pages[p])
    ensures Contents(sys') == Contents(sys)
  {
  }

  lemma StoreInContents(sys: System, sys': System, p: nat, off: nat, v: Word)
    requires Formed(sys) && Formed(sys') && |sys'.pages| == |sys.pages| && p < |sys.pages| && off < CELLS
    requires Current(sys'.pages[p]) == Current(sys.pages[p])[off := v]
    requires forall q | 0 <= q < |sys.pages| && q != p :: Current(sys'.pages[q]) == Current(sys.pages[q])
    ensures Contents(sys') == Contents(sys)[p * CELLS + off := v]
  {
    var mem, mem' := Contents(sys), Contents(sys');
    forall l | 0 <= l < |mem| ensures mem'[l] == mem[p * CELLS + off := v][l] {
      assert l == (l / CELLS) * CELLS + l % CELLS;
    }
  }

  lemma MoveRefines(sys: System, m: Move, strict: bool)
    requires Formed(sys) && Coherent(sys, strict) && CanMove(sys, m, strict)
    ensures Coherent(Apply(sys, m), strict)
    ensures Legal(Contents(sys), EventsOf(sys.pages[m.page], m.page, m.step))
    ensures Contents(Apply(sys, m)) == After(Contents(sys), EventsOf(sys.pages[m.page], m.page, m.step))
  {
    hide Inv, Do, Contents;
    var s := sys.pages[m.page];
    var events := EventsOf(s, m.page, m.step);
    StepKeeps(s, m.step, strict);
    if m.step.AppStore? {
      StoreInContents(sys, Apply(sys, m), m.page, m.step.off, m.step.value);
    } else {
      SameContents(sys, Apply(sys, m));
    }
    assert events != [] ==> events[1..] == [];
  }

  /**
   * In every run, with any number of failed calls and fetches, every load returns the value of the
   * latest store to that word, and the region's contents are what the stores made them.
   */
  lemma {:induction false} RefinesFlatMemory(sys: System, moves: seq<Move>, strict: bool)
    requires Formed(sys) && Coherent(sys, strict) && RunOf(sys, moves, strict)
    ensures Coherent(ExecOf(sys, moves, strict), strict)
    ensures Legal(Contents(sys), Events(sys, moves, strict))
    ensures Contents(ExecOf(sys, moves, strict)) == After(Contents(sys), Events(sys, moves, strict))
    decreases |moves|
  {
    if moves == [] {
    } else {
      var m := moves[0];
      var now, later := EventsOf(sys.pages[m.page], m.page, m.step), Events(Apply(sys, m), moves[1..], strict);
      MoveRefines(sys, m, strict);
      RefinesFlatMemory(Apply(sys, m), moves[1..], strict);
      AfterAppend(Contents(sys), now, later);
    }
  }

  /** The same, from the freshly mapped region. */
  lemma LoadsSeeLatestStores(pages: nat, n: nat, moves: seq<Move>, strict: bool)
    requires n > 0 && RunOf(InitSystem(pages, n), moves, strict)
    ensures Legal(ZeroMemory(pages), Events(InitSystem(pages, n), moves, strict))
    ensures Contents(ExecOf(InitSystem(pages, n), moves, strict))
            == After(ZeroMemory(pages), Events(InitSystem(pages, n), moves, strict))
  {
    InitCoherent(pages, n, strict);
    RefinesFlatMemory(InitSystem(pages, n), moves, strict);
  }

  // ---------- pages do not interfere ----------

  /** The steps taken on page p. */
  function StepsOn(p: nat, moves: seq<Move>): seq<Step>
    decreases |moves|
  {
    if moves == [] then []
    else (if moves[0].page == p then [moves[0].step] else []) + StepsOn(p, moves[1..])
  }

  /** Seen from one page, a run of the region is a run of that page alone. */
  lemma {:induction false} PageSeesItsOwnRun(sys: System, moves: seq<Move>, p: nat, strict: bool)
    requires Formed(sys) && RunOf(sys, moves, strict) && p < |sys.pages|
    ensures Run(sys.pages[p], StepsOn(p, moves), strict)
    ensures Exec(sys.pages[p], StepsOn(p, moves), strict) == ExecOf(sys, moves, strict).pages[p]
    decreases |moves|
  {
    if moves == [] {
    } else {
      var rest := StepsOn(p, moves[1..]);
      PageSeesItsOwnRun(Apply(sys, moves[0]), moves[1..], p, strict);
      if moves[0].page == p {
        assert ([moves[0].step] + rest)[1..] == rest;
      } else {
        assert StepsOn(p, moves) == rest;
      }
    }
  }

  /** Steps on different pages, not both of one application thread, can be taken in either order. */
  lemma PagesCommute(sys: System, a: Move, b: Move, strict: bool)
    requires Formed(sys) && a.page != b.page
    requires CanMove(sys, a, strict) && CanMove(Apply(sys, a), b, strict)
    requires ThreadOf(a.step) == None || ThreadOf(a.step) != ThreadOf(b.step)
    ensures CanMove(sys, b, strict) && CanMove(Apply(sys, b), a, strict)
    ensures Apply(Apply(sys, a), b) == Apply(Apply(sys, b), a)
  {
    var sa, sb := Apply(sys, a), Apply(sys, b);
    assert sa.pages[b.page] == sys.pages[b.page] && sb.pages[a.page] == sys.pages[a.page];
    OtherThreadsStay(sys.pages[a.page], a.step);
    OtherThreadsStay(sys.pages[b.page], b.step);
    if ThreadOf(b.step).Some? {
      var i := ThreadOf(b.step).value;
      forall q | 0 <= q < |sys.pages| && q != b.page && i < |sys.pages[q].app|
        ensures sys.pages[q].app[i].Running?
      {
        assert sa.pages[q].app[i].Running?;
      }
    }
    if ThreadOf(a.step).Some? {
      var i := ThreadOf(a.step).value;
      forall q | 0 <= q < |sb.pages| && q != a.page && i < |sb.pages[q].app|
        ensures sb.pages[q].app[i].Running?
      {
        assert sys.pages[q].app[i].Running?;
      }
    }
    assert Apply(sa, b).pages == Apply(sb, a).pages;
  }

  /** A step leaves every thread but its own as idle, or as busy, as it was. */
  lemma OtherThreadsStay(s: State, st: Step)
    requires Shape(s) && Enabled(s, st)
    ensures forall i | 0 <= i < |s.app| && Some(i) != ThreadOf(st) ::
              Do(s, st).app[i].Running? == s.app[i].Running?
  {
  }
}
