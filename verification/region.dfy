/** Applications on the nodes: any sequence of loads and stores, one after the other. */
module IvyApplications {
  import opened Types
  import opened FlatMemory
  import opened PageProtocol
  import opened Coherence
  import opened SharedRegion
  import opened RequestText
  import opened IvyCluster

  /** A load or store that a node's application wants to do; `loc` counts words. */
  datatype Op = LoadOp(node: nat, loc: nat) | StoreOp(node: nat, loc: nat, value: Word)

  /** The event records the operation, with whatever value was loaded. */
  predicate Records(op: Op, e: Event) {
    match op
    case LoadOp(i, loc) => e.Load? && e.node == i && e.loc == loc
    case StoreOp(i, loc, v) => e == Store(i, loc, v)
  }

  /** The region, every page at rest, after one operation: its page takes the fault if any, and the store. */
  function Performed(sys: System, op: Op): (sys': System)
    requires Formed(sys) && op.loc / CELLS < |sys.pages| && op.node < |sys.pages[0].app|
    ensures Formed(sys') && |sys'.pages| == |sys.pages| && |sys'.pages[0].app| == |sys.pages[0].app|
  {
    var p := op.loc / CELLS;
    var s := sys.pages[p];
    System(sys.pages[p := match op
                          case LoadOp(i, _) => AfterLoad(s, i)
                          case StoreOp(i, loc, v) => AfterStore(s, i, loc % CELLS, v)])
  }

  function PerformedAll(sys: System, ops: seq<Op>): (sys': System)
    requires Formed(sys) && AllInside(sys, ops)
    ensures Formed(sys') && |sys'.pages| == |sys.pages|
    ensures |sys.pages| > 0 ==> |sys'.pages[0].app| == |sys.pages[0].app|
  {
    if ops == [] then sys else Performed(PerformedAll(sys, ops[..|ops| - 1]), ops[|ops| - 1])
  }

  predicate AllInside(sys: System, ops: seq<Op>)
    requires Formed(sys)
  {
    forall k | 0 <= k < |ops| :: ops[k].loc / CELLS < |sys.pages| && ops[k].node < |sys.pages[0].app|
  }

  class Region {
    const cluster: Cluster
    const base: nat
    const pages: nat

    constructor (n: nat, base: nat, pages: nat, drops: seq<bool>)
      requires 0 < n <= WORD_LIMIT && base % PAGE_BYTES == 0 && base + pages * PAGE_BYTES <= WORD_LIMIT
      ensures Ready() && |cluster.nodes| == n && this.pages == pages && this.base == base
      ensures Memory() == ZeroMemory(pages) && Views() == InitSystem(pages, n)
      ensures fresh(cluster) && fresh(cluster.Nodes()) && fresh(cluster.Tables())
    {
      cluster := new Cluster(n, drops);
      this.base, this.pages := base, pages;
      new;
      forall addr: nat ensures cluster.View(addr) == Init(n) {
        cluster.FreshView(addr);
      }
      InitInv(n, true);
      assert Views().pages == InitSystem(pages, n).pages;
      assert Memory() == ZeroMemory(pages);
    }

    ghost predicate Ready()
      reads cluster, cluster.Nodes(), cluster.Tables()
    {
      && cluster.Idle() && cluster.Coherent()
      && base % PAGE_BYTES == 0 && base + pages * PAGE_BYTES <= WORD_LIMIT
    }

    function PageAddr(p: nat): nat { base + p * PAGE_BYTES }

    ghost function Views(): (sys: System)
      requires cluster.Wired()
      reads cluster.Nodes(), cluster.Tables()
      ensures |sys.pages| == pages && forall p | 0 <= p < pages :: sys.pages[p] == cluster.View(PageAddr(p))
      ensures forall p | 0 <= p < pages :: |sys.pages[p].app| == |cluster.nodes|
    {
      System(seq(pages, p requires 0 <= p < pages reads cluster.Nodes(), cluster.Tables() =>
        cluster.View(PageAddr(p))))
    }

    /** The current contents of the region. */
    ghost function Memory(): (m: FlatMemory.Memory)
      requires Ready()
      reads cluster, cluster.Nodes(), cluster.Tables()
      ensures |m| == pages * CELLS
    {
      Contents(Views())
    }

    method LoadWord(i: nat, loc: nat) returns (value: Word)
      requires Ready() && i < |cluster.nodes| && loc < pages * CELLS
      modifies cluster`drops, cluster.Nodes(), cluster.Tables()
      ensures Ready() && Memory() == old(Memory()) && value == old(Memory())[loc]
      ensures Views() == Performed(old(Views()), LoadOp(i, loc))
    {
      hide Inv, Current, Contents;
      ghost var was := Views();
      value := cluster.AppLoad(i, PageAddr(loc / CELLS), loc % CELLS);
      SameContents(was, Views());
      assert Views().pages == Performed(was, LoadOp(i, loc)).pages;
    }

    method StoreWord(i: nat, loc: nat, value: Word)
      requires Ready() && i < |cluster.nodes| && loc < pages * CELLS
      modifies cluster`drops, cluster.Nodes(), cluster.Tables()
      ensures Ready() && Memory() == old(Memory())[loc := value]
      ensures Views() == Performed(old(Views()), StoreOp(i, loc, value))
    {
      hide Inv, Current, Contents;
      ghost var was := Views();
      cluster.AppStore(i, PageAddr(loc / CELLS), loc % CELLS, value);
      StoreInContents(was, Views(), loc / CELLS, loc % CELLS, value);
      assert Views().pages == Performed(was, StoreOp(i, loc, value)).pages;
    }

    /** Does one operation at the node that wants it. */
    method PerformOne(op: Op) returns (e: Event)
      requires Ready() && op.node < |cluster.nodes| && op.loc < pages * CELLS
      modifies cluster`drops, cluster.Nodes(), cluster.Tables()
      ensures Ready() && Records(op, e)
      ensures Legal(old(Memory()), [e]) && Memory() == Update(old(Memory()), e)
      ensures Views() == Performed(old(Views()), op)
    {
      hide Inv, Performed, Contents;
      match op {
        case LoadOp(i, loc) =>
          var v := LoadWord(i, loc);
          e := Load(i, loc, v);
        case StoreOp(i, loc, v) =>
          StoreWord(i, loc, v);
          e := Store(i, loc, v);
      }
      assert [e][1..] == [];
    }

    /**
     * Whatever loads and stores the applications do, in whatever order and with whatever calls lost,
     * they see one flat memory, and each page has gone from one atomic step to the next.
     */
    method Perform(ops: seq<Op>) returns (events: seq<Event>)
      requires Ready() && forall k | 0 <= k < |ops| :: ops[k].node < |cluster.nodes| && ops[k].loc < pages * CELLS
      modifies cluster`drops, cluster.Nodes(), cluster.Tables()
      ensures Ready()
      ensures |events| == |ops| && forall k | 0 <= k < |ops| :: Records(ops[k], events[k])
      ensures Legal(old(Memory()), events) && Memory() == After(old(Memory()), events)
      ensures Views() == PerformedAll(old(Views()), ops)
    {
      hide Legal, After, Update, Contents, Performed, Inv;
      events := [];
      EmptyHistory(Memory());
      for k := 0 to |ops|
        invariant Ready()
        invariant |events| == k && forall j | 0 <= j < k :: Records(ops[j], events[j])
        invariant Legal(old(Memory()), events) && Memory() == After(old(Memory()), events)
        invariant Views() == PerformedAll(old(Views()), ops[..k])
      {
        var e := PerformOne(ops[k]);
        AfterOneMore(old(Memory()), events, e);
        assert ops[..k + 1][..k] == ops[..k];
        events := events + [e];
      }
      assert ops[..|ops|] == ops;
    }
  }
}
