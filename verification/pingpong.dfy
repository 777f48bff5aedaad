/** The turn-taking counter: W workers increment one shared word in turn. */
module Pingpong {
  import opened Types
  import opened FlatMemory
  import opened Programs
  import opened SharedRegion

  const ITERATIONS: nat := 50

  /** Where a worker is: testing the bound, waiting for its turn, or in the middle of its increment. */
  datatype Worker = Outer | Turn | Add | PutBack(value: Word) | Stopped

  /** Worker i runs on node i + 1; `added` counts the increments stored so far. */
  datatype Workers = Workers(pcs: seq<Worker>, added: nat)

  /** The worker's next state, if the event is the access it makes next. */
  function Advance(w: nat, i: nat, pc: Worker, e: Event): Option<Worker>
    requires w > 0
  {
    if e.loc != 0 then None else
      match (pc, e)
      case (Outer, Load(_, _, v)) => Some(if v < ITERATIONS then Turn else Stopped)
      case (Turn, Load(_, _, v)) => Some(if v % w == i then Add else Turn)
      case (Add, Load(_, _, v)) => Some(PutBack(v))
      case (PutBack(v), Store(_, _, x)) => if x == (v + 1) % WORD_LIMIT then Some(Outer) else None
      case _ => None
  }

  function Next(p: Workers, e: Event): Option<Workers> {
    if !(1 <= e.node <= |p.pcs|) then None else
      var i := e.node - 1;
      match Advance(|p.pcs|, i, p.pcs[i], e)
      case None => None
      case Some(pc) => Some(Workers(p.pcs[i := pc], p.added + if e.Store? then 1 else 0))
  }

  function Program(): Machine<Workers> { (p, e) => Next(p, e) }

  /** W workers about to test the bound for the first time. */
  function Begin(w: nat): (p: Workers)
    ensures |p.pcs| == w && forall i | 0 <= i < w :: p.pcs[i].Outer?
  {
    Workers(seq(w, _ => Outer), 0)
  }

  /** Whoever has passed the turn test is the worker whose turn comes with 1, and has loaded no other value. */
  predicate InTurn(p: Workers)
    requires |p.pcs| > 0
  {
    forall i | 0 <= i < |p.pcs| ::
      && (p.pcs[i].Add? || p.pcs[i].PutBack? ==> i == 1 % |p.pcs|)
      && (p.pcs[i].PutBack? ==> p.pcs[i].value == 1)
  }

  /** The manager's store is done; `added` may count increments it has wiped out. */
  predicate JustStored(m: Memory, p: Workers) {
    |m| > 0 && m[0] == 1 && 0 < |p.pcs| < WORD_LIMIT - ITERATIONS
  }

  /** The workers that have tested the bound and not yet stored. */
  function Inside(p: Workers): set<nat> {
    set i | 0 <= i < |p.pcs| && !p.pcs[i].Outer? && !p.pcs[i].Stopped?
  }

  predicate Inv(m: Memory, p: Workers) {
    && |m| > 0 && 0 < |p.pcs| < WORD_LIMIT - ITERATIONS
    && m[0] == 1 + p.added
    && m[0] + |Inside(p)| <= ITERATIONS - 1 + |p.pcs|
    && forall i | 0 <= i < |p.pcs| ::
         && (p.pcs[i].Add? || p.pcs[i].PutBack? ==> m[0] % |p.pcs| == i)
         && (p.pcs[i].PutBack? ==> p.pcs[i].value == m[0])
  }

  lemma InsideAtMost(p: Workers)
    ensures |Inside(p)| <= |p.pcs|
  {
    BoundedSet(Inside(p), |p.pcs|);
  }

  lemma {:induction false} BoundedSet(s: set<nat>, n: nat)
    requires forall x | x in s :: x < n
    ensures |s| <= n
    decreases n
  {
    if n == 0 {
      assert s == {};
    } else {
      BoundedSet(s - {n - 1}, n - 1);
      if n - 1 in s {
        assert s == (s - {n - 1}) + {n - 1};
      } else {
        assert s == s - {n - 1};
      }
    }
  }

  lemma StartInv(m: Memory, p: Workers)
    requires JustStored(m, p) && p.added == 0 && InTurn(p)
    ensures Inv(m, p)
  {
    InsideAtMost(p);
  }

  /** If this is a store, it comes from the worker whose turn it is and adds one to the counter. */
  predicate OnTurn(counter: nat, w: nat, e: Event)
    requires w > 0
  {
    e.Store? ==> counter % w == e.node - 1 && e.value == counter + 1
  }

  lemma StoreKeeps(m: Memory, p: Workers, e: Event)
    requires Inv(m, p) && Legal(m, [e]) && Next(p, e).Some? && e.Store?
    ensures Inv(Update(m, e), Next(p, e).value) && OnTurn(m[0], |p.pcs|, e)
  {
    var i, q := e.node - 1, Next(p, e).value;
    InsideAtMost(p);
    assert Inside(p) == Inside(q) + {i};
    forall j | 0 <= j < |q.pcs| && j != i ensures !q.pcs[j].Add? && !q.pcs[j].PutBack? {
      assert p.pcs[j] == q.pcs[j];
    }
  }

  lemma LoadKeeps(m: Memory, p: Workers, e: Event)
    requires Inv(m, p) && Legal(m, [e]) && Next(p, e).Some? && e.Load?
    ensures Inv(m, Next(p, e).value)
  {
    var i, q := e.node - 1, Next(p, e).value;
    InsideAtMost(q);
    if q.pcs[i].Stopped? {
      assert Inside(q) == Inside(p) - {i};
    } else if !p.pcs[i].Outer? {
      assert Inside(q) == Inside(p);
    }
  }

  /** One access keeps the invariant; if it is a store, it is the increment of the worker whose turn it is. */
  lemma NextKeeps(m: Memory, p: Workers, e: Event)
    requires Inv(m, p) && Legal(m, [e]) && Next(p, e).Some?
    ensures Inv(Update(m, e), Next(p, e).value)
    ensures OnTurn(m[0], |p.pcs|, e)
  {
    hide Inv, Next;
    if e.Store? { StoreKeeps(m, p, e); } else { LoadKeeps(m, p, e); }
  }

  /** Each store comes from the worker whose turn it is, and adds one to what is there. */
  predicate StoresInTurn(m: Memory, w: nat, events: seq<Event>)
    requires |m| > 0 && w > 0
    decreases |events|
  {
    events == [] ||
    (OnTurn(m[0], w, events[0]) && StoresInTurn(Update(m, events[0]), w, events[1..]))
  }

  /**
   * Over flat memory no increment is lost, stores come only from the worker whose turn it is, and
   * the counter stays at most ITERATIONS + W - 1.
   */
  lemma {:induction false} TakesTurns(m: Memory, p: Workers, events: seq<Event>)
    requires Inv(m, p) && Legal(m, events) && Follow(Program(), p, events).Some?
    ensures Inv(After(m, events), Follow(Program(), p, events).value)
    ensures |Follow(Program(), p, events).value.pcs| == |p.pcs|
    ensures StoresInTurn(m, |p.pcs|, events)
    decreases |events|
  {
    if events == [] {
    } else {
      assert [events[0]][1..] == [];
      NextKeeps(m, p, events[0]);
      TakesTurns(Update(m, events[0]), Next(p, events[0]).value, events[1..]);
    }
  }

  // ---------- when the promise holds ----------

  /** What the program promises of these accesses: turns are taken, nothing is lost, the bound is kept. */
  predicate Promised(m: Memory, p: Workers, events: seq<Event>)
    requires |m| > 0 && |p.pcs| > 0 && Follow(Program(), p, events).Some?
  {
    && StoresInTurn(m, |p.pcs|, events)
    && After(m, events)[0] == 1 + Follow(Program(), p, events).value.added
    && After(m, events)[0] <= ITERATIONS + |p.pcs| - 1
  }

  ghost predicate AlwaysPromised(m: Memory, p: Workers)
    requires |m| > 0 && |p.pcs| > 0
  {
    forall events | Legal(m, events) && Follow(Program(), p, events).Some? :: Promised(m, p, events)
  }

  lemma StoreBreaks(m: Memory, p: Workers, i: nat)
    requires JustStored(m, p) && i < |p.pcs| && p.pcs[i].PutBack?
    requires i != 1 % |p.pcs| || p.pcs[i].value != 1
    ensures !AlwaysPromised(m, p)
  {
    var e := Store(i + 1, 0, (p.pcs[i].value + 1) % WORD_LIMIT);
    assert i != 1 % |p.pcs| || e.value != 2;
    assert !OnTurn(m[0], |p.pcs|, e);
    hide OnTurn;
    assert [e][1..] == [];
    assert Follow(Program(), Next(p, e).value, []).Some?;
    assert Legal(m, [e]) && Follow(Program(), p, [e]).Some? && !Promised(m, p, [e]);
  }

  lemma LoadBreaks(m: Memory, p: Workers, i: nat)
    requires JustStored(m, p) && i < |p.pcs| && p.pcs[i].Add? && i != 1 % |p.pcs|
    ensures !AlwaysPromised(m, p)
  {
    var load, store := Load(i + 1, 0, 1), Store(i + 1, 0, 2);
    var events := [load, store];
    var p1 := Next(p, load).value;
    assert [store][1..] == [];
    assert events[1..] == [store];
    assert Follow(Program(), Next(p1, store).value, []).Some?;
    assert Follow(Program(), p1, [store]).Some? && !StoresInTurn(m, |p.pcs|, [store]);
    assert Legal(m, events) && Follow(Program(), p, events).Some? && !Promised(m, p, events);
  }

  /**
   * From the moment of the manager's store on, turns are taken and no increment is lost in every
   * continuation, if and only if the store has wiped out no increment and finds nobody past its turn
   * test but the worker whose turn it then is.
   */
  lemma PromisedIff(m: Memory, p: Workers)
    requires JustStored(m, p)
    ensures AlwaysPromised(m, p) <==> p.added == 0 && InTurn(p)
  {
    if p.added == 0 && InTurn(p) {
      StartInv(m, p);
      forall events | Legal(m, events) && Follow(Program(), p, events).Some? ensures Promised(m, p, events) {
        TakesTurns(m, p, events);
      }
    } else if p.added != 0 {
      assert Legal(m, []) && Follow(Program(), p, []).Some? && !Promised(m, p, []);
    } else {
      var i :| 0 <= i < |p.pcs| && !((p.pcs[i].Add? || p.pcs[i].PutBack? ==> i == 1 % |p.pcs|) &&
                                     (p.pcs[i].PutBack? ==> p.pcs[i].value == 1));
      if p.pcs[i].PutBack? { StoreBreaks(m, p, i); } else { LoadBreaks(m, p, i); }
    }
  }

  // ---------- on the coherence protocol ----------

  /** For workers on the coherence protocol, in every run of the region. */
  lemma CounterOnIvy(sys: System, moves: seq<Move>, strict: bool, p: Workers)
    requires Formed(sys) && Coherent(sys, strict) && RunOf(sys, moves, strict)
    requires JustStored(Contents(sys), p) && p.added == 0 && InTurn(p)
    requires Follow(Program(), p, Events(sys, moves, strict)).Some?
    ensures Promised(Contents(sys), p, Events(sys, moves, strict))
    ensures Contents(ExecOf(sys, moves, strict)) == After(Contents(sys), Events(sys, moves, strict))
  {
    RefinesFlatMemory(sys, moves, strict);
    PromisedIff(Contents(sys), p);
  }

  /**
   * The whole program: the region is mapped, some accesses of workers come before the manager's store
   * and some after it. If the store finds the workers in turn, the counter is one more than the
   * increments, all of them made in turn.
   */
  lemma WholeProgramOnIvy(w: nat, pages: nat, n: nat, moves: seq<Move>, strict: bool,
                          before: seq<Event>, after: seq<Event>)
    requires 0 < w < WORD_LIMIT - ITERATIONS && n > 0 && pages > 0 && RunOf(InitSystem(pages, n), moves, strict)
    requires Events(InitSystem(pages, n), moves, strict) == before + ([Store(0, 0, 1)] + after)
    requires Follow(Program(), Begin(w), before).Some?
    requires Follow(Program(), Follow(Program(), Begin(w), before).value, after).Some?
    ensures var p := Follow(Program(), Begin(w), before).value;
            var m := Update(After(ZeroMemory(pages), before), Store(0, 0, 1));
            && JustStored(m, p) && Legal(m, after)
            && After(m, after) == Contents(ExecOf(InitSystem(pages, n), moves, strict))
            && (p.added == 0 && InTurn(p) ==> Promised(m, p, after))
  {
    var store := Store(0, 0, 1);
    var m0, p := After(ZeroMemory(pages), before), Follow(Program(), Begin(w), before).value;
    LoadsSeeLatestStores(pages, n, moves, strict);
    AfterAppend(ZeroMemory(pages), before, [store] + after);
    assert ([store] + after)[1..] == after;
    FollowKeepsSize(Begin(w), before);
    PromisedIff(Update(m0, store), p);
  }

  lemma {:induction false} FollowKeepsSize(p: Workers, events: seq<Event>)
    requires Follow(Program(), p, events).Some?
    ensures |Follow(Program(), p, events).value.pcs| == |p.pcs|
    decreases |events|
  {
    if events != [] {
      FollowKeepsSize(Next(p, events[0]).value, events[1..]);
    }
  }

  /**
   * An input on which the condition fails: worker 1 passes its turn test on the initial 0, loads it,
   * and wipes the manager's 1 out, so that the counter is 1 after one increment.
   */
  lemma EarlyWorkerLosesAnIncrement(w: nat, m: Memory)
    requires 0 < w && |m| > 0 && m[0] == 0
    ensures var before, after := [Load(1, 0, 0), Load(1, 0, 0), Load(1, 0, 0)], [Store(1, 0, 1)];
            && Legal(m, before + ([Store(0, 0, 1)] + after))
            && Follow(Program(), Begin(w), before).Some? && !InTurn(Follow(Program(), Begin(w), before).value)
            && Follow(Program(), Follow(Program(), Begin(w), before).value, after).Some?
            && Follow(Program(), Follow(Program(), Begin(w), before).value, after).value.added == 1
            && After(m, before + ([Store(0, 0, 1)] + after))[0] == 1
  {
    var load, store := Load(1, 0, 0), Store(1, 0, 1);
    var before, after := [load, load, load], [store];
    var p := Begin(w);
    var p1 := Next(p, load).value;
    var p2 := Next(p1, load).value;
    var p3 := Next(p2, load).value;
    assert before[1..] == [load, load] && [load, load][1..] == [load] && [load][1..] == [];
    assert Follow(Program(), p2, [load]) == Some(p3) && Follow(Program(), p1, [load, load]) == Some(p3);
    assert p3.pcs[0] == PutBack(0);
    assert [store][1..] == [] && Follow(Program(), p3, after) == Follow(Program(), Next(p3, store).value, []);
    var late := [Store(0, 0, 1)] + after;
    assert late[1..] == after;
    assert Legal(m, [load]) && Legal(m, [load, load]) && Legal(m, before);
    assert After(m, [load]) == m && After(m, [load, load]) == m && After(m, before) == m;
    assert Legal(m[0 := 1], after) && Legal(m, late) && After(m, late)[0] == 1;
    AfterAppend(m, before, late);
  }
}
