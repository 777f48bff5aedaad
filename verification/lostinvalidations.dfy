/** What an invalidation that fails, and is ignored, does to what the applications see. */
module LostInvalidations {
  import opened Types
  import opened FlatMemory
  import opened PageProtocol
  import opened Coherence
  import opened PageGuarantees
  import opened AtomicFaults
  import opened SharedRegion
  import opened Histories

  /** A region of one page. */
  function One(s: State): (sys: System)
    requires Shape(s)
    ensures Formed(sys) && sys.pages == [s]
  {
    System([s])
  }

  /** Node i has a copy, or is being handed one, and is not waiting to write it itself. */
  predicate WouldRead(s: State, i: nat)
    requires Shape(s) && i < |s.app|
  {
    ReadPending(s.app[i]) || (HasCopy(s, i) && !WriteBlocked(s.app[i]))
  }

  /** Some node that is skipped will read an old copy. */
  predicate Harms(s: State)
    requires Shape(s) && Enabled(s, RevokeFails)
  {
    exists i | i in s.svc.phase.todo :: WouldRead(s, i)
  }

  /** From s on, the applications can see a load that is not the latest store. */
  ghost predicate CanGoWrong(s: State, strict: bool)
    requires Shape(s)
  {
    exists moves :: RunOf(One(s), moves, strict) && !Legal(Contents(One(s)), Events(One(s), moves, strict))
  }

  // ---------- no harm ----------

  lemma InvWeakens(s: State, strict: bool)
    requires Shape(s) && Inv(s, strict)
    ensures Inv(s, false)
  {
    forall i | 0 <= i < |s.app| ensures NodeOk(s, i, false) { assert NodeOk(s, i, strict); }
  }

  lemma {:induction false} RunOfWeakens(sys: System, moves: seq<Move>, strict: bool)
    requires Formed(sys) && RunOf(sys, moves, strict)
    ensures RunOf(sys, moves, false) && Events(sys, moves, false) == Events(sys, moves, strict)
    decreases |moves|
  {
    hide Enabled, Do, Apply, EventsOf;
    if moves != [] {
      RunOfWeakens(Apply(sys, moves[0]), moves[1..], strict);
    }
  }

  lemma NoHarm(s: State, strict: bool)
    requires Shape(s) && Inv(s, strict) && Enabled(s, RevokeFails) && !Harms(s)
    ensures !CanGoWrong(Do(s, RevokeFails), strict)
  {
    var s' := Do(s, RevokeFails);
    InvWeakens(s, strict);
    LostInvalidationExactly(s, false);
    forall moves | RunOf(One(s'), moves, strict)
      ensures Legal(Contents(One(s')), Events(One(s'), moves, strict))
    {
      RunOfWeakens(One(s'), moves, strict);
      RefinesFlatMemory(One(s'), moves, false);
    }
  }

  // ---------- harm ----------

  /** Node i's thread is done with its fault and can load from its copy, and nothing else has changed. */
  predicate Readable(u: State, w: State, i: nat)
    requires Shape(u) && i < |u.app|
  {
    && Shape(w) && |w.app| == |u.app|
    && w.app[i].Running? && !w.access[i].NoAccess?
    && forall j | 0 <= j < |u.app| && j != i :: w.app[j] == u.app[j] && w.access[j] == u.access[j]
  }

  /** The thread has its answer, or needs none, and will have a copy to read. */
  predicate WillRead(u: State, i: nat)
    requires Shape(u) && i < |u.app|
  {
    match u.app[i]
    case Running => !u.access[i].NoAccess?
    case Leaving => !u.access[i].NoAccess?
    case Granted(k, reply) => k.Rd? && reply.Some?
    case Filling(k, _, done) => k.Rd? && done <= CELLS && u.access[i].ReadWrite?
    case _ => false
  }

  lemma EndsCopying(u: State, i: nat, strict: bool) returns (w: State)
    requires Shape(u) && i < |u.app| && u.app[i].Filling? && u.app[i].kind.Rd? && u.app[i].done == CELLS
    ensures Readable(u, w, i) && Reaches(u, w, strict)
  {
    var u1 := Do(u, EndFill(i));
    Stay(u, strict);
    Then(u, u, EndFill(i), u1, strict);
    w := Do(u1, Release(i));
    Then(u, u1, Release(i), w, strict);
  }

  lemma EndsFill(u: State, i: nat, strict: bool) returns (w: State)
    requires Shape(u) && i < |u.app| && u.app[i].Filling? && u.app[i].kind.Rd? && u.app[i].done <= CELLS
    requires u.access[i].ReadWrite?
    ensures Readable(u, w, i) && Reaches(u, w, strict)
  {
    var left := CELLS - u.app[i].done;
    if left == 0 {
      w := EndsCopying(u, i, strict);
    } else {
      var u1 := Do(u, CopyIn(i, left));
      Stay(u, strict);
      Then(u, u, CopyIn(i, left), u1, strict);
      w := EndsCopying(u1, i, strict);
      Join(u, u1, w, strict);
    }
  }

  /** A thread with a copy that is not waiting for the manager gets to read it by itself. */
  lemma GetsToRead(u: State, i: nat, strict: bool) returns (w: State)
    requires Shape(u) && i < |u.app| && WillRead(u, i)
    ensures Readable(u, w, i) && Reaches(u, w, strict)
  {
    match u.app[i] {
      case Running =>
        w := u;
        Stay(u, strict);
      case Leaving =>
        w := Do(u, Release(i));
        Stay(u, strict);
        Then(u, u, Release(i), w, strict);
      case Granted(_, reply) =>
        w := Left(u, i, Rd, reply.value);
        LeaveRun(u, i, Rd, reply.value, strict);
      case _ =>
        w := EndsFill(u, i, strict);
    }
  }

  lemma StaleSteps(s: State, r: nat, i: nat, v: Word, strict: bool)
    requires Shape(s) && r < |s.app| && i < |s.app| && r != i
    requires s.app[r].Running? && s.access[r].ReadWrite? && s.app[i].Running? && !s.access[i].NoAccess?
    ensures Allowed(s, AppStore(r, 0, v), strict)
    ensures var s1 := Do(s, AppStore(r, 0, v)); Allowed(s1, AppLoad(i, 0), strict) && s1.mem[i] == s.mem[i]
  {
  }

  /** A writer and another node with a copy: the writer stores, and the other one loads the old value. */
  lemma StaleLoad(sys: System, r: nat, i: nat, strict: bool) returns (events: seq<Event>, sys': System)
    requires Formed(sys) && |sys.pages| == 1 && r < |sys.pages[0].app| && i < |sys.pages[0].app| && r != i
    requires sys.pages[0].app[r].Running? && sys.pages[0].access[r].ReadWrite?
    requires sys.pages[0].app[i].Running? && !sys.pages[0].access[i].NoAccess?
    ensures Shows(sys, events, sys', strict)
    ensures forall m: Memory | |m| > 0 :: !Legal(m, events)
  {
    var x := sys.pages[0].mem[i][0];
    var v := if x == 0 then 1 else 0;
    var store, load := At(0, AppStore(r, 0, v)), At(0, AppLoad(i, 0));
    StaleSteps(sys.pages[0], r, i, v, strict);
    hide Formed, Allowed, Do, Shows;
    var sys1 := Apply(sys, store);
    sys' := Apply(sys1, load);
    ShowsMove(sys, store, strict);
    ShowsMove(sys1, load, strict);
    ShowsJoin(sys, [Store(r, 0, v)], sys1, [Load(i, 0, x)], sys', strict);
    events := [Store(r, 0, v)] + [Load(i, 0, x)];
    StaleIsIllegal(r, i, v, x);
  }

  lemma StaleIsIllegal(r: nat, i: nat, v: Word, x: Word)
    requires v != x
    ensures forall m: Memory | |m| > 0 :: !Legal(m, [Store(r, 0, v)] + [Load(i, 0, x)])
  {
    var events := [Store(r, 0, v)] + [Load(i, 0, x)];
    assert events[1..] == [Load(i, 0, x)];
  }

  /** The skipped node's thread is one of those that get to read. */
  lemma HarmedNode(s: State, i: nat, strict: bool)
    requires Shape(s) && Inv(s, strict) && Enabled(s, RevokeFails) && i in s.svc.phase.todo && WouldRead(s, i)
    ensures i != s.svc.req && WillRead(s, i)
  {
    assert NodeOk(s, i, strict) && NodeOk(s, s.owner, strict);
  }

  lemma WriterInstalled(s: State, strict: bool)
    requires Shape(s) && Inv(s, strict) && Enabled(s, RevokeFails)
    ensures var t := Do(s, RevokeFails); ReplyOf(t.svc).Some? && Reaches(t, Installed(t), strict)
  {
    var t := Do(s, RevokeFails);
    if t.svc.phase.reply.Some? {
      InstallPage(t, t.svc.phase.reply.value, strict);
    } else {
      InstallNothing(t, strict);
    }
  }

  lemma Harm(s: State, i: nat, strict: bool)
    requires Shape(s) && Inv(s, strict) && Enabled(s, RevokeFails) && i in s.svc.phase.todo && WouldRead(s, i)
    ensures CanGoWrong(Do(s, RevokeFails), strict)
  {
    var t := Do(s, RevokeFails);
    HarmedNode(s, i, strict);
    WriterInstalled(s, strict);
    WrongAfterInstall(t, i, strict);
  }

  lemma WrongAfterInstall(t: State, i: nat, strict: bool)
    requires Shape(t) && t.svc.Serving? && t.svc.kind.Wr? && ReplyOf(t.svc).Some?
    requires i < |t.app| && i != t.svc.req && WillRead(t, i) && Reaches(t, Installed(t), strict)
    ensures CanGoWrong(t, strict)
  {
    hide Reaches, Shows;
    var u := Installed(t);
    ReachesOnPage(One(t), 0, u, strict);
    var w := GetsToRead(u, i, strict);
    ReachesOnPage(One(u), 0, w, strict);
    var events, sys' := StaleLoad(One(w), t.svc.req, i, strict);
    assert OnPage(One(t), 0, u) == One(u) && OnPage(One(u), 0, w) == One(w);
    Chain(One(t), One(u), One(w), events, sys', strict);
    GoesWrong(t, events, sys', strict);
  }

  lemma GoesWrong(t: State, events: seq<Event>, sys': System, strict: bool)
    requires Shape(t) && Shows(One(t), events, sys', strict) && forall m: Memory | |m| > 0 :: !Legal(m, events)
    ensures CanGoWrong(t, strict)
  {
    assert |Contents(One(t))| == CELLS;
  }

  lemma Chain(a: System, b: System, c: System, events: seq<Event>, d: System, strict: bool)
    requires Formed(a) && Formed(b) && Formed(c)
    requires Shows(a, [], b, strict) && Shows(b, [], c, strict) && Shows(c, events, d, strict)
    ensures Shows(a, events, d, strict)
  {
    ShowsJoin(b, [], c, events, d, strict);
    ShowsJoin(a, [], b, [] + events, d, strict);
    assert [] + ([] + events) == events;
  }

  /**
   * Ignoring a failed invalidation can make an application see a stale value if and only if one of
   * the nodes skipped has or awaits a copy and is not waiting to write it itself.
   */
  lemma LostInvalidationHarmsIff(s: State, strict: bool)
    requires Shape(s) && Inv(s, strict) && Enabled(s, RevokeFails)
    ensures CanGoWrong(Do(s, RevokeFails), strict) <==> Harms(s)
  {
    if Harms(s) {
      var i :| i in s.svc.phase.todo && WouldRead(s, i);
      Harm(s, i, strict);
    } else {
      NoHarm(s, strict);
    }
  }
}
