/** The parallel sort can always be completed: no state it gets into is a dead end. */
module PsortEnds {
  import opened Types
  import opened FlatMemory
  import opened Programs
  import opened Shares
  import opened Merging
  import opened SharedRegion
  import opened Histories
  import opened Psort

  // ---------- one worker ----------

  /** The next access of worker i; `loc` cells outside the memory cannot come up. */
  function WorkerAccess(job: Job, m: Memory, i: nat, w: Worker): (e: Event)
    requires Fits(job, |m|) && i < job.k
    ensures e.node == i + 1
  {
    var loc := match w
      case Wait => READY
      case GetElems => ELEMS
      case GetNodes(_) => NODES
      case Sort(_, _, j, at) =>
        if at.CompareLeft? || at.LoadTemp? || at.PutLeft? then (if j > 0 then Base(job, i) + j - 1 else 0)
        else Base(job, i) + j
      case PutDone => DoneAt(i)
      case Finished => READY;
    match w
    case Sort(_, _, _, PutLeft(_, right)) => Store(i + 1, loc, right)
    case Sort(_, _, _, PutRight(temp)) => Store(i + 1, loc, temp)
    case PutDone => Store(i + 1, loc, 1)
    case _ => Load(i + 1, loc, if loc < |m| then m[loc] else 0)
  }

  function WorkerStage(w: Worker): nat {
    match w
    case Wait => 5
    case GetElems => 4
    case GetNodes(_) => 3
    case Sort(_, _, _, _) => 2
    case PutDone => 1
    case Finished => 0
  }

  function PassesLeft(w: Worker): nat { if w.Sort? && w.pass <= w.n then w.n - w.pass else 0 }

  function TurnsLeft(w: Worker): nat { if w.Sort? && w.j <= w.n then w.n - w.j else 0 }

  function AccessesLeft(w: Worker): nat {
    if w.Sort? then
      match w.at
      case CompareLeft => 6
      case CompareRight(_) => 5
      case LoadTemp => 4
      case LoadRight(_) => 3
      case PutLeft(_, _) => 2
      case PutRight(_) => 1
    else 0
  }

  /** w' is closer to the end than w. */
  predicate WorkerCloser(w': Worker, w: Worker) {
    WorkerStage(w') < WorkerStage(w) ||
    (WorkerStage(w') == WorkerStage(w) &&
     (PassesLeft(w') < PassesLeft(w) ||
      (PassesLeft(w') == PassesLeft(w) &&
       (TurnsLeft(w') < TurnsLeft(w) ||
        (TurnsLeft(w') == TurnsLeft(w) && AccessesLeft(w') < AccessesLeft(w))))))
  }

  lemma SortMoves(job: Job, m: Memory, t: Team, i: nat)
    requires Inv(job, m, t) && i < job.k && Published(t.boss) && t.workers[i].Sort?
    ensures var e := WorkerAccess(job, m, i, t.workers[i]);
            Legal(m, [e]) && NextWorker(i, t.workers[i], e).Some? &&
            WorkerCloser(NextWorker(i, t.workers[i], e).value, t.workers[i])
  {
    hide AccessOk, BossOk, Written;
    var w := t.workers[i];
    var e := WorkerAccess(job, m, i, w);
    assert WorkerOk(job, m, i, w, true) && |WindowIn(job, m, i)| == Per(job) == w.n;
    assert [e][1..] == [];
  }

  lemma WorkerMoves(job: Job, m: Memory, t: Team, i: nat)
    requires Inv(job, m, t) && i < job.k && Published(t.boss) && !t.workers[i].Finished?
    ensures var e := WorkerAccess(job, m, i, t.workers[i]);
            Legal(m, [e]) && NextWorker(i, t.workers[i], e).Some? &&
            WorkerCloser(NextWorker(i, t.workers[i], e).value, t.workers[i])
  {
    var w := t.workers[i];
    if w.Sort? {
      SortMoves(job, m, t, i);
    } else {
      var e := WorkerAccess(job, m, i, w);
      assert WorkerOk(job, m, i, w, true);
      assert [e][1..] == [];
    }
  }

  lemma NextOfWorker(job: Job, t: Team, e: Event, i: nat)
    requires 0 < job.k && i < |t.workers| && e.node == i + 1 && NextWorker(i, t.workers[i], e).Some?
    ensures Next(job, t, e) == Some(t.(workers := t.workers[i := NextWorker(i, t.workers[i], e).value]))
  {
  }

  lemma WorkerGoes(job: Job, m: Memory, t: Team, i: nat) returns (e: Event, m': Memory, t': Team)
    requires Inv(job, m, t) && i < job.k == |t.workers| && Published(t.boss) && !t.workers[i].Finished?
    ensures Goes(Program(job), m, t, [e], m', t') && Inv(job, m', t')
    ensures |t'.workers| == |t.workers| && t' == t.(workers := t.workers[i := t'.workers[i]])
    ensures WorkerCloser(t'.workers[i], t.workers[i])
  {
    assert Fits(job, |m|);
    hide Inv, Goes, Legal, Update, Next, NextWorker, WorkerCloser, WorkerAccess, Published;
    e := WorkerAccess(job, m, i, t.workers[i]);
    WorkerMoves(job, m, t, i);
    NextOfWorker(job, t, e, i);
    WorkerKeeps(job, m, t, e);
    GoesOneStep(Program(job), m, t, e);
    m', t' := Update(m, e), Next(job, t, e).value;
  }

  lemma {:induction false} FinishWorker(job: Job, m: Memory, t: Team, i: nat)
    returns (events: seq<Event>, m': Memory, t': Team)
    requires Inv(job, m, t) && i < job.k && |t.workers| == job.k && Published(t.boss)
    ensures Goes(Program(job), m, t, events, m', t') && Inv(job, m', t')
    ensures t' == t.(workers := t.workers[i := Finished])
    decreases WorkerStage(t.workers[i]), PassesLeft(t.workers[i]), TurnsLeft(t.workers[i]), AccessesLeft(t.workers[i])
  {
    hide Inv, Goes;
    if t.workers[i].Finished? {
      events, m', t' := [], m, t;
      Stays(Program(job), m, t);
      assert t.workers[i := Finished] == t.workers;
    } else {
      var e, m1, t1 := WorkerGoes(job, m, t, i);
      events, m', t' := FinishWorker(job, m1, t1, i);
      GoesOn(Program(job), m, t, [e], m1, t1, events, m', t');
      events := [e] + events;
      assert t1.workers[i := Finished] == t.workers[i := Finished];
    }
  }

  lemma {:induction false} FinishWorkers(job: Job, m: Memory, t: Team, n: nat)
    returns (events: seq<Event>, m': Memory, t': Team)
    requires Inv(job, m, t) && n <= job.k && Published(t.boss)
    ensures Goes(Program(job), m, t, events, m', t') && Inv(job, m', t')
    ensures t'.boss == t.boss && forall i | 0 <= i < n :: t'.workers[i].Finished?
    decreases n
  {
    if n == 0 {
      events, m', t' := [], m, t;
    } else {
      var xs, m1, t1 := FinishWorkers(job, m, t, n - 1);
      var ys;
      ys, m', t' := FinishWorker(job, m1, t1, n - 1);
      GoesOn(Program(job), m, t, xs, m1, t1, ys, m', t');
      events := xs + ys;
    }
  }

  // ---------- the coordinator ----------

  function BossAccess(job: Job, m: Memory, b: Boss): Event
    requires Fits(job, |m|)
  {
    match b
    case Clear(j) => Store(0, j, 0)
    case Fill(j) => Store(0, DataAt(j), if j < |job.input| then job.input[j] else 0)
    case SetElems => Store(0, ELEMS, |job.input|)
    case ClearReady => Store(0, READY, 0)
    case ClearDone(i) => Store(0, DoneAt(i), 0)
    case SetNodes => Store(0, NODES, job.k)
    case SetReady => Store(0, READY, 1)
    case Scan(i) => Load(0, DoneAt(i), if DoneAt(i) < |m| then m[DoneAt(i)] else 0)
    case LoadElems => Load(0, ELEMS, m[ELEMS])
    case Merge(per, iter, _, i, _, _) =>
      var loc := DataAt(StartOf(per, i) + if i < |iter| then iter[i] else 0);
      Load(0, loc, if loc < |m| then m[loc] else 0)
    case Answer(_) => Load(0, READY, m[READY])
  }

  function BossStage(b: Boss): nat {
    match b
    case Clear(_) => 10
    case Fill(_) => 9
    case SetElems => 8
    case ClearReady => 7
    case ClearDone(_) => 6
    case SetNodes => 5
    case SetReady => 4
    case Scan(_) => 3
    case LoadElems => 2
    case Merge(_, _, _, _, _, _) => 1
    case Answer(_) => 0
  }

  function ItemsLeft(job: Job, b: Boss): nat {
    match b
    case Clear(j) => if j <= CELLS + |job.input| then CELLS + |job.input| - j else 0
    case Fill(j) => if j <= |job.input| then |job.input| - j else 0
    case ClearDone(i) => if i <= job.k then job.k - i else 0
    case Scan(i) => if i <= job.k then job.k - i else 0
    case Merge(per, iter, _, _, _, _) => if forall i | 0 <= i < |iter| :: iter[i] <= per then Left(iter, per) else 0
    case _ => 0
  }

  function HeadsLeft(job: Job, b: Boss): nat { if b.Merge? && b.i <= job.k then job.k - b.i else 0 }

  predicate BossCloser(job: Job, b': Boss, b: Boss) {
    BossStage(b') < BossStage(b) ||
    (BossStage(b') == BossStage(b) &&
     (ItemsLeft(job, b') < ItemsLeft(job, b) ||
      (ItemsLeft(job, b') == ItemsLeft(job, b) && HeadsLeft(job, b') < HeadsLeft(job, b))))
  }

  /** With an element emitted, fewer are left; without, fewer heads of this search. */
  lemma EmitCloser(job: Job, b: Boss, min: Word, k: nat)
    requires 0 < job.k && b.Merge? && MergeOk(job, b) && k < |b.iter| && b.iter[k] < b.per
    ensures BossCloser(job, NextSearch(b.per, b.iter[k := b.iter[k] + 1], b.out + [min]), b)
  {
    LeftShrinks(b.iter, b.per, k);
  }

  lemma MergeCloser(job: Job, b: Boss, v: Word)
    requires 0 < job.k && b.Merge? && MergeOk(job, b)
    ensures var r := Better(v, b.i, b.min, b.idx);
            BossCloser(job, GoOn(b.per, b.iter, b.out, b.i + 1, r.0, r.1), b)
  {
    var r := Better(v, b.i, b.min, b.idx);
    assert r.1.Some? ==> Live(Results(job, job.k), b.iter, r.1.value) && b.iter[r.1.value] < b.per;
    if Seek(b.per, b.iter, b.i + 1) == |b.iter| && r.1.Some? {
      EmitCloser(job, b, r.0, r.1.value);
    }
  }

  lemma HeadIsInside(job: Job, b: Boss)
    requires 0 < job.k && b.Merge? && MergeOk(job, b)
    ensures b.i < |b.iter| == job.k && DataAt(StartOf(b.per, b.i) + b.iter[b.i]) < CELLS + |job.input|
  {
    assert |Results(job, job.k)[b.i]| == Per(job);
    WindowInside(|job.input|, job.k, b.i);
  }

  lemma MergeMoves(job: Job, m: Memory, b: Boss)
    requires Fits(job, |m|) && b.Merge? && MergeOk(job, b)
    ensures var e := BossAccess(job, m, b);
            Legal(m, [e]) && NextBoss(job, b, e).Some? && BossCloser(job, NextBoss(job, b, e).value, b)
  {
    hide GoOn, BossCloser, MergeOk;
    var e := BossAccess(job, m, b);
    HeadIsInside(job, b);
    assert [e][1..] == [];
    MergeCloser(job, b, e.value);
  }

  lemma BossMoves(job: Job, m: Memory, t: Team)
    requires Inv(job, m, t) && !t.boss.Answer?
    requires Published(t.boss) ==> forall i | 0 <= i < job.k :: t.workers[i].Finished?
    ensures var e := BossAccess(job, m, t.boss);
            Legal(m, [e]) && NextBoss(job, t.boss, e).Some? &&
            BossCloser(job, NextBoss(job, t.boss, e).value, t.boss)
  {
    if t.boss.Merge? {
      MergeMoves(job, m, t.boss);
    } else {
      var e := BossAccess(job, m, t.boss);
      assert [e][1..] == [];
      if t.boss.Scan? {
        assert WorkerOk(job, m, t.boss.i, t.workers[t.boss.i], true);
      }
    }
  }

  lemma BossGoes(job: Job, m: Memory, t: Team) returns (e: Event, m': Memory, t': Team)
    requires Inv(job, m, t) && !t.boss.Answer?
    requires Published(t.boss) ==> forall i | 0 <= i < job.k :: t.workers[i].Finished?
    ensures Goes(Program(job), m, t, [e], m', t') && Inv(job, m', t')
    ensures t'.workers == t.workers && BossCloser(job, t'.boss, t.boss)
    ensures Published(t.boss) ==> Published(t'.boss)
  {
    e := BossAccess(job, m, t.boss);
    BossMoves(job, m, t);
    BossKeeps(job, m, t, e);
    BossWrites(job, m, t, e);
    GoesOneStep(Program(job), m, t, e);
    m', t' := Update(m, e), Next(job, t, e).value;
  }

  /** The coordinator goes on to the scan, and from there, once all workers are done, to the answer. */
  lemma {:induction false} FinishBoss(job: Job, m: Memory, t: Team, all: bool)
    returns (events: seq<Event>, m': Memory, t': Team)
    requires Inv(job, m, t)
    requires all ==> Published(t.boss) && forall i | 0 <= i < job.k :: t.workers[i].Finished?
    ensures Goes(Program(job), m, t, events, m', t') && Inv(job, m', t')
    ensures if all then t'.boss.Answer? else Published(t'.boss)
    decreases BossStage(t.boss), ItemsLeft(job, t.boss), HeadsLeft(job, t.boss)
  {
    if (if all then t.boss.Answer? else Published(t.boss)) {
      events, m', t' := [], m, t;
    } else {
      var e, m1, t1 := BossGoes(job, m, t);
      events, m', t' := FinishBoss(job, m1, t1, all);
      GoesOn(Program(job), m, t, [e], m1, t1, events, m', t');
      events := [e] + events;
    }
  }

  /** Whatever the sort has done so far, it can be continued to an answer. */
  lemma CanAlwaysFinish(job: Job, pages: nat, events: seq<Event>)
    requires Fits(job, pages * CELLS) && Legal(ZeroMemory(pages), events)
    requires Follow(Program(job), Initial(job), events).Some?
    ensures exists more, m, t ::
              Goes(Program(job), After(ZeroMemory(pages), events),
                   Follow(Program(job), Initial(job), events).value, more, m, t) &&
              t.boss.Answer?
  {
    var m0, t0 := After(ZeroMemory(pages), events), Follow(Program(job), Initial(job), events).value;
    InitialInv(job, pages);
    RunKeeps(job, ZeroMemory(pages), Initial(job), events);
    var xs, m1, t1 := FinishBoss(job, m0, t0, false);
    var ys, m2, t2 := FinishWorkers(job, m1, t1, job.k);
    var zs, m3, t3 := FinishBoss(job, m2, t2, true);
    GoesOn(Program(job), m0, t0, xs, m1, t1, ys, m2, t2);
    GoesOn(Program(job), m0, t0, xs + ys, m2, t2, zs, m3, t3);
  }

  // ---------- on the coherence protocol ----------

  /** Only the nodes of the program make accesses. */
  lemma {:induction false} FollowNodes(job: Job, t: Team, events: seq<Event>)
    requires 0 < job.k == |t.workers| && Follow(Program(job), t, events).Some?
    ensures NodesBelow(events, job.k + 1)
    decreases |events|
  {
    if events != [] {
      FollowNodes(job, Next(job, t, events[0]).value, events[1..]);
      assert forall k | 0 < k < |events| :: events[k] == events[1..][k - 1];
    }
  }

  /** Every run of the protocol that shows the sort has a history that another run continues to an answer. */
  lemma CanAlwaysFinishOnIvy(job: Job, pages: nat, n: nat, moves: seq<Move>, strict: bool)
    requires n >= job.k + 1 && Fits(job, pages * CELLS) && RunOf(InitSystem(pages, n), moves, strict)
    requires Follow(Program(job), Initial(job), Events(InitSystem(pages, n), moves, strict)).Some?
    ensures exists more ::
              var events := Events(InitSystem(pages, n), moves, strict) + more;
              Possible(pages, n, events, strict) && Follow(Program(job), Initial(job), events).Some? &&
              Follow(Program(job), Initial(job), events).value.boss.Answer?
  {
    var events := Events(InitSystem(pages, n), moves, strict);
    LoadsSeeLatestStores(pages, n, moves, strict);
    CanAlwaysFinish(job, pages, events);
    var m0, t0 := After(ZeroMemory(pages), events), Follow(Program(job), Initial(job), events).value;
    var more, m, t :| Goes(Program(job), m0, t0, more, m, t) && t.boss.Answer?;
    AfterAppend(ZeroMemory(pages), events, more);
    FollowAppend(Program(job), Initial(job), events, more);
    FollowNodes(job, Initial(job), events + more);
    LegalIsPossible(pages, n, events + more, strict);
  }
}
