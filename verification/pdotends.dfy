/** The parallel dot product can always be completed: no state it gets into is a dead end. */
module PdotEnds {
  import opened Types
  import opened FlatMemory
  import opened Programs
  import opened Shares
  import opened SharedRegion
  import opened Histories
  import opened Pdot

  // ---------- one worker ----------

  function WorkerCell(job: Job, i: nat, w: Worker): nat
    requires job.k > 0
  {
    match w
    case Wait => READY
    case GetElems => ELEMS
    case LoadA(j, half, _) => VecAt(StartOf(Share(half, job.k), i) + j)
    case LoadB(j, half, _, _) => VecAt(half + StartOf(Share(half, job.k), i) + j)
    case PutResult(_) => ResultAt(i)
    case PutDone => DoneAt(job.k, i)
    case Finished => READY
  }

  /** The next access of worker i. */
  function WorkerAccess(job: Job, m: Memory, i: nat, w: Worker): (e: Event)
    requires job.k > 0
    ensures e.node == i + 2
  {
    var loc := WorkerCell(job, i, w);
    match w
    case PutResult(sum) => Store(i + 2, loc, sum)
    case PutDone => Store(i + 2, loc, DONE_MARK)
    case _ => Load(i + 2, loc, if loc < |m| then m[loc] else 0)
  }

  function WorkerStage(w: Worker): nat {
    match w
    case Wait => 5
    case GetElems => 4
    case LoadA(_, _, _) => 3
    case LoadB(_, _, _, _) => 3
    case PutResult(_) => 2
    case PutDone => 1
    case Finished => 0
  }

  function LoadsLeft(job: Job, w: Worker): nat
    requires job.k > 0
  {
    match w
    case LoadA(j, half, _) => if j < Share(half, job.k) then 2 * (Share(half, job.k) - j) else 0
    case LoadB(j, half, _, _) => if j < Share(half, job.k) then 2 * (Share(half, job.k) - j) - 1 else 0
    case _ => 0
  }

  /** w' is closer to the end than w. */
  predicate WorkerCloser(job: Job, w': Worker, w: Worker)
    requires job.k > 0
  {
    WorkerStage(w') < WorkerStage(w) ||
    (WorkerStage(w') == WorkerStage(w) && LoadsLeft(job, w') < LoadsLeft(job, w))
  }

  lemma LoadMoves(job: Job, m: Memory, i: nat, w: Worker)
    requires Fits(job, |m|) && i < job.k && WorkerOk(job, m, i, w, true)
    requires w.LoadA? || w.LoadB?
    ensures var e := WorkerAccess(job, m, i, w);
            Legal(m, [e]) && NextWorker(job, i, w, e).Some? && WorkerCloser(job, NextWorker(job, i, w, e).value, w)
  {
    hide Dot, Part, Plus, Times;
    var e := WorkerAccess(job, m, i, w);
    assert [e][1..] == [];
    WindowFits(job, i);
  }

  lemma WorkerMoves(job: Job, m: Memory, i: nat, w: Worker, b: Boss)
    requires Fits(job, |m|) && i < job.k && WorkerOk(job, m, i, w, true)
    requires Published(b) && Written(job, m, b) && !w.Finished?
    ensures var e := WorkerAccess(job, m, i, w);
            Legal(m, [e]) && NextWorker(job, i, w, e).Some? && WorkerCloser(job, NextWorker(job, i, w, e).value, w)
  {
    hide Dot, Part, Plus, Times;
    if w.LoadA? || w.LoadB? {
      LoadMoves(job, m, i, w);
    } else {
      var e := WorkerAccess(job, m, i, w);
      assert [e][1..] == [];
    }
  }

  lemma NextOfWorker(job: Job, t: Team, e: Event, i: nat)
    requires 0 < job.k && i < |t.workers| && e.node == i + 2 && NextWorker(job, i, t.workers[i], e).Some?
    ensures Next(job, t, e) == Some(t.(workers := t.workers[i := NextWorker(job, i, t.workers[i], e).value]))
  {
  }

  lemma WorkerGoes(job: Job, m: Memory, t: Team, i: nat) returns (e: Event, m': Memory, t': Team)
    requires Inv(job, m, t) && i < job.k == |t.workers| && Published(t.boss) && !t.workers[i].Finished?
    ensures Goes(Program(job), m, t, [e], m', t') && Inv(job, m', t')
    ensures |t'.workers| == |t.workers| && t' == t.(workers := t.workers[i := t'.workers[i]])
    ensures WorkerCloser(job, t'.workers[i], t.workers[i])
  {
    e := WorkerAccess(job, m, i, t.workers[i]);
    assert WorkerOk(job, m, i, t.workers[i], true);
    WorkerMoves(job, m, i, t.workers[i], t.boss);
    hide Inv, Goes, Legal, Update, Next, NextWorker, WorkerCloser, WorkerAccess, Published;
    NextOfWorker(job, t, e, i);
    WorkerKeeps(job, m, t, e);
    GoesOneStep(Program(job), m, t, e);
    m', t' := Update(m, e), Next(job, t, e).value;
  }

  lemma {:induction false} FinishWorker(job: Job, m: Memory, t: Team, i: nat)
    returns (events: seq<Event>, m': Memory, t': Team)
    requires Inv(job, m, t) && i < job.k && |t.workers| == job.k && Published(t.boss)
    ensures Goes(Program(job), m, t, events, m', t') && Inv(job, m', t')
    ensures t' == t.(workers := t.workers[i := Finished])
    decreases WorkerStage(t.workers[i]), LoadsLeft(job, t.workers[i])
  {
    hide Inv, Goes;
    if t.workers[i].Finished? {
      events, m', t' := [], m, t;
      Stays(Program(job), m, t);
      assert t.workers[i := Finished] == t.workers;
    } else {
      var e, m1, t1 := WorkerGoes(job, m, t, i);
      events, m', t' := FinishWorker(job, m1, t1, i);
      GoesOn(Program(job), m, t, [e], m1, t1, events, m', t');
      events := [e] + events;
      assert t1.workers[i := Finished] == t.workers[i := Finished];
    }
  }

  lemma {:induction false} FinishWorkers(job: Job, m: Memory, t: Team, n: nat)
    returns (events: seq<Event>, m': Memory, t': Team)
    requires Inv(job, m, t) && 0 < job.k == |t.workers| && n <= job.k && Published(t.boss)
    ensures Goes(Program(job), m, t, events, m', t') && Inv(job, m', t') && |t'.workers| == job.k
    ensures t'.boss == t.boss && forall i | 0 <= i < n :: t'.workers[i].Finished?
    decreases n
  {
    hide Inv, Goes;
    if n == 0 {
      events, m', t' := [], m, t;
      Stays(Program(job), m, t);
    } else {
      var xs, m1, t1 := FinishWorkers(job, m, t, n - 1);
      var ys;
      ys, m', t' := FinishWorker(job, m1, t1, n - 1);
      GoesOn(Program(job), m, t, xs, m1, t1, ys, m', t');
      events := xs + ys;
    }
  }

  // ---------- the coordinator ----------

  function BossAccess(job: Job, m: Memory, b: Boss): (e: Event)
    requires Fits(job, |m|)
    ensures e.node == 1
  {
    match b
    case Fill(j) => Store(1, VecAt(j), if j < |job.input| then job.input[j] else 0)
    case SetElems => Store(1, ELEMS, |job.input|)
    case ClearReady => Store(1, READY, 0)
    case ClearDone(i) => Store(1, DoneAt(job.k, i), 0)
    case SetReady => Store(1, READY, 1)
    case Scan(i, _) => Load(1, DoneAt(job.k, i), if DoneAt(job.k, i) < |m| then m[DoneAt(job.k, i)] else 0)
    case Merge(i, _) => Load(1, ResultAt(i), if ResultAt(i) < |m| then m[ResultAt(i)] else 0)
    case Answer(_) => Load(1, READY, m[READY])
  }

  function BossStage(b: Boss): nat {
    match b
    case Fill(_) => 7
    case SetElems => 6
    case ClearReady => 5
    case ClearDone(_) => 4
    case SetReady => 3
    case Scan(_, _) => 2
    case Merge(_, _) => 1
    case Answer(_) => 0
  }

  /** A scan that has missed a worker still goes to its end, and then starts over. */
  function ItemsLeft(job: Job, b: Boss): nat {
    match b
    case Fill(j) => if j <= |job.input| then |job.input| - j else 0
    case ClearDone(i) => if i <= job.k then job.k - i else 0
    case Scan(i, all) => (if i <= job.k then job.k - i else 0) + if all then 0 else job.k + 1
    case Merge(i, _) => if i <= job.k then job.k - i else 0
    case _ => 0
  }

  predicate BossCloser(job: Job, b': Boss, b: Boss) {
    BossStage(b') < BossStage(b) || (BossStage(b') == BossStage(b) && ItemsLeft(job, b') < ItemsLeft(job, b))
  }

  lemma BossMoves(job: Job, m: Memory, t: Team)
    requires Inv(job, m, t) && !t.boss.Answer?
    requires Published(t.boss) ==> forall i | 0 <= i < job.k :: t.workers[i].Finished?
    ensures var e := BossAccess(job, m, t.boss);
            Legal(m, [e]) && NextBoss(job, t.boss, e).Some? &&
            BossCloser(job, NextBoss(job, t.boss, e).value, t.boss)
  {
    hide PartSum, Part, Dot, Plus;
    var e := BossAccess(job, m, t.boss);
    assert [e][1..] == [];
    if t.boss.Scan? {
      assert WorkerOk(job, m, t.boss.i, t.workers[t.boss.i], true);
    }
  }

  lemma BossGoes(job: Job, m: Memory, t: Team) returns (e: Event, m': Memory, t': Team)
    requires Inv(job, m, t) && !t.boss.Answer?
    requires |t.workers| == job.k && (Published(t.boss) ==> forall i | 0 <= i < job.k :: t.workers[i].Finished?)
    ensures Goes(Program(job), m, t, [e], m', t') && Inv(job, m', t')
    ensures t'.workers == t.workers && BossCloser(job, t'.boss, t.boss)
    ensures Published(t.boss) ==> Published(t'.boss)
  {
    e := BossAccess(job, m, t.boss);
    BossMoves(job, m, t);
    assert Next(job, t, e) == Some(t.(boss := NextBoss(job, t.boss, e).value));
    hide Inv, Goes, Legal, Update, Next, NextBoss, BossCloser, BossAccess, Published;
    BossKeeps(job, m, t, e);
    BossWrites(job, m, t, e);
    GoesOneStep(Program(job), m, t, e);
    m', t' := Update(m, e), Next(job, t, e).value;
  }

  /** The coordinator goes on to the scan, and from there, once all workers are done, to the answer. */
  lemma {:induction false} FinishBoss(job: Job, m: Memory, t: Team, all: bool)
    returns (events: seq<Event>, m': Memory, t': Team)
    requires Inv(job, m, t) && job.k > 0 && |t.workers| == job.k
    requires all ==> Published(t.boss) && forall i | 0 <= i < job.k :: t.workers[i].Finished?
    ensures Goes(Program(job), m, t, events, m', t') && Inv(job, m', t') && |t'.workers| == job.k
    ensures if all then t'.boss.Answer? else Published(t'.boss)
    decreases BossStage(t.boss), ItemsLeft(job, t.boss)
  {
    hide Inv, Goes;
    if (if all then t.boss.Answer? else Published(t.boss)) {
      events, m', t' := [], m, t;
      Stays(Program(job), m, t);
    } else {
      var e, m1, t1 := BossGoes(job, m, t);
      events, m', t' := FinishBoss(job, m1, t1, all);
      GoesOn(Program(job), m, t, [e], m1, t1, events, m', t');
      events := [e] + events;
    }
  }

  /** Whatever the dot product has done so far, it can be continued to an answer. */
  lemma CanAlwaysFinish(job: Job, pages: nat, events: seq<Event>)
    requires Fits(job, pages * CELLS) && Legal(ZeroMemory(pages), events)
    requires Follow(Program(job), Initial(job), events).Some?
    ensures exists more, m, t ::
              Goes(Program(job), After(ZeroMemory(pages), events),
                   Follow(Program(job), Initial(job), events).value, more, m, t) &&
              t.boss.Answer?
  {
    var m0, t0 := After(ZeroMemory(pages), events), Follow(Program(job), Initial(job), events).value;
    InitialInv(job, pages);
    RunKeeps(job, ZeroMemory(pages), Initial(job), events);
    assert |t0.workers| == job.k;
    hide Inv, Goes;
    var xs, m1, t1 := FinishBoss(job, m0, t0, false);
    var ys, m2, t2 := FinishWorkers(job, m1, t1, job.k);
    var zs, m3, t3 := FinishBoss(job, m2, t2, true);
    GoesOn(Program(job), m0, t0, xs, m1, t1, ys, m2, t2);
    GoesOn(Program(job), m0, t0, xs + ys, m2, t2, zs, m3, t3);
  }

  // ---------- on the coherence protocol ----------

  /** Only the nodes of the program make accesses. */
  lemma {:induction false} FollowNodes(job: Job, t: Team, events: seq<Event>)
    requires 0 < job.k == |t.workers| && Follow(Program(job), t, events).Some?
    ensures NodesBelow(events, job.k + 2)
    decreases |events|
  {
    if events != [] {
      FollowNodes(job, Next(job, t, events[0]).value, events[1..]);
      assert forall k | 0 < k < |events| :: events[k] == events[1..][k - 1];
    }
  }

  /** Every run of the protocol that shows the dot product has a history that another run continues to an answer. */
  lemma CanAlwaysFinishOnIvy(job: Job, pages: nat, n: nat, moves: seq<Move>, strict: bool)
    requires n >= job.k + 2 && Fits(job, pages * CELLS) && RunOf(InitSystem(pages, n), moves, strict)
    requires Follow(Program(job), Initial(job), Events(InitSystem(pages, n), moves, strict)).Some?
    ensures exists more ::
              var events := Events(InitSystem(pages, n), moves, strict) + more;
              Possible(pages, n, events, strict) && Follow(Program(job), Initial(job), events).Some? &&
              Follow(Program(job), Initial(job), events).value.boss.Answer?
  {
    var events := Events(InitSystem(pages, n), moves, strict);
    LoadsSeeLatestStores(pages, n, moves, strict);
    CanAlwaysFinish(job, pages, events);
    var m0, t0 := After(ZeroMemory(pages), events), Follow(Program(job), Initial(job), events).value;
    var more, m, t :| Goes(Program(job), m0, t0, more, m, t) && t.boss.Answer?;
    AfterAppend(ZeroMemory(pages), events, more);
    FollowAppend(Program(job), Initial(job), events, more);
    FollowNodes(job, Initial(job), events + more);
    LegalIsPossible(pages, n, events + more, strict);
  }
}
