/** The parallel sort: a coordinator on node 0, and K workers from node 1 on. */
module Psort {
  import opened Types
  import opened FlatMemory
  import opened Programs
  import opened Shares
  import opened Sorting
  import opened Merging
  import opened SharedRegion

  // The shared layout: a header page with one cell per field, and the data behind it.
  const ELEMS: nat := 0
  const READY: nat := 1
  const NODES: nat := 2
  function DoneAt(i: nat): nat { 8 + i }
  function DataAt(j: nat): nat { CELLS + j }

  /** The number of workers, and the numbers in the input file. */
  datatype Job = Job(k: nat, input: seq<Word>)

  predicate Fits(job: Job, size: nat) {
    0 < job.k && 8 + job.k <= CELLS && CELLS + |job.input| <= size && |job.input| < WORD_LIMIT
  }

  function Per(job: Job): nat
    requires job.k > 0
  {
    Share(|job.input|, job.k)
  }

  /** The elements in front of the tail that belongs to no worker. */
  function Used(job: Job): (u: nat)
    requires job.k > 0
    ensures u <= |job.input|
  {
    SharesFit(|job.input|, job.k);
    StartOf(Per(job), job.k)
  }

  /** The window of worker i as the coordinator filled it. */
  function Original(job: Job, i: nat): (w: seq<Word>)
    requires i < job.k
    ensures |w| == Per(job)
  {
    WindowInside(|job.input|, job.k, i);
    Window(job.input, Per(job), i)
  }

  // ---------- the program ----------

  datatype Boss =
    | Clear(j: nat)
    | Fill(j: nat)
    | SetElems
    | ClearReady
    | ClearDone(i: nat)
    | SetNodes
    | SetReady
    | Scan(i: nat)
    | LoadElems
    | Merge(per: nat, iter: seq<nat>, out: seq<Word>, i: nat, min: Word, idx: Option<nat>)
    | Answer(out: seq<Word>)

  /** Inside one turn of the inner loop: two loads to compare, then the swap with its own loads. */
  datatype Access =
    | CompareLeft
    | CompareRight(left: Word)
    | LoadTemp
    | LoadRight(temp: Word)
    | PutLeft(temp: Word, right: Word)
    | PutRight(temp: Word)

  datatype Worker =
    | Wait
    | GetElems
    | GetNodes(elems: Word)
    | Sort(n: nat, pass: nat, j: nat, at: Access)
    | PutDone
    | Finished

  datatype Team = Team(boss: Boss, workers: seq<Worker>)

  /** The next window from i on that still has elements. */
  function Seek(per: nat, iter: seq<nat>, i: nat): (s: nat)
    requires i <= |iter|
    ensures i <= s <= |iter| && (s < |iter| ==> iter[s] != per) && forall j | i <= j < s :: iter[j] == per
    decreases |iter| - i
  {
    if i < |iter| && iter[i] == per then Seek(per, iter, i + 1) else i
  }

  function NextSearch(per: nat, iter: seq<nat>, out: seq<Word>): Boss {
    var s := Seek(per, iter, 0);
    if s < |iter| then Merge(per, iter, out, s, WORD_LIMIT - 1, None) else Answer(out)
  }

  /** The merge goes on behind window i: to the next head, or to the emission and the next search. */
  function GoOn(per: nat, iter: seq<nat>, out: seq<Word>, i: nat, min: Word, idx: Option<nat>): Boss
    requires i <= |iter|
  {
    var s := Seek(per, iter, i);
    if s < |iter| then Merge(per, iter, out, s, min, idx)
    else if idx.Some? && idx.value < |iter| then
      NextSearch(per, iter[idx.value := iter[idx.value] + 1], out + [min])
    else Answer(out)
  }

  function NextBoss(job: Job, b: Boss, e: Event): Option<Boss>
    requires job.k > 0
  {
    match b
    case Clear(j) =>
      if e == Store(0, j, 0) then
        Some(if j + 1 < CELLS + |job.input| then Clear(j + 1) else if job.input == [] then SetElems else Fill(0))
      else None
    case Fill(j) =>
      if j < |job.input| && e == Store(0, DataAt(j), job.input[j])
      then Some(if j + 1 < |job.input| then Fill(j + 1) else SetElems) else None
    case SetElems =>
      if e.Store? && e.loc == ELEMS && e.value == |job.input| then Some(ClearReady) else None
    case ClearReady =>
      if e == Store(0, READY, 0) then Some(ClearDone(0)) else None
    case ClearDone(i) =>
      if e == Store(0, DoneAt(i), 0) then Some(if i + 1 < job.k then ClearDone(i + 1) else SetNodes) else None
    case SetNodes =>
      if e.Store? && e.loc == NODES && e.value == job.k then Some(SetReady) else None
    case SetReady =>
      if e == Store(0, READY, 1) then Some(Scan(0)) else None
    case Scan(i) =>
      if e.Load? && e.loc == DoneAt(i)
      then Some(if e.value != 1 then Scan(0) else if i + 1 < job.k then Scan(i + 1) else LoadElems) else None
    case LoadElems =>
      if e.Load? && e.loc == ELEMS then Some(NextSearch(Share(e.value, job.k), seq(job.k, _ => 0), [])) else None
    case Merge(per, iter, out, i, min, idx) =>
      if i < |iter| && e.Load? && e.loc == DataAt(StartOf(per, i) + iter[i]) then
        var (min', idx') := Better(e.value, i, min, idx);
        Some(GoOn(per, iter, out, i + 1, min', idx'))
      else None
    case Answer(_) => None
  }

  /** The sort at the head of its inner loop. */
  function LoopAt(n: nat, pass: nat, j: nat): Worker {
    if n < 2 || pass >= n then PutDone
    else if j < n then Sort(n, pass, j, CompareLeft)
    else if pass + 1 < n then Sort(n, pass + 1, 1, CompareLeft)
    else PutDone
  }

  /** One access of the inner loop; `base` is the cell of the window's first element. */
  function NextAccess(base: nat, n: nat, pass: nat, j: nat, at: Access, e: Event): Option<Worker>
    requires j > 0
  {
    match (at, e)
    case (CompareLeft, Load(_, loc, v)) =>
      if loc == base + j - 1 then Some(Sort(n, pass, j, CompareRight(v))) else None
    case (CompareRight(left), Load(_, loc, v)) =>
      if loc == base + j then Some(if left > v then Sort(n, pass, j, LoadTemp) else LoopAt(n, pass, j + 1)) else None
    case (LoadTemp, Load(_, loc, v)) =>
      if loc == base + j - 1 then Some(Sort(n, pass, j, LoadRight(v))) else None
    case (LoadRight(temp), Load(_, loc, v)) =>
      if loc == base + j then Some(Sort(n, pass, j, PutLeft(temp, v))) else None
    case (PutLeft(temp, right), Store(_, loc, v)) =>
      if loc == base + j - 1 && v == right then Some(Sort(n, pass, j, PutRight(temp))) else None
    case (PutRight(temp), Store(_, loc, v)) =>
      if loc == base + j && v == temp then Some(LoopAt(n, pass, j + 1)) else None
    case _ => None
  }

  function NextWorker(i: nat, w: Worker, e: Event): Option<Worker> {
    match (w, e)
    case (Wait, Load(_, loc, v)) => if loc == READY then Some(if v != 0 then GetElems else Wait) else None
    case (GetElems, Load(_, loc, v)) => if loc == ELEMS then Some(GetNodes(v)) else None
    case (GetNodes(elems), Load(_, loc, v)) =>
      if loc == NODES && v > 0 then Some(LoopAt(Share(elems, v), 0, 1)) else None
    case (Sort(n, pass, j, at), _) =>
      if j > 0 then NextAccess(DataAt(StartOf(n, i)), n, pass, j, at, e) else None
    case (PutDone, Store(_, loc, v)) => if loc == DoneAt(i) && v == 1 then Some(Finished) else None
    case _ => None
  }

  function Next(job: Job, t: Team, e: Event): Option<Team>
    requires job.k > 0
  {
    if e.node == 0 then
      match NextBoss(job, t.boss, e)
      case None => None
      case Some(b) => Some(t.(boss := b))
    else if e.node <= |t.workers| then
      match NextWorker(e.node - 1, t.workers[e.node - 1], e)
      case None => None
      case Some(w) => Some(t.(workers := t.workers[e.node - 1 := w]))
    else None
  }

  function Program(job: Job): Machine<Team>
    requires job.k > 0
  {
    (t, e) => Next(job, t, e)
  }

  function Initial(job: Job): Team { Team(Clear(0), seq(job.k, _ => Wait)) }

  // ---------- one worker and its window ----------

  /** How the window looks in the middle of an exchange. */
  predicate AccessOk(v: seq<Word>, now: seq<Word>, j: nat, at: Access)
    requires 0 < j < |v|
  {
    match at
    case CompareLeft => now == v
    case CompareRight(left) => now == v && left == v[j - 1]
    case LoadTemp => now == v && v[j - 1] > v[j]
    case LoadRight(temp) => now == v && v[j - 1] > v[j] && temp == v[j - 1]
    case PutLeft(temp, right) => now == v && v[j - 1] > v[j] && temp == v[j - 1] && right == v[j]
    case PutRight(temp) => now == v[j - 1 := v[j]] && v[j - 1] > v[j] && temp == v[j - 1]
  }

  /** The window holds what the sort of the original window has reached. */
  predicate WindowOk(orig: seq<Word>, now: seq<Word>, w: Worker) {
    match w
    case Sort(n, pass, j, at) =>
      n == |orig| && pass < n && 0 < j < n && AccessOk(Sweep(Passes(orig, pass), j), now, j, at)
    case PutDone => now == BubbleSort(orig)
    case Finished => now == BubbleSort(orig)
    case _ => now == orig
  }

  lemma PassEnds(orig: seq<Word>, pass: nat)
    requires orig != []
    ensures Sweep(Passes(orig, pass), |orig|) == Passes(orig, pass + 1)
  {
    assert Pass(Passes(orig, pass)) == Passes(orig, pass + 1);
  }

  lemma NothingToSort(orig: seq<Word>)
    requires |orig| < 2
    ensures BubbleSort(orig) == orig
  {
    assert Passes(orig, 0) == orig;
    if |orig| == 1 {
      PassEnds(orig, 0);
    }
  }

  lemma {:induction false} LoopAtOk(orig: seq<Word>, pass: nat, j: nat)
    requires 0 < j && ((pass < |orig| && j <= |orig|) || (pass == 0 && j == 1))
    ensures WindowOk(orig, Sweep(Passes(orig, pass), j), LoopAt(|orig|, pass, j))
  {
    var n := |orig|;
    if n < 2 {
      NothingToSort(orig);
      assert pass == 0 && j == 1;
    } else if j < n {
      assert AccessOk(Sweep(Passes(orig, pass), j), Sweep(Passes(orig, pass), j), j, CompareLeft);
    } else {
      PassEnds(orig, pass);
      var q := Passes(orig, pass + 1);
      assert Sweep(q, 1) == q;
    }
  }

  /** What a store does to the window that starts at `base`. */
  function Stored(now: seq<Word>, base: nat, e: Event): seq<Word> {
    if e.Store? && base <= e.loc < base + |now| then now[e.loc - base := e.value] else now
  }

  lemma AccessKeeps(orig: seq<Word>, now: seq<Word>, base: nat, w: Worker, e: Event)
    requires w.Sort? && WindowOk(orig, now, w) && |now| == |orig|
    requires e.Load? && base <= e.loc < base + |now| ==> e.value == now[e.loc - base]
    requires NextAccess(base, w.n, w.pass, w.j, w.at, e).Some?
    ensures base <= e.loc < base + |now|
    ensures WindowOk(orig, Stored(now, base, e), NextAccess(base, w.n, w.pass, w.j, w.at, e).value)
  {
    var v := Sweep(Passes(orig, w.pass), w.j);
    if (w.at.CompareRight? && w.at.left <= e.value) || w.at.PutRight? {
      LoopAtOk(orig, w.pass, w.j + 1);
      assert Exchange(v, w.j) == Sweep(Passes(orig, w.pass), w.j + 1);
      assert w.at.PutRight? ==> Stored(now, base, e) == Exchange(v, w.j);
    }
  }

  // ---------- the coordinator's merge ----------

  /** Every worker's window, sorted. */
  function Results(job: Job, n: nat): (ws: Windows)
    requires n <= job.k
    ensures |ws| == n && forall i | 0 <= i < n :: ws[i] == BubbleSort(Original(job, i))
  {
    if n == 0 then [] else Results(job, n - 1) + [BubbleSort(Original(job, n - 1))]
  }

  lemma ResultsSorted(job: Job)
    ensures forall w | w in Results(job, job.k) :: Sorted(w)
  {
    forall i | 0 <= i < job.k ensures Sorted(BubbleSort(Original(job, i))) {
      BubbleSortSorts(Original(job, i));
    }
  }

  /** All windows together hold the numbers of the input up to the tail. */
  lemma {:induction false} ResultsTaken(job: Job, iter: seq<nat>, n: nat)
    requires 0 < job.k == |iter| && n <= job.k && forall i | 0 <= i < job.k :: iter[i] == Per(job)
    ensures StartOf(Per(job), job.k) <= |job.input|
    ensures Taken(Results(job, job.k), iter, n) == Taken(AllWindows(job.input, Per(job), job.k), iter, n)
  {
    SharesFit(|job.input|, job.k);
    if n > 0 {
      ResultsTaken(job, iter, n - 1);
      var w := Original(job, n - 1);
      BubbleSortSorts(w);
      assert w[..Per(job)] == w && BubbleSort(w)[..Per(job)] == BubbleSort(w);
    }
  }

  predicate SearchOk(job: Job, iter: seq<nat>, out: seq<Word>)
    requires job.k > 0
  {
    MergeInv(Results(job, job.k), iter, out)
  }

  predicate MergeOk(job: Job, b: Boss)
    requires job.k > 0
  {
    match b
    case Merge(per, iter, out, i, min, idx) =>
      && per == Per(job) && SearchOk(job, iter, out) && i < job.k
      && Live(Results(job, job.k), iter, i) && ScanOk(Results(job, job.k), iter, i, min, idx)
    case Answer(out) => Sorted(out) && multiset(out) == multiset(job.input[..Used(job)])
    case _ => false
  }

  lemma AllTaken(job: Job, iter: seq<nat>, out: seq<Word>)
    requires 0 < job.k && SearchOk(job, iter, out) && forall i | 0 <= i < job.k :: iter[i] == Per(job)
    ensures MergeOk(job, Answer(out))
  {
    ResultsTaken(job, iter, job.k);
    TakenAll(job.input, Per(job), job.k, job.k, iter);
  }

  lemma NextSearchOk(job: Job, iter: seq<nat>, out: seq<Word>)
    requires 0 < job.k && SearchOk(job, iter, out)
    ensures MergeOk(job, NextSearch(Per(job), iter, out))
  {
    if Seek(Per(job), iter, 0) == |iter| {
      AllTaken(job, iter, out);
    }
  }

  lemma ScanSkips(job: Job, iter: seq<nat>, i: nat, min: Word, idx: Option<nat>)
    requires 0 < job.k == |iter| && i <= job.k && ScanOk(Results(job, job.k), iter, i, min, idx)
    ensures ScanOk(Results(job, job.k), iter, Seek(Per(job), iter, i), min, idx)
  {
  }

  lemma EmitOk(job: Job, iter: seq<nat>, out: seq<Word>, min: Word, k: nat)
    requires 0 < job.k && SearchOk(job, iter, out) && ScanOk(Results(job, job.k), iter, job.k, min, Some(k))
    ensures k < |iter| && MergeOk(job, NextSearch(Per(job), iter[k := iter[k] + 1], out + [min]))
  {
    EmitKeeps(Results(job, job.k), iter, out, min, k);
    NextSearchOk(job, iter[k := iter[k] + 1], out + [min]);
  }

  lemma FoundOk(job: Job, iter: seq<nat>, out: seq<Word>, s: nat, min: Word, idx: Option<nat>)
    requires 0 < job.k && SearchOk(job, iter, out) && s < job.k && iter[s] != Per(job)
    requires ScanOk(Results(job, job.k), iter, s, min, idx)
    ensures MergeOk(job, Merge(Per(job), iter, out, s, min, idx))
  {
  }

  lemma GoOnOk(job: Job, iter: seq<nat>, out: seq<Word>, i: nat, min: Word, k: nat)
    requires 0 < job.k && SearchOk(job, iter, out) && i <= job.k
    requires ScanOk(Results(job, job.k), iter, i, min, Some(k))
    ensures MergeOk(job, GoOn(Per(job), iter, out, i, min, Some(k)))
  {
    var s := Seek(Per(job), iter, i);
    ScanSkips(job, iter, i, min, Some(k));
    if s < job.k {
      FoundOk(job, iter, out, s, min, Some(k));
    } else {
      EmitOk(job, iter, out, min, k);
    }
  }

  lemma MergeStarts(job: Job)
    requires 0 < job.k
    ensures MergeOk(job, NextSearch(Per(job), seq(job.k, _ => 0), []))
  {
    var iter := seq<nat>(job.k, _ => 0);
    ResultsSorted(job);
    TakenNone(Results(job, job.k), iter, job.k);
    NextSearchOk(job, iter, []);
  }

  // ---------- the invariant ----------

  predicate Published(b: Boss) { b.Scan? || b.LoadElems? || b.Merge? || b.Answer? }

  /** How much of the shared data the coordinator has written. */
  predicate Written(job: Job, m: Memory, b: Boss)
    requires Fits(job, |m|)
  {
    && (b.Clear? ==> b.j < CELLS + |job.input|)
    && (b.Fill? ==> b.j < |job.input|)
    && (b.ClearDone? ==> b.i < job.k)
    && (!b.Clear? ==> forall j | (if Published(b) then Used(job) else 0) <= j < |job.input| && (b.Fill? ==> j < b.j) ::
                        m[DataAt(j)] == job.input[j])
    && (b.ClearReady? || b.ClearDone? || b.SetNodes? || b.SetReady? || Published(b) ==> m[ELEMS] == |job.input|)
    && (b.SetReady? || Published(b) ==> m[NODES] == job.k)
    && (if Published(b) then m[READY] == 1 else m[READY] == 0)
  }

  /** The cells of worker i. */
  function WindowIn(job: Job, m: Memory, i: nat): (w: seq<Word>)
    requires Fits(job, |m|) && i < job.k
    ensures |w| == Per(job)
    ensures StartOf(Per(job), i) + Per(job) <= Used(job)
    ensures forall k | 0 <= k < |w| :: w[k] == m[DataAt(StartOf(Per(job), i)) + k]
  {
    WindowInside(|job.input|, job.k, i);
    m[DataAt(StartOf(Per(job), i))..DataAt(StartOf(Per(job), i)) + Per(job)]
  }

  predicate WorkerOk(job: Job, m: Memory, i: nat, w: Worker, published: bool)
    requires Fits(job, |m|) && i < job.k
  {
    && (!w.Wait? ==> published)
    && m[DoneAt(i)] == (if w.Finished? then 1 else 0)
    && (w.GetNodes? ==> w.elems == |job.input|)
    && (published ==> WindowOk(Original(job, i), WindowIn(job, m, i), w))
  }

  predicate BossOk(job: Job, t: Team)
    requires job.k > 0 && |t.workers| == job.k
  {
    match t.boss
    case Clear(_) => true
    case Scan(i) => i < job.k && forall j | 0 <= j < i :: t.workers[j].Finished?
    case LoadElems => forall j | 0 <= j < job.k :: t.workers[j].Finished?
    case Merge(_, _, _, _, _, _) => (forall j | 0 <= j < job.k :: t.workers[j].Finished?) && MergeOk(job, t.boss)
    case Answer(_) => (forall j | 0 <= j < job.k :: t.workers[j].Finished?) && MergeOk(job, t.boss)
    case _ => true
  }

  predicate Inv(job: Job, m: Memory, t: Team) {
    && Fits(job, |m|) && |t.workers| == job.k
    && Written(job, m, t.boss) && BossOk(job, t)
    && forall i | 0 <= i < job.k :: WorkerOk(job, m, i, t.workers[i], Published(t.boss))
  }

  lemma InitialInv(job: Job, pages: nat)
    requires Fits(job, pages * CELLS)
    ensures Inv(job, ZeroMemory(pages), Initial(job))
  {
  }

  lemma PublishedReads(job: Job, m: Memory, t: Team, e: Event)
    requires Inv(job, m, t) && Legal(m, [e]) && e.node == 0 && Next(job, t, e).Some? && Published(t.boss)
    ensures Update(m, e) == m && Published(Next(job, t, e).value.boss)
  {
  }

  lemma FillWrites(job: Job, m: Memory, t: Team, e: Event)
    requires Inv(job, m, t) && Legal(m, [e]) && e.node == 0 && Next(job, t, e).Some?
    requires t.boss.Clear? || t.boss.Fill?
    ensures Written(job, Update(m, e), Next(job, t, e).value.boss)
    ensures forall i | 0 <= i < job.k && m[DoneAt(i)] == 0 :: Update(m, e)[DoneAt(i)] == 0
  {
  }

  lemma HeaderWrites(job: Job, m: Memory, t: Team, e: Event)
    requires Inv(job, m, t) && Legal(m, [e]) && e.node == 0 && Next(job, t, e).Some?
    requires !t.boss.Clear? && !t.boss.Fill? && !Published(t.boss)
    ensures Written(job, Update(m, e), Next(job, t, e).value.boss)
    ensures forall i | 0 <= i < job.k && m[DoneAt(i)] == 0 :: Update(m, e)[DoneAt(i)] == 0
  {
  }

  lemma BossWrites(job: Job, m: Memory, t: Team, e: Event)
    requires Inv(job, m, t) && Legal(m, [e]) && e.node == 0 && Next(job, t, e).Some?
    ensures Written(job, Update(m, e), Next(job, t, e).value.boss)
    ensures Published(t.boss) ==> Update(m, e) == m && Published(Next(job, t, e).value.boss)
    ensures forall i | 0 <= i < job.k && m[DoneAt(i)] == 0 :: Update(m, e)[DoneAt(i)] == 0
  {
    if Published(t.boss) {
      PublishedReads(job, m, t, e);
    } else if t.boss.Clear? || t.boss.Fill? {
      FillWrites(job, m, t, e);
    } else {
      HeaderWrites(job, m, t, e);
    }
  }

  lemma HeadIsLoaded(job: Job, m: Memory, t: Team, e: Event)
    requires Inv(job, m, t) && Legal(m, [e]) && e.node == 0 && Next(job, t, e).Some? && t.boss.Merge?
    ensures e.value == Head(Results(job, job.k), t.boss.iter, t.boss.i)
  {
    var b := t.boss;
    assert WorkerOk(job, m, b.i, t.workers[b.i], true) && t.workers[b.i].Finished?;
    assert e.value == WindowIn(job, m, b.i)[b.iter[b.i]];
  }

  lemma HeadIsScanned(job: Job, b: Boss, v: Word)
    requires 0 < job.k && b.Merge? && MergeOk(job, b) && v == Head(Results(job, job.k), b.iter, b.i)
    ensures var r := Better(v, b.i, b.min, b.idx); MergeOk(job, GoOn(b.per, b.iter, b.out, b.i + 1, r.0, r.1))
  {
    assert |b.iter| == job.k;
    hide GoOn, MergeInv;
    ScanLive(Results(job, job.k), b.iter, b.i, b.min, b.idx);
    var r := Better(v, b.i, b.min, b.idx);
    GoOnOk(job, b.iter, b.out, b.i + 1, r.0, r.1.value);
  }

  lemma MergeLearns(job: Job, m: Memory, t: Team, e: Event)
    requires Inv(job, m, t) && Legal(m, [e]) && e.node == 0 && Next(job, t, e).Some? && t.boss.Merge?
    ensures BossOk(job, Next(job, t, e).value)
  {
    HeadIsLoaded(job, m, t, e);
    HeadIsScanned(job, t.boss, e.value);
  }

  lemma ScanLearns(job: Job, m: Memory, t: Team, e: Event)
    requires Inv(job, m, t) && Legal(m, [e]) && e.node == 0 && Next(job, t, e).Some? && t.boss.Scan?
    ensures BossOk(job, Next(job, t, e).value)
  {
    hide WindowOk, MergeOk, Written;
    var i := t.boss.i;
    assert WorkerOk(job, m, i, t.workers[i], true);
    assert e.value == 1 ==> t.workers[i].Finished?;
  }

  lemma BossLearns(job: Job, m: Memory, t: Team, e: Event)
    requires Inv(job, m, t) && Legal(m, [e]) && e.node == 0 && Next(job, t, e).Some?
    ensures BossOk(job, Next(job, t, e).value)
  {
    match t.boss {
      case Scan(_) => ScanLearns(job, m, t, e);
      case LoadElems => MergeStarts(job);
      case Merge(_, _, _, _, _, _) => MergeLearns(job, m, t, e);
      case _ =>
    }
  }

  lemma BossKeeps(job: Job, m: Memory, t: Team, e: Event)
    requires Inv(job, m, t) && Legal(m, [e]) && e.node == 0 && Next(job, t, e).Some?
    ensures Inv(job, Update(m, e), Next(job, t, e).value)
  {
    var m', u := Update(m, e), Next(job, t, e).value;
    BossWrites(job, m, t, e);
    BossLearns(job, m, t, e);
    forall i | 0 <= i < job.k ensures WorkerOk(job, m', i, u.workers[i], Published(u.boss)) {
      assert WorkerOk(job, m, i, t.workers[i], Published(t.boss));
      if !Published(t.boss) && Published(u.boss) {
        AsFilled(job, m', i);
      }
    }
  }

  /** When `ready` is set, every window is still as it was filled. */
  lemma AsFilled(job: Job, m: Memory, i: nat)
    requires Fits(job, |m|) && i < job.k
    requires forall j | 0 <= j < |job.input| :: m[DataAt(j)] == job.input[j]
    ensures WindowIn(job, m, i) == Original(job, i)
  {
  }

  // ---------- the workers keep out of each other's way ----------

  function Base(job: Job, i: nat): nat
    requires job.k > 0
  {
    DataAt(StartOf(Per(job), i))
  }

  /** The cells that worker i may store to. */
  predicate OwnCell(job: Job, i: nat, loc: nat)
    requires job.k > 0
  {
    loc == DoneAt(i) || Base(job, i) <= loc < Base(job, i) + Per(job)
  }

  /** Windows are disjoint from each other, from the header and from the tail. */
  lemma OwnCellsDisjoint(job: Job, i: nat, j: nat, loc: nat)
    requires 0 < job.k && 8 + job.k <= CELLS && i < job.k && OwnCell(job, i, loc)
    ensures j < job.k && j != i ==> !OwnCell(job, j, loc)
    ensures loc < DataAt(Used(job)) && loc != ELEMS && loc != READY && loc != NODES
  {
    WindowInside(|job.input|, job.k, i);
    if i < j { StartSteps(Per(job), i, j); }
    if j < i { StartSteps(Per(job), j, i); }
  }

  lemma WindowAfter(job: Job, m: Memory, i: nat, e: Event)
    requires Fits(job, |m|) && i < job.k && e.loc < |m|
    ensures WindowIn(job, Update(m, e), i) == Stored(WindowIn(job, m, i), Base(job, i), e)
  {
    var now, next := WindowIn(job, m, i), WindowIn(job, Update(m, e), i);
    var base := Base(job, i);
    forall k | 0 <= k < |now| ensures next[k] == Stored(now, base, e)[k] {
      assert now[k] == m[base + k] && next[k] == Update(m, e)[base + k];
    }
  }

  lemma SortStep(job: Job, m: Memory, i: nat, w: Worker, e: Event)
    requires Fits(job, |m|) && Legal(m, [e]) && i < job.k && WorkerOk(job, m, i, w, true)
    requires w.Sort? && NextWorker(i, w, e).Some?
    ensures WorkerOk(job, Update(m, e), i, NextWorker(i, w, e).value, true)
    ensures OwnCell(job, i, e.loc)
  {
    var base := Base(job, i);
    assert e.Load? && base <= e.loc < base + Per(job) ==> e.value == WindowIn(job, m, i)[e.loc - base];
    AccessKeeps(Original(job, i), WindowIn(job, m, i), base, w, e);
    WindowAfter(job, m, i, e);
    OwnCellsDisjoint(job, i, i, e.loc);
  }

  lemma GetNodesStep(job: Job, m: Memory, i: nat, w: Worker, e: Event, b: Boss)
    requires Fits(job, |m|) && Legal(m, [e]) && i < job.k && WorkerOk(job, m, i, w, Published(b)) && Written(job, m, b)
    requires w.GetNodes? && NextWorker(i, w, e).Some?
    ensures WorkerOk(job, Update(m, e), i, NextWorker(i, w, e).value, Published(b)) && e.Load?
  {
    var orig := Original(job, i);
    LoopAtOk(orig, 0, 1);
    assert Sweep(Passes(orig, 0), 1) == orig;
  }

  lemma PutDoneStep(job: Job, m: Memory, i: nat, w: Worker, e: Event, b: Boss)
    requires Fits(job, |m|) && Legal(m, [e]) && i < job.k && WorkerOk(job, m, i, w, Published(b)) && Written(job, m, b)
    requires w.PutDone? && NextWorker(i, w, e).Some?
    ensures WorkerOk(job, Update(m, e), i, NextWorker(i, w, e).value, Published(b)) && e.loc == DoneAt(i)
  {
    WindowAfter(job, m, i, e);
  }

  lemma OtherStep(job: Job, m: Memory, i: nat, w: Worker, e: Event, b: Boss)
    requires Fits(job, |m|) && Legal(m, [e]) && i < job.k && WorkerOk(job, m, i, w, Published(b)) && Written(job, m, b)
    requires !w.Sort? && NextWorker(i, w, e).Some?
    ensures WorkerOk(job, Update(m, e), i, NextWorker(i, w, e).value, Published(b))
    ensures e.Store? ==> OwnCell(job, i, e.loc)
  {
    if w.GetNodes? {
      GetNodesStep(job, m, i, w, e, b);
    } else if w.PutDone? {
      PutDoneStep(job, m, i, w, e, b);
    }
  }

  /** A store into the cells of worker i leaves everything the others look at as it was. */
  lemma OtherStays(job: Job, m: Memory, i: nat, e: Event, j: nat, w: Worker, published: bool)
    requires Fits(job, |m|) && i < job.k && e.loc < |m| && (e.Store? ==> OwnCell(job, i, e.loc))
    requires j < job.k && j != i && WorkerOk(job, m, j, w, published)
    ensures WorkerOk(job, Update(m, e), j, w, published)
  {
    if e.Store? {
      OwnCellsDisjoint(job, i, j, e.loc);
      WindowAfter(job, m, j, e);
    }
  }

  lemma WrittenStays(job: Job, m: Memory, i: nat, e: Event, b: Boss)
    requires Fits(job, |m|) && i < job.k && e.loc < |m| && (e.Store? ==> OwnCell(job, i, e.loc))
    requires Written(job, m, b) && (e.Store? ==> Published(b))
    ensures Written(job, Update(m, e), b)
  {
    if e.Store? {
      OwnCellsDisjoint(job, i, i, e.loc);
    }
  }

  lemma WorkerKeeps(job: Job, m: Memory, t: Team, e: Event)
    requires Inv(job, m, t) && Legal(m, [e]) && e.node > 0 && Next(job, t, e).Some?
    ensures Inv(job, Update(m, e), Next(job, t, e).value)
  {
    var i := e.node - 1;
    var w := t.workers[i];
    assert WorkerOk(job, m, i, w, Published(t.boss));
    if w.Sort? { SortStep(job, m, i, w, e); } else { OtherStep(job, m, i, w, e, t.boss); }
    WrittenStays(job, m, i, e, t.boss);
    assert !w.Finished?;
    forall j | 0 <= j < job.k && j != i ensures WorkerOk(job, Update(m, e), j, t.workers[j], Published(t.boss)) {
      assert WorkerOk(job, m, j, t.workers[j], Published(t.boss));
      OtherStays(job, m, i, e, j, t.workers[j], Published(t.boss));
    }
  }

  /** Every run over flat memory keeps the invariant. */
  lemma {:induction false} RunKeeps(job: Job, m: Memory, t: Team, events: seq<Event>)
    requires Inv(job, m, t) && Legal(m, events) && Follow(Program(job), t, events).Some?
    ensures Inv(job, After(m, events), Follow(Program(job), t, events).value)
    decreases |events|
  {
    if events == [] {
    } else {
      var e := events[0];
      assert [e][1..] == [];
      if e.node == 0 { BossKeeps(job, m, t, e); } else { WorkerKeeps(job, m, t, e); }
      RunKeeps(job, Update(m, e), Next(job, t, e).value, events[1..]);
    }
  }

  // ---------- the result ----------

  /** The data once every worker is done: each window sorted, the tail as it was. */
  function SortedData(job: Job, n: nat): (d: seq<Word>)
    requires n <= job.k
    ensures |d| == StartOf(if job.k > 0 then Per(job) else 0, n)
  {
    if n == 0 then [] else
      StartSteps(Per(job), n - 1, n);
      SortedData(job, n - 1) + BubbleSort(Original(job, n - 1))
  }

  lemma RangeSplits(m: Memory, a: nat, b: nat, c: nat)
    requires a <= b <= c <= |m|
    ensures m[a..c] == m[a..b] + m[b..c]
  {
  }

  lemma {:induction false} DataIsSorted(job: Job, m: Memory, n: nat)
    requires Fits(job, |m|) && n <= job.k
    requires forall i | 0 <= i < job.k :: WindowIn(job, m, i) == BubbleSort(Original(job, i))
    ensures DataAt(StartOf(Per(job), n)) <= |m|
    ensures m[CELLS..DataAt(StartOf(Per(job), n))] == SortedData(job, n)
    decreases n
  {
    if n > 0 {
      hide BubbleSort, Original;
      DataIsSorted(job, m, n - 1);
      StartSteps(Per(job), n - 1, n);
      var a, b, w := DataAt(StartOf(Per(job), n - 1)), DataAt(StartOf(Per(job), n)), WindowIn(job, m, n - 1);
      RangeSplits(m, CELLS, a, b);
      assert m[a..b] == w;
    }
  }

  /** The output is all of the input exactly when the workers divide it evenly. */
  lemma CompleteIff(job: Job, out: seq<Word>)
    requires 0 < job.k && multiset(out) == multiset(job.input[..Used(job)])
    ensures multiset(out) == multiset(job.input) <==> |job.input| % job.k == 0
  {
    SharesFit(|job.input|, job.k);
    var u := Used(job);
    assert |multiset(out)| == u;
    assert |multiset(job.input)| == |job.input|;
    if u == |job.input| {
      assert job.input[..u] == job.input;
    }
  }

  /**
   * End to end on the coherence protocol: the merge starts only after every worker has finished, and
   * then the data is one and the same array however the workers interleaved; what the merge emits is
   * sorted, and a permutation of the input exactly when K divides its length.
   */
  lemma PsortOnIvy(job: Job, pages: nat, n: nat, moves: seq<Move>, strict: bool)
    requires n > 0 && Fits(job, pages * CELLS) && RunOf(InitSystem(pages, n), moves, strict)
    requires Follow(Program(job), Initial(job), Events(InitSystem(pages, n), moves, strict)).Some?
    ensures var t := Follow(Program(job), Initial(job), Events(InitSystem(pages, n), moves, strict)).value;
            var m := Contents(ExecOf(InitSystem(pages, n), moves, strict));
            t.boss.LoadElems? || t.boss.Merge? || t.boss.Answer? ==>
              && |t.workers| == job.k && (forall i | 0 <= i < job.k :: t.workers[i].Finished?)
              && m[CELLS..DataAt(|job.input|)] == SortedData(job, job.k) + job.input[Used(job)..]
    ensures var t := Follow(Program(job), Initial(job), Events(InitSystem(pages, n), moves, strict)).value;
            t.boss.Answer? ==>
              && Sorted(t.boss.out) && multiset(t.boss.out) == multiset(job.input[..Used(job)])
              && (multiset(t.boss.out) == multiset(job.input) <==> |job.input| % job.k == 0)
  {
    var events := Events(InitSystem(pages, n), moves, strict);
    LoadsSeeLatestStores(pages, n, moves, strict);
    InitialInv(job, pages);
    RunKeeps(job, ZeroMemory(pages), Initial(job), events);
    var t := Follow(Program(job), Initial(job), events).value;
    AtTheEnd(job, Contents(ExecOf(InitSystem(pages, n), moves, strict)), t);
  }

  lemma AtTheEnd(job: Job, m: Memory, t: Team)
    requires Inv(job, m, t)
    ensures t.boss.LoadElems? || t.boss.Merge? || t.boss.Answer? ==>
              && (forall i | 0 <= i < job.k :: t.workers[i].Finished?)
              && m[CELLS..DataAt(|job.input|)] == SortedData(job, job.k) + job.input[Used(job)..]
    ensures t.boss.Answer? ==>
              && Sorted(t.boss.out) && multiset(t.boss.out) == multiset(job.input[..Used(job)])
              && (multiset(t.boss.out) == multiset(job.input) <==> |job.input| % job.k == 0)
  {
    if t.boss.LoadElems? || t.boss.Merge? || t.boss.Answer? {
      forall i | 0 <= i < job.k ensures WindowIn(job, m, i) == BubbleSort(Original(job, i)) {
        assert WorkerOk(job, m, i, t.workers[i], true);
      }
      DataIsSorted(job, m, job.k);
      var mid, end := DataAt(Used(job)), DataAt(|job.input|);
      assert m[CELLS..end] == m[CELLS..mid] + m[mid..end];
      assert m[mid..end] == job.input[Used(job)..];
      if t.boss.Answer? {
        CompleteIff(job, t.boss.out);
      }
    }
  }
}
