/** The parallel dot product modulo 2^64: a coordinator on node 1, and K workers from node 2 on. */
module Pdot {
  import opened Types
  import opened FlatMemory
  import opened Programs
  import opened Shares
  import opened SharedRegion

  // The shared layout: a header page with one word per field, and the two vectors behind it.
  const ELEMS: nat := 0
  const READY: nat := 1
  function ResultAt(i: nat): nat { 8 + i }
  function DoneAt(k: nat, i: nat): nat { 8 + k + i }
  function VecAt(j: nat): nat { CELLS + j }

  const DONE_MARK: Word := WORD_LIMIT - 1

  /** The number of workers, and the numbers in the input file: both vectors, one after the other. */
  datatype Job = Job(k: nat, input: seq<Word>)

  /** The header fits in its page, and the vectors fit in the memory. */
  predicate Fits(job: Job, size: nat) {
    0 < job.k && 8 + 2 * job.k <= CELLS && CELLS + |job.input| <= size && |job.input| < WORD_LIMIT
  }

  function Half(job: Job): nat { |job.input| / 2 }

  function PerWorker(job: Job): nat
    requires job.k > 0
  {
    Share(Half(job), job.k)
  }

  function Product(a: nat, b: nat): nat { a * b }

  // ---------- what is computed ----------

  /** Unsigned 64-bit arithmetic wraps around. */
  function Wrap(x: nat): Word { x % WORD_LIMIT }
  function Plus(a: Word, b: Word): Word { Wrap(a + b) }
  function Times(a: Word, b: Word): Word { Wrap(Product(a, b)) }

  lemma PlusWraps(x: nat, y: nat)
    ensures Plus(Wrap(x), Wrap(y)) == Wrap(x + y)
  {
  }

  lemma PlusTimes(x: nat, a: Word, b: Word)
    ensures Plus(Wrap(x), Times(a, b)) == Wrap(x + Product(a, b))
  {
    PlusWraps(x, Product(a, b));
  }

  lemma WrapIff(x: nat, y: nat)
    ensures Wrap(x) == Wrap(x + y) <==> Wrap(y) == 0
  {
  }

  lemma SmallStays(x: nat)
    ensures x < WORD_LIMIT ==> Wrap(x) == x
  {
  }

  lemma WrapTakesMultiples(x: nat)
    ensures (x - Wrap(x)) % WORD_LIMIT == 0
  {
  }

  /** The dot product of `count` entries from index `from` on. */
  function Dot(job: Job, from: nat, count: nat): nat
    requires from + count <= Half(job)
    decreases count
  {
    if count == 0 then 0
    else Dot(job, from, count - 1) + Product(job.input[from + count - 1], job.input[Half(job) + from + count - 1])
  }

  lemma {:induction false} DotSplits(job: Job, from: nat, a: nat, b: nat)
    requires from + a + b <= Half(job)
    ensures Dot(job, from, a + b) == Dot(job, from, a) + Dot(job, from + a, b)
    decreases b
  {
    if b > 0 {
      DotSplits(job, from, a, b - 1);
    }
  }

  // ---------- what a dot product is ----------

  /** The job whose input is these two vectors. */
  function OfVectors(k: nat, a: seq<Word>, b: seq<Word>): (job: Job)
    requires |a| == |b|
    ensures Half(job) == |a| && |job.input| == |a| + |b|
    ensures forall j | 0 <= j < |a| :: job.input[j] == a[j] && job.input[|a| + j] == b[j]
  {
    Job(k, a + b)
  }

  lemma DotNext(k: nat, a: seq<Word>, b: seq<Word>, from: nat, count: nat)
    requires |a| == |b| && 0 < count && from + count <= |a|
    ensures Dot(OfVectors(k, a, b), from, count)
            == Dot(OfVectors(k, a, b), from, count - 1) + Product(a[from + count - 1], b[from + count - 1])
  {
  }

  lemma ProductLaws(x: nat, y: nat, z: nat)
    ensures Product(x, z) == Product(z, x) && Product(x + y, z) == Product(x, z) + Product(y, z)
    ensures Product(1, z) == z && Product(0, z) == 0
  {
  }

  /** It does not matter which of the vectors comes first. */
  lemma {:induction false} DotSwaps(k: nat, a: seq<Word>, b: seq<Word>, from: nat, count: nat)
    requires |a| == |b| && from + count <= |a|
    ensures Dot(OfVectors(k, a, b), from, count) == Dot(OfVectors(k, b, a), from, count)
    decreases count
  {
    if count > 0 {
      hide Dot, OfVectors, Product;
      DotNext(k, a, b, from, count);
      DotNext(k, b, a, from, count);
      ProductLaws(a[from + count - 1], 0, b[from + count - 1]);
      DotSwaps(k, a, b, from, count - 1);
    }
  }

  predicate IsSum(a: seq<Word>, a': seq<Word>, sum: seq<Word>) {
    |a| == |a'| == |sum| && forall j | 0 <= j < |sum| :: (sum[j] as int) == (a[j] as int) + (a'[j] as int)
  }

  /** The dot product is additive in the first vector. */
  lemma {:induction false} DotAdds(k: nat, a: seq<Word>, a': seq<Word>, sum: seq<Word>, b: seq<Word>,
                                   from: nat, count: nat)
    requires IsSum(a, a', sum) && |b| == |sum| && from + count <= |b|
    ensures Dot(OfVectors(k, sum, b), from, count)
            == Dot(OfVectors(k, a, b), from, count) + Dot(OfVectors(k, a', b), from, count)
    decreases count
  {
    if count > 0 {
      hide Dot, OfVectors, Product;
      var j := from + count - 1;
      DotNext(k, a, b, from, count);
      DotNext(k, a', b, from, count);
      DotNext(k, sum, b, from, count);
      DotAdds(k, a, a', sum, b, from, count - 1);
      ProductLaws(a[j], a'[j], b[j]);
    }
  }

  function UnitVector(n: nat, i: nat): (a: seq<Word>)
    ensures |a| == n && forall j | 0 <= j < n :: a[j] == if j == i then 1 else 0
  {
    seq(n, j => if j == i then 1 else 0)
  }

  /** The dot product with the i-th unit vector is entry i. */
  lemma {:induction false} DotOfUnit(k: nat, b: seq<Word>, i: nat, from: nat, count: nat)
    requires i < |b| && from + count <= |b|
    ensures Dot(OfVectors(k, UnitVector(|b|, i), b), from, count) == if from <= i < from + count then b[i] else 0
    decreases count
  {
    if count > 0 {
      hide Dot, OfVectors, Product;
      var j := from + count - 1;
      DotNext(k, UnitVector(|b|, i), b, from, count);
      DotOfUnit(k, b, i, from, count - 1);
      ProductLaws(0, 0, b[j]);
    }
  }

  lemma WindowFits(job: Job, i: nat)
    requires job.k > 0 && i < job.k
    ensures StartOf(PerWorker(job), i) + PerWorker(job) == StartOf(PerWorker(job), i + 1)
    ensures StartOf(PerWorker(job), i + 1) <= StartOf(PerWorker(job), job.k) <= Half(job)
  {
    WindowInside(Half(job), job.k, i);
  }

  /** The part of worker i, modulo 2^64. */
  function Part(job: Job, i: nat): Word
    requires job.k > 0 && i < job.k
  {
    WindowFits(job, i);
    Wrap(Dot(job, StartOf(PerWorker(job), i), PerWorker(job)))
  }

  /** The loop of one worker over its window. */
  method MultWorker(job: Job, vecs: array<Word>, id: nat) returns (sum: Word)
    requires id < job.k && vecs[..] == job.input
    ensures sum == Part(job, id)
  {
    var half, per := Half(job), PerWorker(job);
    var start := StartOf(per, id);
    WindowFits(job, id);
    sum := 0;
    for i := 0 to per
      invariant sum == Wrap(Dot(job, start, i))
    {
      var product := Times(vecs[start + i], vecs[half + start + i]);
      assert vecs[start + i] == vecs[..][start + i] && vecs[half + start + i] == vecs[..][half + start + i];
      LoopSumOk(job, id, i);
      sum := Plus(sum, product);
    }
  }

  lemma PartSumNext(job: Job, i: nat, sum: Word, part: Word)
    requires i < job.k && sum == PartSum(job, i) && part == Part(job, i)
    ensures Plus(sum, part) == PartSum(job, i + 1)
  {
  }

  /** The coordinator's loop over the published parts. */
  method MergeWorker(job: Job, results: array<Word>) returns (result: Word)
    requires 0 < job.k == results.Length && forall i | 0 <= i < job.k :: results[i] == Part(job, i)
    ensures result == PartSum(job, job.k)
  {
    result := 0;
    for i := 0 to job.k
      invariant result == PartSum(job, i)
    {
      PartSumNext(job, i, result, results[i]);
      result := Plus(result, results[i]);
    }
  }

  // ---------- the program ----------

  datatype Boss =
    | Fill(j: nat)
    | SetElems
    | ClearReady
    | ClearDone(i: nat)
    | SetReady
    | Scan(i: nat, all: bool)
    | Merge(i: nat, acc: Word)
    | Answer(value: Word)

  datatype Worker =
    | Wait
    | GetElems
    | LoadA(j: nat, half: nat, sum: Word)
    | LoadB(j: nat, half: nat, sum: Word, a: Word)
    | PutResult(sum: Word)
    | PutDone
    | Finished

  datatype Team = Team(boss: Boss, workers: seq<Worker>)

  function NextBoss(job: Job, b: Boss, e: Event): Option<Boss> {
    match b
    case Fill(j) =>
      if j < |job.input| && e == Store(1, VecAt(j), job.input[j])
      then Some(if j + 1 < |job.input| then Fill(j + 1) else SetElems) else None
    case SetElems =>
      if e.Store? && e.node == 1 && e.loc == ELEMS && e.value == |job.input| then Some(ClearReady) else None
    case ClearReady =>
      if e == Store(1, READY, 0) then Some(ClearDone(0)) else None
    case ClearDone(i) =>
      if e == Store(1, DoneAt(job.k, i), 0) then Some(if i + 1 < job.k then ClearDone(i + 1) else SetReady) else None
    case SetReady =>
      if e == Store(1, READY, 1) then Some(Scan(0, true)) else None
    case Scan(i, all) =>
      if e.Load? && e.node == 1 && e.loc == DoneAt(job.k, i) then
        var still := all && e.value != 0;
        Some(if i + 1 < job.k then Scan(i + 1, still) else if still then Merge(0, 0) else Scan(0, true))
      else None
    case Merge(i, acc) =>
      if e.Load? && e.node == 1 && e.loc == ResultAt(i) then
        var sum := Plus(acc, e.value);
        Some(if i + 1 < job.k then Merge(i + 1, sum) else Answer(sum))
      else None
    case Answer(_) => None
  }

  function StartLoop(j: nat, per: nat, half: nat, sum: Word): Worker {
    if j < per then LoadA(j, half, sum) else PutResult(sum)
  }

  function NextWorker(job: Job, i: nat, w: Worker, e: Event): Option<Worker>
    requires job.k > 0
  {
    match (w, e)
    case (Wait, Load(_, loc, v)) =>
      if loc == READY then Some(if v == 1 then GetElems else Wait) else None
    case (GetElems, Load(_, loc, v)) =>
      if loc == ELEMS then Some(StartLoop(0, Share(v / 2, job.k), v / 2, 0)) else None
    case (LoadA(j, half, sum), Load(_, loc, v)) =>
      if loc == VecAt(StartOf(Share(half, job.k), i) + j) then Some(LoadB(j, half, sum, v)) else None
    case (LoadB(j, half, sum, a), Load(_, loc, v)) =>
      if loc == VecAt(half + StartOf(Share(half, job.k), i) + j) then
        Some(StartLoop(j + 1, Share(half, job.k), half, Plus(sum, Times(a, v))))
      else None
    case (PutResult(sum), Store(_, loc, v)) =>
      if loc == ResultAt(i) && v == sum then Some(PutDone) else None
    case (PutDone, Store(_, loc, v)) =>
      if loc == DoneAt(job.k, i) && v == DONE_MARK then Some(Finished) else None
    case _ => None
  }

  function Next(job: Job, t: Team, e: Event): Option<Team>
    requires job.k > 0
  {
    if e.node == 1 then
      match NextBoss(job, t.boss, e)
      case None => None
      case Some(b) => Some(t.(boss := b))
    else if 2 <= e.node < 2 + |t.workers| then
      var i := e.node - 2;
      match NextWorker(job, i, t.workers[i], e)
      case None => None
      case Some(w) => Some(t.(workers := t.workers[i := w]))
    else None
  }

  function Program(job: Job): Machine<Team>
    requires job.k > 0
  {
    (t, e) => Next(job, t, e)
  }

  function Initial(job: Job): Team {
    Team(if job.input == [] then SetElems else Fill(0), seq(job.k, _ => Wait))
  }

  // ---------- the invariant ----------

  predicate Published(b: Boss) { b.Scan? || b.Merge? || b.Answer? }

  /** How much of the shared data the coordinator has written. */
  predicate Written(job: Job, m: Memory, b: Boss)
    requires Fits(job, |m|)
  {
    && (b.Fill? ==> b.j < |job.input|)
    && (forall j | 0 <= j < |job.input| && (b.Fill? ==> j < b.j) :: m[VecAt(j)] == job.input[j])
    && (b.ClearReady? || b.ClearDone? || b.SetReady? || Published(b) ==> m[ELEMS] == |job.input|)
    && (b.ClearDone? ==> b.i < job.k)
    && (if Published(b) then m[READY] == 1 else m[READY] == 0)
  }

  predicate WorkerOk(job: Job, m: Memory, i: nat, w: Worker, published: bool)
    requires Fits(job, |m|) && i < job.k
  {
    var per := PerWorker(job);
    && (!w.Wait? ==> published)
    && (m[DoneAt(job.k, i)] != 0 <==> w.Finished?)
    && (match w
        case LoadA(j, half, sum) =>
          j < per && half == Half(job) && (WindowFits(job, i); sum == Wrap(Dot(job, StartOf(per, i), j)))
        case LoadB(j, half, sum, a) =>
          j < per && half == Half(job) &&
          (WindowFits(job, i); sum == Wrap(Dot(job, StartOf(per, i), j)) && a == job.input[StartOf(per, i) + j])
        case PutResult(sum) => sum == Part(job, i)
        case PutDone => m[ResultAt(i)] == Part(job, i)
        case Finished => m[ResultAt(i)] == Part(job, i)
        case _ => true)
  }

  /** The sum of the first n parts, modulo 2^64. */
  function PartSum(job: Job, n: nat): Word
    requires job.k > 0 && n <= job.k
  {
    if n == 0 then 0 else Plus(PartSum(job, n - 1), Part(job, n - 1))
  }

  predicate BossOk(job: Job, t: Team)
    requires job.k > 0 && |t.workers| == job.k
  {
    match t.boss
    case Scan(i, all) => i < job.k && (all ==> forall j | 0 <= j < i :: t.workers[j].Finished?)
    case Merge(i, acc) => i < job.k && (forall j | 0 <= j < job.k :: t.workers[j].Finished?) && acc == PartSum(job, i)
    case Answer(v) => (forall j | 0 <= j < job.k :: t.workers[j].Finished?) && v == PartSum(job, job.k)
    case _ => true
  }

  predicate Inv(job: Job, m: Memory, t: Team) {
    && Fits(job, |m|) && |t.workers| == job.k
    && Written(job, m, t.boss) && BossOk(job, t)
    && forall i | 0 <= i < job.k :: WorkerOk(job, m, i, t.workers[i], Published(t.boss))
  }

  lemma InitialInv(job: Job, pages: nat)
    requires Fits(job, pages * CELLS)
    ensures Inv(job, ZeroMemory(pages), Initial(job))
  {
  }

  lemma BossWrites(job: Job, m: Memory, t: Team, e: Event)
    requires Inv(job, m, t) && Legal(m, [e]) && e.node == 1 && Next(job, t, e).Some?
    ensures Written(job, Update(m, e), Next(job, t, e).value.boss)
    ensures Published(t.boss) ==> Update(m, e) == m && Published(Next(job, t, e).value.boss)
  {
  }

  lemma ScanLearns(job: Job, m: Memory, t: Team, e: Event)
    requires Inv(job, m, t) && Legal(m, [e]) && e.node == 1 && Next(job, t, e).Some? && t.boss.Scan?
    ensures BossOk(job, Next(job, t, e).value)
  {
    assert WorkerOk(job, m, t.boss.i, t.workers[t.boss.i], true);
  }

  lemma MergeLearns(job: Job, m: Memory, t: Team, e: Event)
    requires Inv(job, m, t) && Legal(m, [e]) && e.node == 1 && Next(job, t, e).Some? && t.boss.Merge?
    ensures BossOk(job, Next(job, t, e).value)
  {
    var i := t.boss.i;
    assert WorkerOk(job, m, i, t.workers[i], true) && t.workers[i].Finished?;
    assert e.value == Part(job, i);
    PartSumNext(job, i, t.boss.acc, e.value);
  }

  lemma BossLearns(job: Job, m: Memory, t: Team, e: Event)
    requires Inv(job, m, t) && Legal(m, [e]) && e.node == 1 && Next(job, t, e).Some?
    ensures BossOk(job, Next(job, t, e).value)
  {
    if t.boss.Scan? {
      ScanLearns(job, m, t, e);
    } else if t.boss.Merge? {
      MergeLearns(job, m, t, e);
    }
  }

  lemma BossKeeps(job: Job, m: Memory, t: Team, e: Event)
    requires Inv(job, m, t) && Legal(m, [e]) && e.node == 1 && Next(job, t, e).Some?
    ensures Inv(job, Update(m, e), Next(job, t, e).value)
  {
    var m', u := Update(m, e), Next(job, t, e).value;
    BossWrites(job, m, t, e);
    BossLearns(job, m, t, e);
    forall i | 0 <= i < job.k ensures WorkerOk(job, m', i, u.workers[i], Published(u.boss)) {
      assert WorkerOk(job, m, i, t.workers[i], Published(t.boss));
      assert !Published(t.boss) ==> t.workers[i].Wait?;
    }
  }

  lemma LoopSumOk(job: Job, i: nat, j: nat)
    requires 0 < job.k && i < job.k && j < PerWorker(job)
    ensures StartOf(PerWorker(job), i) + PerWorker(job) <= Half(job)
    ensures var start := StartOf(PerWorker(job), i);
            Plus(Wrap(Dot(job, start, j)), Times(job.input[start + j], job.input[Half(job) + start + j]))
            == Wrap(Dot(job, start, j + 1))
  {
    hide Product;
    WindowFits(job, i);
    var start := StartOf(PerWorker(job), i);
    PlusTimes(Dot(job, start, j), job.input[start + j], job.input[Half(job) + start + j]);
  }

  lemma LoadAAdvances(job: Job, m: Memory, t: Team, e: Event)
    requires Inv(job, m, t) && Legal(m, [e]) && 2 <= e.node < 2 + job.k && Next(job, t, e).Some?
    requires t.workers[e.node - 2].LoadA?
    ensures WorkerOk(job, Update(m, e), e.node - 2, Next(job, t, e).value.workers[e.node - 2], Published(t.boss))
  {
    var i := e.node - 2;
    assert WorkerOk(job, m, i, t.workers[i], Published(t.boss));
    WindowFits(job, i);
  }

  lemma LoadBAdvances(job: Job, m: Memory, t: Team, e: Event)
    requires Inv(job, m, t) && Legal(m, [e]) && 2 <= e.node < 2 + job.k && Next(job, t, e).Some?
    requires t.workers[e.node - 2].LoadB?
    ensures WorkerOk(job, Update(m, e), e.node - 2, Next(job, t, e).value.workers[e.node - 2], Published(t.boss))
  {
    hide Dot, Plus, Times, Wrap;
    var i := e.node - 2;
    var w := t.workers[i];
    assert WorkerOk(job, m, i, w, Published(t.boss));
    WindowFits(job, i);
    assert e.value == job.input[Half(job) + StartOf(PerWorker(job), i) + w.j];
    var sum := Plus(w.sum, Times(w.a, e.value));
    SumGoesOn(job, i, w.j, w.sum, w.a, e.value);
    assert Next(job, t, e).value.workers[i] == StartLoop(w.j + 1, PerWorker(job), Half(job), sum);
    LoopOk(job, m, i, w.j + 1, sum, Published(t.boss));
  }

  lemma SumGoesOn(job: Job, i: nat, j: nat, sum: Word, a: Word, b: Word)
    requires i < job.k && j < PerWorker(job) && StartOf(PerWorker(job), i) + PerWorker(job) <= Half(job)
    requires a == job.input[StartOf(PerWorker(job), i) + j]
    requires b == job.input[Half(job) + StartOf(PerWorker(job), i) + j]
    requires sum == Wrap(Dot(job, StartOf(PerWorker(job), i), j))
    ensures Plus(sum, Times(a, b))
            == Wrap(Dot(job, StartOf(PerWorker(job), i), j + 1))
  {
    LoopSumOk(job, i, j);
  }

  /** The head of the loop: on with the next entry, or the sum is the worker's part. */
  lemma LoopOk(job: Job, m: Memory, i: nat, j: nat, sum: Word, published: bool)
    requires Fits(job, |m|) && i < job.k && j <= PerWorker(job) && published && m[DoneAt(job.k, i)] == 0
    requires StartOf(PerWorker(job), i) + PerWorker(job) <= Half(job)
    requires sum == Wrap(Dot(job, StartOf(PerWorker(job), i), j))
    ensures WorkerOk(job, m, i, StartLoop(j, PerWorker(job), Half(job), sum), published)
  {
  }

  lemma LoopStarts(job: Job, m: Memory, t: Team, e: Event)
    requires Inv(job, m, t) && Legal(m, [e]) && 2 <= e.node < 2 + job.k && Next(job, t, e).Some?
    requires t.workers[e.node - 2].GetElems?
    ensures WorkerOk(job, Update(m, e), e.node - 2, Next(job, t, e).value.workers[e.node - 2], Published(t.boss))
  {
    var i := e.node - 2;
    assert WorkerOk(job, m, i, t.workers[i], Published(t.boss));
    WindowFits(job, i);
    assert Dot(job, StartOf(PerWorker(job), i), 0) == 0;
  }

  lemma SimpleAdvances(job: Job, m: Memory, t: Team, e: Event)
    requires Inv(job, m, t) && Legal(m, [e]) && 2 <= e.node < 2 + job.k && Next(job, t, e).Some?
    requires t.workers[e.node - 2].Wait? || t.workers[e.node - 2].PutResult? || t.workers[e.node - 2].PutDone?
    ensures WorkerOk(job, Update(m, e), e.node - 2, Next(job, t, e).value.workers[e.node - 2], Published(t.boss))
  {
    var i := e.node - 2;
    assert WorkerOk(job, m, i, t.workers[i], Published(t.boss));
    WindowFits(job, i);
  }

  /** A worker stores only its result and its done flag. */
  predicate OwnCells(job: Job, i: nat, e: Event) {
    e.Store? ==> e.loc == ResultAt(i) || e.loc == DoneAt(job.k, i)
  }

  lemma OtherStays(job: Job, m: Memory, i: nat, e: Event, j: nat, w: Worker, published: bool)
    requires Fits(job, |m|) && i < job.k && OwnCells(job, i, e)
    requires j < job.k && j != i && WorkerOk(job, m, j, w, published)
    ensures WorkerOk(job, Update(m, e), j, w, published)
  {
    hide Dot, Part;
  }

  lemma WrittenStays(job: Job, m: Memory, i: nat, e: Event, b: Boss)
    requires Fits(job, |m|) && i < job.k && OwnCells(job, i, e) && Written(job, m, b)
    ensures Written(job, Update(m, e), b)
  {
  }

  lemma WorkerKeeps(job: Job, m: Memory, t: Team, e: Event)
    requires Inv(job, m, t) && Legal(m, [e]) && e.node >= 2 && Next(job, t, e).Some?
    ensures Inv(job, Update(m, e), Next(job, t, e).value)
  {
    var m', u := Update(m, e), Next(job, t, e).value;
    match t.workers[e.node - 2] {
      case LoadA(_, _, _) => LoadAAdvances(job, m, t, e);
      case LoadB(_, _, _, _) => LoadBAdvances(job, m, t, e);
      case GetElems => LoopStarts(job, m, t, e);
      case _ => SimpleAdvances(job, m, t, e);
    }
    assert !t.workers[e.node - 2].Finished?;
    WrittenStays(job, m, e.node - 2, e, t.boss);
    forall i | 0 <= i < job.k && i != e.node - 2 ensures WorkerOk(job, m', i, u.workers[i], Published(u.boss)) {
      assert WorkerOk(job, m, i, t.workers[i], Published(t.boss));
      OtherStays(job, m, e.node - 2, e, i, t.workers[i], Published(t.boss));
    }
  }

  /** Every run over flat memory keeps the invariant. */
  lemma {:induction false} RunKeeps(job: Job, m: Memory, t: Team, events: seq<Event>)
    requires Inv(job, m, t) && Legal(m, events) && Follow(Program(job), t, events).Some?
    ensures Inv(job, After(m, events), Follow(Program(job), t, events).value)
    decreases |events|
  {
    if events == [] {
    } else {
      var e := events[0];
      assert [e][1..] == [];
      if e.node == 1 { BossKeeps(job, m, t, e); } else { WorkerKeeps(job, m, t, e); }
      RunKeeps(job, Update(m, e), Next(job, t, e).value, events[1..]);
    }
  }

  // ---------- the answer ----------

  lemma {:induction false} PartSumIsDot(job: Job, n: nat)
    requires 0 < job.k && n <= job.k
    ensures StartOf(PerWorker(job), n) <= Half(job)
    ensures PartSum(job, n) == Wrap(Dot(job, 0, StartOf(PerWorker(job), n)))
    decreases n
  {
    if n == 0 {
      assert Dot(job, 0, 0) == 0;
    } else {
      var i := n - 1;
      PartSumIsDot(job, i);
      WindowFits(job, i);
      PartIsNext(job, i);
    }
  }

  lemma PartIsNext(job: Job, i: nat)
    requires i < job.k && StartOf(PerWorker(job), i) + PerWorker(job) == StartOf(PerWorker(job), i + 1) <= Half(job)
    requires PartSum(job, i) == Wrap(Dot(job, 0, StartOf(PerWorker(job), i)))
    ensures PartSum(job, i + 1) == Wrap(Dot(job, 0, StartOf(PerWorker(job), i + 1)))
  {
    hide Wrap, Product, Half;
    var start, per := StartOf(PerWorker(job), i), PerWorker(job);
    DotSplits(job, 0, start, per);
    PartSumStep(job, i, Dot(job, 0, start), Dot(job, start, per));
  }

  lemma PartSumStep(job: Job, i: nat, x: nat, y: nat)
    requires i < job.k && PartSum(job, i) == Wrap(x) && Part(job, i) == Wrap(y)
    ensures PartSum(job, i + 1) == Wrap(x + y)
  {
    PlusWraps(x, y);
  }

  /**
   * The answer leaves out the entries behind the last window, so it is the full dot product exactly
   * when these contribute a multiple of 2^64.
   */
  lemma AnswerIsDot(job: Job)
    requires 0 < job.k
    ensures StartOf(PerWorker(job), job.k) <= Half(job)
    ensures var used := StartOf(PerWorker(job), job.k);
            PartSum(job, job.k) == Wrap(Dot(job, 0, Half(job)))
            <==> Wrap(Dot(job, used, Half(job) - used)) == 0
  {
    var used := StartOf(PerWorker(job), job.k);
    PartSumIsDot(job, job.k);
    var rest := Half(job) - used;
    DotSplits(job, 0, used, rest);
    var x, y := Dot(job, 0, used), Dot(job, used, rest);
    WrapIff(x, y);
    assert Dot(job, 0, Half(job)) == x + y;
  }

  /** With K dividing the length there are none. */
  lemma EvenSharesCoverAll(job: Job)
    requires 0 < job.k && Half(job) % job.k == 0
    ensures PartSum(job, job.k) == Wrap(Dot(job, 0, Half(job)))
  {
    SharesFit(Half(job), job.k);
    PartSumIsDot(job, job.k);
  }

  lemma AtTheEnd(job: Job, m: Memory, t: Team)
    requires Inv(job, m, t) && (t.boss.Merge? || t.boss.Answer?)
    ensures forall i | 0 <= i < job.k :: t.workers[i].Finished? && m[ResultAt(i)] == Part(job, i)
  {
    forall i | 0 <= i < job.k ensures m[ResultAt(i)] == Part(job, i) {
      assert WorkerOk(job, m, i, t.workers[i], true);
    }
  }

  /**
   * End to end on the coherence protocol: when the coordinator has an answer, every worker has
   * finished and published its part, and the answer is the dot product exactly if the products behind
   * the last window add up to a multiple of 2^64; so it is if K divides the length, and then it is
   * the exact sum if that is a word.
   */
  lemma PdotOnIvy(job: Job, pages: nat, n: nat, moves: seq<Move>, strict: bool)
    requires n > 0 && Fits(job, pages * CELLS) && RunOf(InitSystem(pages, n), moves, strict)
    requires Follow(Program(job), Initial(job), Events(InitSystem(pages, n), moves, strict)).Some?
    ensures var t := Follow(Program(job), Initial(job), Events(InitSystem(pages, n), moves, strict)).value;
            var m := Contents(ExecOf(InitSystem(pages, n), moves, strict));
            t.boss.Merge? || t.boss.Answer? ==>
              |t.workers| == job.k &&
              forall i | 0 <= i < job.k :: t.workers[i].Finished? && m[ResultAt(i)] == Part(job, i)
    ensures StartOf(PerWorker(job), job.k) <= Half(job)
    ensures var t := Follow(Program(job), Initial(job), Events(InitSystem(pages, n), moves, strict)).value;
            var used := StartOf(PerWorker(job), job.k);
            t.boss.Answer? ==>
              (t.boss.value == Wrap(Dot(job, 0, Half(job))) <==> Wrap(Dot(job, used, Half(job) - used)) == 0)
    ensures var t := Follow(Program(job), Initial(job), Events(InitSystem(pages, n), moves, strict)).value;
            t.boss.Answer? && Half(job) % job.k == 0 ==>
              t.boss.value == Wrap(Dot(job, 0, Half(job))) &&
              (Dot(job, 0, Half(job)) < WORD_LIMIT ==> t.boss.value == Dot(job, 0, Half(job)))
  {
    hide Half, Share, Dot, Wrap, Next;
    var events := Events(InitSystem(pages, n), moves, strict);
    LoadsSeeLatestStores(pages, n, moves, strict);
    InitialInv(job, pages);
    RunKeeps(job, ZeroMemory(pages), Initial(job), events);
    var t, m := Follow(Program(job), Initial(job), events).value, Contents(ExecOf(InitSystem(pages, n), moves, strict));
    AnswerIsDot(job);
    if t.boss.Merge? || t.boss.Answer? {
      AtTheEnd(job, m, t);
      if Half(job) % job.k == 0 {
        EvenSharesCoverAll(job);
        SmallStays(Dot(job, 0, Half(job)));
      }
    }
  }

  /** An input on which the answer is wrong: two workers and vectors of one entry, whose product nobody adds. */
  lemma ShortVectorsAreLost()
    ensures var job := Job(2, [1, 1]);
            PartSum(job, 2) == 0 && Wrap(Dot(job, 0, Half(job))) == 1
  {
    var job := Job(2, [1, 1]);
    assert PerWorker(job) == 0 && Half(job) == 1;
    assert Part(job, 0) == 0 && Part(job, 1) == 0 && PartSum(job, 1) == 0;
    assert Dot(job, 0, 1) == Dot(job, 0, 0) + Product(1, 1);
  }
}
