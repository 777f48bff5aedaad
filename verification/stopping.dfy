/**
 * Whether the turn-taking workers can all stop: always if there is just one of them, and with two as
 * long as none of them acts before the manager's store; in no other case.
 */
module PingpongStops {
  import opened Types
  import opened FlatMemory
  import opened Programs
  import opened SharedRegion
  import opened Histories
  import opened Pingpong

  predicate AllStopped(p: Workers) { forall i | 0 <= i < |p.pcs| :: p.pcs[i].Stopped? }

  ghost predicate CanStop(m: Memory, p: Workers) {
    exists events, m', p' :: Goes(Program(), m, p, events, m', p') && AllStopped(p')
  }

  // ---------- one or two workers, when the manager comes first ----------

  predicate Busy(pc: Worker) { pc.Turn? || pc.Add? || pc.PutBack? }

  /** Behind the bound, nobody is still busy but the worker whose turn it is. */
  predicate Late(m: Memory, p: Workers)
    requires |m| > 0 && |p.pcs| > 0
  {
    forall i | 0 <= i < |p.pcs| ::
      && (p.pcs[i].Stopped? ==> m[0] >= ITERATIONS)
      && (m[0] >= ITERATIONS && Busy(p.pcs[i]) ==> i == m[0] % |p.pcs|)
  }

  lemma LateKeeps(m: Memory, p: Workers, e: Event)
    requires Inv(m, p) && |p.pcs| <= 2 && Late(m, p) && Legal(m, [e]) && Next(p, e).Some?
    ensures Late(Update(m, e), Next(p, e).value)
  {
    NextKeeps(m, p, e);
    if |p.pcs| == 1 {
    } else {
      assert |p.pcs| == 2;
    }
  }

  function PcRank(pc: Worker): nat {
    match pc
    case Outer => 4
    case Turn => 3
    case Add => 2
    case PutBack(_) => 1
    case Stopped => 0
  }

  function RankSum(pcs: seq<Worker>): nat {
    if pcs == [] then 0 else PcRank(pcs[0]) + RankSum(pcs[1..])
  }

  lemma {:induction false} RankSumUpdate(pcs: seq<Worker>, i: nat, pc: Worker)
    requires i < |pcs|
    ensures RankSum(pcs[i := pc]) == RankSum(pcs) - PcRank(pcs[i]) + PcRank(pc)
    decreases i
  {
    if i == 0 {
      assert pcs[i := pc][1..] == pcs[1..];
    } else {
      assert pcs[i := pc][1..] == pcs[1..][i - 1 := pc];
      RankSumUpdate(pcs[1..], i - 1, pc);
    }
  }

  /** The next access of worker i. */
  function AccessOf(m: Memory, p: Workers, i: nat): (e: Event)
    requires |m| > 0 && i < |p.pcs|
  {
    if p.pcs[i].PutBack? then Store(i + 1, 0, (p.pcs[i].value + 1) % WORD_LIMIT) else Load(i + 1, 0, m[0])
  }

  /** A worker whose next access brings the end closer. */
  function Mover(m: Memory, p: Workers): (i: nat)
    requires |m| > 0 && |p.pcs| > 0 && Late(m, p) && !AllStopped(p)
    ensures i < |p.pcs| && !p.pcs[i].Stopped? && (i == m[0] % |p.pcs| || (m[0] >= ITERATIONS && p.pcs[i].Outer?))
  {
    var turn := m[0] % |p.pcs|;
    if !p.pcs[turn].Stopped? then turn else FirstRunning(p.pcs)
  }

  function FirstRunning(pcs: seq<Worker>): (i: nat)
    requires exists i | 0 <= i < |pcs| :: !pcs[i].Stopped?
    ensures i < |pcs| && !pcs[i].Stopped?
  {
    if !pcs[0].Stopped? then 0 else FirstRunning(pcs[1..]) + 1
  }

  lemma AccessMoves(m: Memory, p: Workers, i: nat)
    requires Inv(m, p) && i < |p.pcs| && !p.pcs[i].Stopped?
    requires i == m[0] % |p.pcs| || (m[0] >= ITERATIONS && p.pcs[i].Outer?)
    ensures var e := AccessOf(m, p, i);
            Legal(m, [e]) && Next(p, e).Some? &&
            var pc := Next(p, e).value.pcs[i];
            Next(p, e).value.pcs == p.pcs[i := pc] &&
            if e.Store? then Update(m, e)[0] > m[0] else Update(m, e) == m && PcRank(pc) < PcRank(p.pcs[i])
  {
    var e := AccessOf(m, p, i);
    assert [e][1..] == [];
  }

  lemma MoverMoves(m: Memory, p: Workers)
    requires Inv(m, p) && Late(m, p) && !AllStopped(p)
    ensures var e := AccessOf(m, p, Mover(m, p));
            Legal(m, [e]) && Next(p, e).Some? &&
            (Update(m, e)[0] > m[0] || (Update(m, e) == m && RankSum(Next(p, e).value.pcs) < RankSum(p.pcs)))
  {
    var i := Mover(m, p);
    AccessMoves(m, p, i);
    RankSumUpdate(p.pcs, i, Next(p, AccessOf(m, p, i)).value.pcs[i]);
  }

  /** From every state that one or two workers can be in, they can all stop. */
  lemma {:induction false} StopFrom(m: Memory, p: Workers) returns (events: seq<Event>, m': Memory, p': Workers)
    requires Inv(m, p) && |p.pcs| <= 2 && Late(m, p)
    ensures Goes(Program(), m, p, events, m', p') && AllStopped(p')
    decreases ITERATIONS + 2 - m[0], RankSum(p.pcs)
  {
    if AllStopped(p) {
      events, m', p' := [], m, p;
    } else {
      var e := AccessOf(m, p, Mover(m, p));
      MoverMoves(m, p);
      NextKeeps(m, p, e);
      LateKeeps(m, p, e);
      var m1, p1 := Update(m, e), Next(p, e).value;
      GoesOneStep(Program(), m, p, e);
      events, m', p' := StopFrom(m1, p1);
      GoesOn(Program(), m, p, [e], m1, p1, events, m', p');
      events := [e] + events;
    }
  }

  lemma {:induction false} LateAlways(m: Memory, p: Workers, events: seq<Event>)
    requires Inv(m, p) && |p.pcs| <= 2 && Late(m, p) && Legal(m, events) && Follow(Program(), p, events).Some?
    ensures var q := Follow(Program(), p, events).value;
            |q.pcs| == |p.pcs| && Inv(After(m, events), q) && Late(After(m, events), q)
    decreases |events|
  {
    if events != [] {
      var e := events[0];
      assert [e][1..] == [];
      NextKeeps(m, p, e);
      LateKeeps(m, p, e);
      LateAlways(Update(m, e), Next(p, e).value, events[1..]);
    }
  }

  /** After a manager's store that finds the workers in turn, and nobody stopped. */
  lemma OneOrTwoCanAlwaysStop(m: Memory, p: Workers, events: seq<Event>)
    requires JustStored(m, p) && p.added == 0 && InTurn(p) && forall i | 0 <= i < |p.pcs| :: !p.pcs[i].Stopped?
    requires |p.pcs| <= 2 && Legal(m, events) && Follow(Program(), p, events).Some?
    ensures CanStop(After(m, events), Follow(Program(), p, events).value)
  {
    StartInv(m, p);
    LateAlways(m, p, events);
    var more, m', p' := StopFrom(After(m, events), Follow(Program(), p, events).value);
  }

  // ---------- three or more workers ----------

  /** The counter has passed the bound, it is the turn of a worker that has stopped, and worker j waits. */
  predicate Hung(m: Memory, p: Workers, j: nat)
    requires |m| > 0 && |p.pcs| > 0
  {
    && m[0] >= ITERATIONS && p.pcs[m[0] % |p.pcs|].Stopped?
    && j < |p.pcs| && p.pcs[j].Turn?
    && forall i | 0 <= i < |p.pcs| :: !p.pcs[i].Add? && !p.pcs[i].PutBack?
  }

  lemma {:induction false} HungForever(m: Memory, p: Workers, j: nat, events: seq<Event>)
    requires |m| > 0 && |p.pcs| > 0 && Hung(m, p, j) && Legal(m, events) && Follow(Program(), p, events).Some?
    ensures var q := Follow(Program(), p, events).value; |q.pcs| == |p.pcs| && q.pcs[j].Turn?
    decreases |events|
  {
    if events != [] {
      HungForever(Update(m, events[0]), Next(p, events[0]).value, j, events[1..]);
    }
  }

  lemma HungCannotStop(m: Memory, p: Workers, j: nat)
    requires |m| > 0 && |p.pcs| > 0 && Hung(m, p, j)
    ensures !CanStop(m, p)
  {
    forall more, n, q | Goes(Program(), m, p, more, n, q) ensures !AllStopped(q) { HungForever(m, p, j, more); }
  }

  lemma LoadGoes(m: Memory, p: Workers, i: nat, pc: Worker)
    requires |m| > 0 && i < |p.pcs| && Advance(|p.pcs|, i, p.pcs[i], Load(i + 1, 0, m[0])) == Some(pc)
    ensures Goes(Program(), m, p, [Load(i + 1, 0, m[0])], m, Workers(p.pcs[i := pc], p.added))
  {
    assert [Load(i + 1, 0, m[0])][1..] == [];
    GoesOneStep(Program(), m, p, Load(i + 1, 0, m[0]));
  }

  /** The accesses of one undisturbed increment. */
  function Increment(i: nat, v: Word): seq<Event> {
    [Load(i + 1, 0, v), Load(i + 1, 0, v), Load(i + 1, 0, v), Store(i + 1, 0, (v + 1) % WORD_LIMIT)]
  }

  lemma IncrementGoes(m: Memory, p: Workers, i: nat)
    requires |m| > 0 && i < |p.pcs| && p.pcs[i].Outer? && m[0] < ITERATIONS && m[0] % |p.pcs| == i
    ensures Goes(Program(), m, p, Increment(i, m[0]), m[0 := m[0] + 1], Workers(p.pcs, p.added + 1))
  {
    var load, store := Load(i + 1, 0, m[0]), Store(i + 1, 0, m[0] + 1);
    var p1 := Workers(p.pcs[i := Turn], p.added);
    var p2 := Workers(p.pcs[i := Add], p.added);
    var p3 := Workers(p.pcs[i := PutBack(m[0])], p.added);
    var p4 := Workers(p.pcs, p.added + 1);
    assert [load][1..] == [];
    assert p1.pcs[i := Add] == p2.pcs && p2.pcs[i := PutBack(m[0])] == p3.pcs && p3.pcs[i := Outer] == p4.pcs;
    GoesOneStep(Program(), m, p, load);
    GoesOneStep(Program(), m, p1, load);
    GoesOn(Program(), m, p, [load], m, p1, [load], m, p2);
    GoesOneStep(Program(), m, p2, load);
    GoesOn(Program(), m, p, [load] + [load], m, p2, [load], m, p3);
    assert [store][1..] == [];
    GoesOneStep(Program(), m, p3, store);
    GoesOn(Program(), m, p, [load] + [load] + [load], m, p3, [store], m[0 := m[0] + 1], p4);
    assert [load] + [load] + [load] + [store] == Increment(i, m[0]);
  }

  /** Worker by worker, up to just below the bound. */
  lemma {:induction false} Climb(w: nat, m: Memory, v: nat) returns (events: seq<Event>)
    requires 0 < w && |m| > 0 && m[0] == 1 && 1 <= v <= ITERATIONS
    ensures Goes(Program(), m, Begin(w), events, m[0 := v], Workers(Begin(w).pcs, v - 1))
  {
    if v == 1 {
      events := [];
      assert m[0 := 1] == m;
    } else {
      events := Climb(w, m, v - 1);
      var m1, p1 := m[0 := v - 1], Workers(Begin(w).pcs, v - 2);
      var i := m1[0] % w;
      IncrementGoes(m1, p1, i);
      assert m1[0 := v] == m[0 := v];
      GoesOn(Program(), m, Begin(w), events, m1, p1, Increment(i, m1[0]), m[0 := v], Workers(p1.pcs, v - 1));
      events := events + Increment(i, m1[0]);
    }
  }

  lemma TurnsDiffer(n: nat, w: nat)
    requires w > 1
    ensures n % w != (n + 1) % w
  {
    var d := (n + 1) / w - n / w;
    assert d * w + ((n + 1) % w - n % w) == 1;
    assert d >= 1 ==> d * w >= w;
    assert d <= 0 ==> d * w <= 0;
  }

  /**
   * With three or more workers there is a run after which they can never all stop: a slow worker
   * sees the counter at the bound and stops, although it is its turn and another one waits behind it.
   */
  lemma ThreeCanHang(w: nat, m: Memory) returns (events: seq<Event>, m': Memory, p': Workers, j: nat)
    requires w >= 3 && |m| > 0 && m[0] == 1
    ensures Goes(Program(), m, Begin(w), events, m', p') && |m'| > 0 && |p'.pcs| > 0 && Hung(m', p', j)
    ensures !CanStop(m', p')
  {
    hide Goes;
    var a, b := (ITERATIONS - 1) % w, ITERATIONS % w;
    TurnsDiffer(ITERATIONS - 1, w);
    j := if a != 0 && b != 0 then 0 else if a != 1 && b != 1 then 1 else 2;
    events := Climb(w, m, ITERATIONS - 1);
    var m1, p1 := m[0 := ITERATIONS - 1], Workers(Begin(w).pcs, ITERATIONS - 2);
    var test := Load(j + 1, 0, ITERATIONS - 1);
    var p2 := Workers(p1.pcs[j := Turn], p1.added);
    LoadGoes(m1, p1, j, Turn);
    GoesOn(Program(), m, Begin(w), events, m1, p1, [test], m1, p2);
    events := events + [test];
    IncrementGoes(m1, p2, a);
    var m3, p3 := m1[0 := ITERATIONS], Workers(p2.pcs, p2.added + 1);
    GoesOn(Program(), m, Begin(w), events, m1, p2, Increment(a, ITERATIONS - 1), m3, p3);
    events := events + Increment(a, ITERATIONS - 1);
    var late := Load(b + 1, 0, ITERATIONS);
    var p4 := Workers(p3.pcs[b := Stopped], p3.added);
    LoadGoes(m3, p3, b, Stopped);
    GoesOn(Program(), m, Begin(w), events, m3, p3, [late], m3, p4);
    events := events + [late];
    m', p' := m3, p4;
    assert Hung(m', p', j);
    HungCannotStop(m', p', j);
  }

  /**
   * If the manager's store comes before any access of a worker, W workers can stop from whatever
   * state they get into if and only if there are at most two.
   */
  lemma CanAlwaysStopIff(w: nat, m: Memory)
    requires 0 < w < WORD_LIMIT - ITERATIONS && |m| > 0 && m[0] == 1
    ensures (forall events, m', p' :: Goes(Program(), m, Begin(w), events, m', p') ==> CanStop(m', p')) <==> w <= 2
  {
    if w <= 2 {
      forall events, m', p' | Goes(Program(), m, Begin(w), events, m', p') ensures CanStop(m', p') {
        OneOrTwoCanAlwaysStop(m, Begin(w), events);
      }
    } else {
      var events, m', p', j := ThreeCanHang(w, m);
    }
  }

  // ---------- who stops ----------

  /** Worker i's last access. */
  function LastAccess(i: nat, events: seq<Event>): Option<Event> {
    if events == [] then None
    else if events[|events| - 1].node == i + 1 then Some(events[|events| - 1])
    else LastAccess(i, events[..|events| - 1])
  }

  predicate SawTheBound(i: nat, events: seq<Event>) {
    match LastAccess(i, events)
    case Some(Load(_, loc, v)) => loc == 0 && v >= ITERATIONS
    case _ => false
  }

  lemma FollowSplits(p: Workers, events: seq<Event>)
    requires events != [] && Follow(Program(), p, events).Some?
    ensures var q := Follow(Program(), p, events[..|events| - 1]);
            q.Some? && Next(q.value, events[|events| - 1]) == Follow(Program(), p, events)
    decreases |events|
  {
    if |events| > 1 {
      var rest := events[1..];
      FollowSplits(Next(p, events[0]).value, rest);
      assert events[..|events| - 1][1..] == rest[..|rest| - 1];
    } else {
      assert Follow(Program(), Next(p, events[0]).value, []).Some?;
    }
  }

  /** In every run of any number of workers, a worker that has stopped last saw the counter at the bound or above. */
  lemma {:induction false} StoppedSawTheBound(p: Workers, events: seq<Event>, i: nat)
    requires Follow(Program(), p, events).Some? && i < |p.pcs| && !p.pcs[i].Stopped?
    ensures i < |Follow(Program(), p, events).value.pcs|
    ensures Follow(Program(), p, events).value.pcs[i].Stopped? ==> SawTheBound(i, events)
    decreases |events|
  {
    if events != [] {
      FollowSplits(p, events);
      StoppedSawTheBound(p, events[..|events| - 1], i);
    }
  }

  /**
   * Once a worker has stopped the counter is at the bound or above, and stays there: workers in turn
   * leave it between ITERATIONS and ITERATIONS + W - 1, however many they are.
   */
  lemma {:induction false} StopsAtTheBound(m: Memory, p: Workers, events: seq<Event>)
    requires Pingpong.Inv(m, p) && Legal(m, events) && Follow(Program(), p, events).Some?
    requires (exists i | 0 <= i < |p.pcs| :: p.pcs[i].Stopped?) ==> m[0] >= ITERATIONS
    ensures var q := Follow(Program(), p, events).value;
            (exists i | 0 <= i < |q.pcs| :: q.pcs[i].Stopped?) ==>
              ITERATIONS <= After(m, events)[0] <= ITERATIONS + |p.pcs| - 1
    decreases |events|
  {
    if events != [] {
      var e := events[0];
      assert [e][1..] == [];
      NextKeeps(m, p, e);
      StopsAtTheBound(Update(m, e), Next(p, e).value, events[1..]);
    }
  }

  // ---------- one worker, whatever came before ----------

  /** The accesses a lone worker has left, from its test of the bound on. */
  function LoopsLeft(counter: nat): nat { if counter < ITERATIONS then 4 * (ITERATIONS - counter) + 1 else 1 }

  function AccessesLeft(counter: Word, pc: Worker): nat {
    match pc
    case Outer => LoopsLeft(counter)
    case Turn => 3 + LoopsLeft((counter + 1) % WORD_LIMIT)
    case Add => 2 + LoopsLeft((counter + 1) % WORD_LIMIT)
    case PutBack(v) => 1 + LoopsLeft((v + 1) % WORD_LIMIT)
    case Stopped => 0
  }

  lemma LoneStep(m: Memory, p: Workers)
    requires |m| > 0 && |p.pcs| == 1 && !p.pcs[0].Stopped?
    ensures var e := AccessOf(m, p, 0);
            Legal(m, [e]) && Next(p, e).Some? && |Next(p, e).value.pcs| == 1 &&
            AccessesLeft(Update(m, e)[0], Next(p, e).value.pcs[0]) < AccessesLeft(m[0], p.pcs[0])
  {
    assert [AccessOf(m, p, 0)][1..] == [];
  }

  /** A lone worker can stop from any state at all. */
  lemma {:induction false} LoneStops(m: Memory, p: Workers) returns (events: seq<Event>, m': Memory, p': Workers)
    requires |m| > 0 && |p.pcs| == 1
    ensures Goes(Program(), m, p, events, m', p') && AllStopped(p')
    decreases AccessesLeft(m[0], p.pcs[0])
  {
    if p.pcs[0].Stopped? {
      events, m', p' := [], m, p;
      Stays(Program(), m, p);
    } else {
      var e := AccessOf(m, p, 0);
      LoneStep(m, p);
      var m1, p1 := Update(m, e), Next(p, e).value;
      GoesOneStep(Program(), m, p, e);
      events, m', p' := LoneStops(m1, p1);
      GoesOn(Program(), m, p, [e], m1, p1, events, m', p');
      events := [e] + events;
    }
  }

  // ---------- two workers, one of them early ----------

  /** One more load of worker i. */
  lemma ThenLoad(m0: Memory, p0: Workers, events: seq<Event>, m: Memory, p: Workers, i: nat, pc: Worker)
    requires Goes(Program(), m0, p0, events, m, p) && |m| > 0 && i < |p.pcs|
    requires Advance(|p.pcs|, i, p.pcs[i], Load(i + 1, 0, m[0])) == Some(pc)
    ensures Goes(Program(), m0, p0, events + [Load(i + 1, 0, m[0])], m, Workers(p.pcs[i := pc], p.added))
  {
    LoadGoes(m, p, i, pc);
    GoesOn(Program(), m0, p0, events, m, p, [Load(i + 1, 0, m[0])], m, Workers(p.pcs[i := pc], p.added));
  }

  /** One more store of worker i. */
  lemma ThenStore(m0: Memory, p0: Workers, events: seq<Event>, m: Memory, p: Workers, i: nat, v: Word)
    requires Goes(Program(), m0, p0, events, m, p) && |m| > 0 && i < |p.pcs|
    requires p.pcs[i] == PutBack(v) && v + 1 < WORD_LIMIT
    ensures Goes(Program(), m0, p0, events + [Store(i + 1, 0, v + 1)], m[0 := v + 1],
                 Workers(p.pcs[i := Outer], p.added + 1))
  {
    var e := Store(i + 1, 0, v + 1);
    assert [e][1..] == [];
    GoesOneStep(Program(), m, p, e);
    GoesOn(Program(), m0, p0, events, m, p, [e], m[0 := v + 1], Workers(p.pcs[i := Outer], p.added + 1));
  }

  function Two(a: Worker, b: Worker, added: nat): Workers { Workers([a, b], added) }

  lemma TwoUpdates(a: Worker, b: Worker, c: Worker, added: nat)
    ensures Two(a, b, added).pcs[0 := c] == [c, b] && Two(a, b, added).pcs[1 := c] == [a, c]
  {
  }

  /** Worker 1 is about to load out of turn; worker 2 passes its turn test before worker 1 stores. */
  lemma HalfLap(m: Memory, v: Word, added: nat) returns (events: seq<Event>)
    requires |m| > 0 && m[0] == v && v % 2 == 1 && v + 1 < ITERATIONS
    ensures Goes(Program(), m, Two(Add, Outer, added), events, m[0 := v + 1], Two(Outer, Add, added + 1))
  {
    hide Goes;
    var p := Two(Add, Outer, added);
    Stays(Program(), m, p);
    TwoUpdates(Add, Outer, PutBack(v), added);
    ThenLoad(m, p, [], m, p, 0, PutBack(v));
    TwoUpdates(PutBack(v), Outer, Turn, added);
    events := [] + [Load(1, 0, v)];
    ThenLoad(m, p, events, m, Two(PutBack(v), Outer, added), 1, Turn);
    TwoUpdates(PutBack(v), Turn, Add, added);
    events := events + [Load(2, 0, v)];
    ThenLoad(m, p, events, m, Two(PutBack(v), Turn, added), 1, Add);
    TwoUpdates(PutBack(v), Add, Outer, added);
    events := events + [Load(2, 0, v)];
    ThenStore(m, p, events, m, Two(PutBack(v), Add, added), 0, v);
    events := events + [Store(1, 0, v + 1)];
  }

  /** Then the other way round, and both are where they were, two further. */
  lemma OtherHalf(m: Memory, v: Word, added: nat) returns (events: seq<Event>)
    requires |m| > 0 && m[0] == v && v % 2 == 0 && v < ITERATIONS
    ensures Goes(Program(), m, Two(Outer, Add, added), events, m[0 := v + 1], Two(Add, Outer, added + 1))
  {
    hide Goes;
    var p := Two(Outer, Add, added);
    Stays(Program(), m, p);
    TwoUpdates(Outer, Add, Turn, added);
    ThenLoad(m, p, [], m, p, 0, Turn);
    TwoUpdates(Turn, Add, Add, added);
    events := [] + [Load(1, 0, v)];
    ThenLoad(m, p, events, m, Two(Turn, Add, added), 0, Add);
    TwoUpdates(Add, Add, PutBack(v), added);
    events := events + [Load(1, 0, v)];
    ThenLoad(m, p, events, m, Two(Add, Add, added), 1, PutBack(v));
    TwoUpdates(Add, PutBack(v), Outer, added);
    events := events + [Load(2, 0, v)];
    ThenStore(m, p, events, m, Two(Add, PutBack(v), added), 1, v);
    events := events + [Store(2, 0, v + 1)];
  }

  /** Lap by lap, up to just below the bound. */
  lemma {:induction false} Laps(m: Memory, v: Word) returns (events: seq<Event>)
    requires |m| > 0 && m[0] == 1 && v % 2 == 1 && v < ITERATIONS
    ensures Goes(Program(), m, Two(Add, Outer, 0), events, m[0 := v], Two(Add, Outer, v - 1))
    decreases v
  {
    hide Goes;
    var p := Two(Add, Outer, 0);
    if v == 1 {
      events := [];
      assert m[0 := 1] == m;
      Stays(Program(), m, p);
    } else {
      events := Laps(m, v - 2);
      var m1, m2 := m[0 := v - 2], m[0 := v - 1];
      var half := HalfLap(m1, v - 2, v - 3);
      assert m1[0 := v - 1] == m2;
      GoesOn(Program(), m, p, events, m1, Two(Add, Outer, v - 3), half, m2, Two(Outer, Add, v - 2));
      var other := OtherHalf(m2, v - 1, v - 2);
      assert m2[0 := v] == m[0 := v];
      GoesOn(Program(), m, p, events + half, m2, Two(Outer, Add, v - 2), other, m[0 := v], Two(Add, Outer, v - 1));
      events := events + half + other;
    }
  }

  /** An early worker 1 reaches the bound out of turn and stops, and worker 2 waits for an odd counter for good. */
  lemma TwoCanHang(m: Memory) returns (events: seq<Event>, m': Memory, p': Workers)
    requires |m| > 0 && m[0] == 1
    ensures Goes(Program(), m, Two(Add, Outer, 0), events, m', p') && |m'| > 0 && |p'.pcs| > 0 && Hung(m', p', 1)
    ensures !CanStop(m', p')
  {
    hide Goes;
    var v, p := ITERATIONS - 1, Two(Add, Outer, 0);
    events := Laps(m, v);
    var m1, m2 := m[0 := v], m[0 := ITERATIONS];
    TwoUpdates(Add, Outer, PutBack(v), v - 1);
    ThenLoad(m, p, events, m1, Two(Add, Outer, v - 1), 0, PutBack(v));
    TwoUpdates(PutBack(v), Outer, Turn, v - 1);
    events := events + [Load(1, 0, v)];
    ThenLoad(m, p, events, m1, Two(PutBack(v), Outer, v - 1), 1, Turn);
    TwoUpdates(PutBack(v), Turn, Outer, v - 1);
    events := events + [Load(2, 0, v)];
    ThenStore(m, p, events, m1, Two(PutBack(v), Turn, v - 1), 0, v);
    assert m1[0 := v + 1] == m2;
    TwoUpdates(Outer, Turn, Stopped, v);
    events := events + [Store(1, 0, v + 1)];
    ThenLoad(m, p, events, m2, Two(Outer, Turn, v), 0, Stopped);
    events := events + [Load(1, 0, ITERATIONS)];
    m', p' := m2, Two(Stopped, Turn, v);
    HungCannotStop(m', p', 1);
  }

  // ---------- the whole program ----------

  /** All accesses of a run: workers', the manager's store, and workers' again. */
  function AllOf(before: seq<Event>, after: seq<Event>): seq<Event> { before + ([Store(0, 0, 1)] + after) }

  /** From the first test of the bound on, the workers make these accesses around the manager's store. */
  predicate Plays(w: nat, before: seq<Event>, after: seq<Event>) {
    var p := Follow(Program(), Begin(w), before);
    p.Some? && Follow(Program(), p.value, after).Some?
  }

  function EndOf(w: nat, before: seq<Event>, after: seq<Event>): Workers
    requires Plays(w, before, after)
  {
    Follow(Program(), Follow(Program(), Begin(w), before).value, after).value
  }

  lemma AroundTheStore(m: Memory, before: seq<Event>, after: seq<Event>)
    requires |m| > 0
    ensures Legal(m, AllOf(before, after)) <==> Legal(m, before) && Legal(After(m, before)[0 := 1], after)
    ensures After(m, AllOf(before, after)) == After(After(m, before)[0 := 1], after)
  {
    AfterAppend(m, before, [Store(0, 0, 1)] + after);
    assert ([Store(0, 0, 1)] + after)[1..] == after;
  }

  lemma OneCanStopAnyway(m: Memory, before: seq<Event>, after: seq<Event>)
    requires |m| > 0 && Plays(1, before, after)
    ensures CanStop(After(m, AllOf(before, after)), EndOf(1, before, after))
  {
    FollowKeepsSize(Begin(1), before);
    FollowKeepsSize(Follow(Program(), Begin(1), before).value, after);
    var events, m', p' := LoneStops(After(m, AllOf(before, after)), EndOf(1, before, after));
  }

  /** Worker 1 passes its turn test on the initial 0. */
  lemma EarlyTest(m: Memory) returns (before: seq<Event>)
    requires |m| > 0 && m[0] == 0
    ensures Legal(m, before) && After(m, before) == m && Follow(Program(), Begin(2), before) == Some(Two(Add, Outer, 0))
  {
    var p := Two(Outer, Outer, 0);
    assert Begin(2) == p;
    Stays(Program(), m, p);
    TwoUpdates(Outer, Outer, Turn, 0);
    ThenLoad(m, p, [], m, p, 0, Turn);
    before := [] + [Load(1, 0, 0)];
    TwoUpdates(Turn, Outer, Add, 0);
    ThenLoad(m, p, before, m, Two(Turn, Outer, 0), 0, Add);
    before := before + [Load(1, 0, 0)];
  }

  /** With two or more workers the program has a run after which they can never all stop. */
  lemma MoreCanHang(w: nat, m: Memory) returns (before: seq<Event>, after: seq<Event>)
    requires w >= 2 && |m| > 0 && m[0] == 0
    ensures Plays(w, before, after) && Legal(m, AllOf(before, after))
    ensures !CanStop(After(m, AllOf(before, after)), EndOf(w, before, after))
  {
    var m', p';
    if w == 2 {
      before := EarlyTest(m);
      after, m', p' := TwoCanHang(m[0 := 1]);
    } else {
      before := [];
      var j;
      after, m', p', j := ThreeCanHang(w, m[0 := 1]);
    }
    AroundTheStore(m, before, after);
  }

  /** Only the nodes of the workers make their accesses. */
  lemma {:induction false} FollowNodes(p: Workers, events: seq<Event>)
    requires Follow(Program(), p, events).Some?
    ensures NodesBelow(events, |p.pcs| + 1)
    decreases |events|
  {
    if events != [] {
      FollowNodes(Next(p, events[0]).value, events[1..]);
      assert forall k | 0 < k < |events| :: events[k] == events[1..][k - 1];
    }
  }

  lemma PlaysIsPossible(w: nat, pages: nat, n: nat, before: seq<Event>, after: seq<Event>, strict: bool)
    requires n > w && Plays(w, before, after) && Legal(ZeroMemory(pages), AllOf(before, after))
    ensures Possible(pages, n, AllOf(before, after), strict)
  {
    FollowKeepsSize(Begin(w), before);
    FollowNodes(Begin(w), before);
    FollowNodes(Follow(Program(), Begin(w), before).value, after);
    LegalIsPossible(pages, n, AllOf(before, after), strict);
  }

  /**
   * The whole program on the coherence protocol, from the freshly mapped region: the workers can stop
   * from every state that some run gets them into if and only if there is just one of them.
   */
  lemma WholeProgramStopsIff(w: nat, pages: nat, n: nat, strict: bool)
    requires 0 < w < n && pages > 0
    ensures (forall before, after | Plays(w, before, after) && Possible(pages, n, AllOf(before, after), strict) ::
               CanStop(After(ZeroMemory(pages), AllOf(before, after)), EndOf(w, before, after)))
            <==> w == 1
  {
    hide Plays, EndOf, AllOf, CanStop, Possible;
    if w == 1 {
      forall before, after | Plays(w, before, after) && Possible(pages, n, AllOf(before, after), strict)
        ensures CanStop(After(ZeroMemory(pages), AllOf(before, after)), EndOf(w, before, after))
      {
        OneCanStopAnyway(ZeroMemory(pages), before, after);
      }
    } else {
      var before, after := MoreCanHang(w, ZeroMemory(pages));
      PlaysIsPossible(w, pages, n, before, after, strict);
    }
  }
}
