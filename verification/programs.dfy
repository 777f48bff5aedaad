/** Programs on the shared memory: state machines that say which access comes next and what it leads to. */
module Programs {
  import opened Types
  import opened FlatMemory

  /** From a state and an access to the next state, if the program makes that access there. */
  type Machine<!S> = (S, Event) -> Option<S>

  /** The state after a whole sequence of accesses, if these are the program's. */
  function Follow<S>(next: Machine<S>, s: S, events: seq<Event>): Option<S>
    decreases |events|
  {
    if events == [] then Some(s) else
      match next(s, events[0])
      case None => None
      case Some(t) => Follow(next, t, events[1..])
  }

  lemma {:induction false} FollowAppend<S>(next: Machine<S>, s: S, xs: seq<Event>, ys: seq<Event>)
    requires Follow(next, s, xs).Some?
    ensures Follow(next, s, xs + ys) == Follow(next, Follow(next, s, xs).value, ys)
    decreases |xs|
  {
    if xs == [] {
      assert xs + ys == ys;
    } else {
      assert (xs + ys)[0] == xs[0] && (xs + ys)[1..] == xs[1..] + ys;
      FollowAppend(next, next(s, xs[0]).value, xs[1..], ys);
    }
  }

  /** The accesses `events` are legal and lead from one state to the other. */
  predicate Goes<S(==)>(next: Machine<S>, m: Memory, s: S, events: seq<Event>, m': Memory, s': S) {
    Legal(m, events) && After(m, events) == m' && Follow(next, s, events) == Some(s')
  }

  lemma Stays<S>(next: Machine<S>, m: Memory, s: S)
    ensures Goes(next, m, s, [], m, s)
  {
  }

  lemma GoesOn<S>(next: Machine<S>, m: Memory, s: S, xs: seq<Event>, m1: Memory, s1: S,
                  ys: seq<Event>, m2: Memory, s2: S)
    requires Goes(next, m, s, xs, m1, s1) && Goes(next, m1, s1, ys, m2, s2)
    ensures Goes(next, m, s, xs + ys, m2, s2)
  {
    AfterAppend(m, xs, ys);
    FollowAppend(next, s, xs, ys);
  }

  lemma GoesOneStep<S>(next: Machine<S>, m: Memory, s: S, e: Event)
    requires Legal(m, [e]) && next(s, e).Some?
    ensures Goes(next, m, s, [e], Update(m, e), next(s, e).value)
  {
    assert [e][1..] == [];
    assert Follow(next, next(s, e).value, []) == Some(next(s, e).value);
    assert After(Update(m, e), []) == Update(m, e);
  }
}
