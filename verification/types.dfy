/** Words, pages and the small wrappers shared by the whole model. */
module Types {
  datatype Option<+T> = None | Some(value: T)

  /** The exceptions the parsers throw, and the error that ends a fetch with an unknown permission. */
  datatype Error = InvalidArgument | OutOfRange | UnknownAccess

  datatype Result<+T> = Ok(value: T) | Err(error: Error) {
    predicate IsFailure() { Err? }
    function PropagateFailure<U>(): Result<U>
      requires Err?
    {
      Err(error)
    }
    function Extract(): T
      requires Ok?
    {
      value
    }
  }

  // The memory cells the applications load and store: unsigned 64-bit words.
  const WORD_LIMIT: nat := 0x1_0000_0000_0000_0000
  type Word = w: nat | w < WORD_LIMIT

  // A page of 4096 bytes holds 512 words.
  const CELLS: nat := 512
  type Page = p: seq<Word> | |p| == CELLS witness seq(CELLS, _ => 0)

  function ZeroPage(): (p: Page)
    ensures forall k | 0 <= k < CELLS :: p[k] == 0
  {
    seq(CELLS, _ => 0)
  }

  // What an application thread does to the shared region: `loc` counts words from the region's start.
  datatype Event =
    | Load(node: nat, loc: nat, value: Word)
    | Store(node: nat, loc: nat, value: Word)
}

/** One flat memory shared by all nodes: the specification the coherence protocol is held to. */
module FlatMemory {
  import opened Types

  type Memory = seq<Word>

  function Update(m: Memory, e: Event): (m': Memory)
    ensures |m'| == |m|
  {
    if e.Store? && e.loc < |m| then m[e.loc := e.value] else m
  }

  function After(m: Memory, events: seq<Event>): (m': Memory)
    ensures |m'| == |m|
    decreases |events|
  {
    if events == [] then m else After(Update(m, events[0]), events[1..])
  }

  /** Every access is inside the memory and every load returns the latest value stored. */
  predicate Legal(m: Memory, events: seq<Event>)
    decreases |events|
  {
    events == [] ||
    (events[0].loc < |m| &&
     (events[0].Load? ==> events[0].value == m[events[0].loc]) &&
     Legal(Update(m, events[0]), events[1..]))
  }

  lemma {:induction false} AfterAppend(m: Memory, xs: seq<Event>, ys: seq<Event>)
    ensures After(m, xs + ys) == After(After(m, xs), ys)
    ensures Legal(m, xs + ys) <==> Legal(m, xs) && Legal(After(m, xs), ys)
    decreases |xs|
  {
    if xs == [] {
      assert xs + ys == ys;
    } else {
      assert (xs + ys)[0] == xs[0] && (xs + ys)[1..] == xs[1..] + ys;
      AfterAppend(Update(m, xs[0]), xs[1..], ys);
    }
  }

  lemma EmptyHistory(m: Memory)
    ensures Legal(m, []) && After(m, []) == m
  {
  }

  lemma AfterOneMore(m: Memory, events: seq<Event>, e: Event)
    ensures After(m, events + [e]) == Update(After(m, events), e)
    ensures Legal(m, events + [e]) <==> Legal(m, events) && Legal(After(m, events), [e])
  {
    AfterAppend(m, events, [e]);
    assert [e][1..] == [];
  }
}
