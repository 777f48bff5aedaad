/** The in-place bubble sort that each worker of the parallel sort runs on its window. */
module Sorting {
  import opened Types

  predicate Sorted(s: seq<Word>) { forall i, j | 0 <= i < j < |s| :: s[i] <= s[j] }

  // ---------- bubble sort ----------

  /** Compares the neighbours at j - 1 and j and swaps them if they are out of order. */
  function Exchange(w: seq<Word>, j: nat): (r: seq<Word>)
    requires 0 < j < |w|
    ensures |r| == |w|
  {
    if w[j - 1] > w[j] then w[j - 1 := w[j]][j := w[j - 1]] else w
  }

  /** The window before step j of one pass. */
  function Sweep(w: seq<Word>, j: nat): (r: seq<Word>)
    requires 0 < j && (j <= |w| || j == 1)
    ensures |r| == |w|
    decreases j
  {
    if j == 1 then w else Exchange(Sweep(w, j - 1), j - 1)
  }

  function Pass(w: seq<Word>): (r: seq<Word>)
    ensures |r| == |w|
  {
    if w == [] then w else Sweep(w, |w|)
  }

  function Passes(w: seq<Word>, n: nat): (r: seq<Word>)
    ensures |r| == |w|
  {
    if n == 0 then w else Pass(Passes(w, n - 1))
  }

  /** As many full passes as there are elements. */
  function BubbleSort(w: seq<Word>): (r: seq<Word>)
    ensures |r| == |w|
  {
    Passes(w, |w|)
  }

  /** The last n elements are in their final places. */
  predicate Settled(w: seq<Word>, n: nat) {
    forall i, j | 0 <= i < j < |w| && |w| - n <= j :: w[i] <= w[j]
  }

  lemma ExchangeKeepsElements(w: seq<Word>, j: nat)
    requires 0 < j < |w|
    ensures multiset(Exchange(w, j)) == multiset(w)
  {
  }

  lemma ExchangeKeepsSettled(v: seq<Word>, k: nat, n: nat)
    requires 0 < k < |v| && Settled(v, n)
    ensures Settled(Exchange(v, k), n)
  {
    var r := Exchange(v, k);
    if v[k - 1] > v[k] {
      assert k < |v| - n;
      forall i, j | 0 <= i < j < |v| && |v| - n <= j ensures r[i] <= r[j] {
        assert r[j] == v[j];
        var i' := if i == k - 1 then k else if i == k then k - 1 else i;
        assert r[i] == v[i'];
      }
    }
  }

  /** During a pass the largest element so far sits right before the next comparison. */
  lemma {:induction false} SweepCarriesMaximum(w: seq<Word>, j: nat, n: nat)
    requires 0 < j <= |w| && Settled(w, n)
    ensures var r := Sweep(w, j);
            && multiset(r) == multiset(w) && Settled(r, n)
            && (forall i | 0 <= i < j :: r[i] <= r[j - 1])
            && (forall i | j <= i < |w| :: r[i] == w[i])
    decreases j
  {
    if j > 1 {
      var v := Sweep(w, j - 1);
      SweepCarriesMaximum(w, j - 1, n);
      ExchangeKeepsElements(v, j - 1);
      ExchangeKeepsSettled(v, j - 1, n);
      var r := Exchange(v, j - 1);
      forall i | 0 <= i < j ensures r[i] <= r[j - 1] {
        assert i < j - 1 ==> v[i] <= v[j - 2];
      }
    }
  }

  lemma PassSettles(v: seq<Word>, n: nat)
    requires Settled(v, n)
    ensures multiset(Pass(v)) == multiset(v) && Settled(Pass(v), n + 1)
  {
    if v != [] {
      SweepCarriesMaximum(v, |v|, n);
      PassSettlesOneMore(v, n);
    }
  }

  lemma {:induction false} PassesSettle(w: seq<Word>, n: nat)
    ensures multiset(Passes(w, n)) == multiset(w) && Settled(Passes(w, n), n)
  {
    if n > 0 {
      hide Settled, Pass;
      PassesSettle(w, n - 1);
      PassSettles(Passes(w, n - 1), n - 1);
    }
  }

  lemma PassSettlesOneMore(v: seq<Word>, n: nat)
    requires v != [] && Settled(v, n) && Settled(Pass(v), n)
    requires forall i | 0 <= i < |v| :: Pass(v)[i] <= Pass(v)[|v| - 1]
    ensures Settled(Pass(v), n + 1)
  {
    SettleStep(v, |v|, n);
  }

  /** A pass that has reached j has settled position |v| - n - 1 once it is past it. */
  lemma {:induction false} SettleStep(v: seq<Word>, j: nat, n: nat)
    requires 0 < j <= |v| && Settled(v, n)
    ensures var r := Sweep(v, j); j >= |v| - n ==> Settled(r, n + 1)
    decreases j
  {
    SweepCarriesMaximum(v, j, n);
    if j > 1 {
      SettleStep(v, j - 1, n);
      SweepCarriesMaximum(v, j - 1, n);
    }
  }

  lemma BubbleSortSorts(w: seq<Word>)
    ensures Sorted(BubbleSort(w)) && multiset(BubbleSort(w)) == multiset(w)
  {
    PassesSettle(w, |w|);
  }

  /** Sorts the window of n elements from `start` on; the rest of the array is not touched. */
  method SortWindow(a: array<Word>, start: nat, n: nat)
    requires start + n <= a.Length
    modifies a
    ensures a[start..start + n] == BubbleSort(old(a[start..start + n]))
    ensures a[..start] == old(a[..start]) && a[start + n..] == old(a[start + n..])
    ensures Sorted(a[start..start + n]) && multiset(a[start..start + n]) == multiset(old(a[start..start + n]))
  {
    ghost var w := a[start..start + n];
    for i := 0 to n
      invariant a[start..start + n] == Passes(w, i)
      invariant a[..start] == old(a[..start]) && a[start + n..] == old(a[start + n..])
    {
      for j := 1 to n
        invariant a[start..start + n] == Sweep(Passes(w, i), j)
        invariant a[..start] == old(a[..start]) && a[start + n..] == old(a[start + n..])
      {
        CompareStep(a, start, n, j);
      }
    }
    BubbleSortSorts(w);
  }

  /** The body of the inner loop. */
  method CompareStep(a: array<Word>, start: nat, n: nat, j: nat)
    requires start + n <= a.Length && 0 < j < n
    modifies a
    ensures a[start..start + n] == Exchange(old(a[start..start + n]), j)
    ensures a[..start] == old(a[..start]) && a[start + n..] == old(a[start + n..])
  {
    ghost var w := a[start..start + n];
    assert w[j - 1] == a[start + j - 1] && w[j] == a[start + j];
    if a[start + j - 1] > a[start + j] {
      var temp := a[start + j - 1];
      a[start + j - 1] := a[start + j];
      a[start + j] := temp;
      assert a[start..start + n] == w[j - 1 := w[j]][j := w[j - 1]];
    }
  }
}
