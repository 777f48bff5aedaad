/** The multi-way merge of K sorted windows. */
module Merging {
  import opened Types
  import opened Shares
  import opened Sorting

  type Windows = seq<seq<Word>>

  /** Window i still has elements that were not emitted. */
  predicate Live(ws: Windows, iter: seq<nat>, i: nat)
    requires |iter| == |ws| && i < |ws|
  {
    iter[i] < |ws[i]|
  }

  function Head(ws: Windows, iter: seq<nat>, i: nat): Word
    requires |iter| == |ws| && i < |ws| && Live(ws, iter, i)
  {
    ws[i][iter[i]]
  }

  /** What the first n windows have given so far. */
  function Taken(ws: Windows, iter: seq<nat>, n: nat): multiset<Word>
    requires |iter| == |ws| && n <= |ws| && forall i | 0 <= i < |ws| :: iter[i] <= |ws[i]|
  {
    if n == 0 then multiset{} else Taken(ws, iter, n - 1) + multiset(ws[n - 1][..iter[n - 1]])
  }

  /** x is at most every element still to be emitted. */
  predicate Below(x: Word, ws: Windows, iter: seq<nat>)
    requires |iter| == |ws|
  {
    forall i | 0 <= i < |ws| && Live(ws, iter, i) :: x <= Head(ws, iter, i)
  }

  predicate MergeInv(ws: Windows, iter: seq<nat>, out: seq<Word>) {
    && |iter| == |ws|
    && (forall i | 0 <= i < |ws| :: Sorted(ws[i]) && iter[i] <= |ws[i]|)
    && Sorted(out) && multiset(out) == Taken(ws, iter, |ws|)
    && (forall a | 0 <= a < |out| :: Below(out[a], ws, iter))
  }

  /** The search for the smallest head has seen the first n windows; `idx` holds it once one was live. */
  predicate ScanOk(ws: Windows, iter: seq<nat>, n: nat, min: Word, idx: Option<nat>)
    requires |iter| == |ws| && n <= |ws|
  {
    match idx
    case None => min == WORD_LIMIT - 1 && forall i | 0 <= i < n :: !Live(ws, iter, i)
    case Some(k) =>
      k < n && Live(ws, iter, k) && min == Head(ws, iter, k) &&
      forall i | 0 <= i < n && Live(ws, iter, i) :: min <= Head(ws, iter, i)
  }

  /** One turn of the search; thanks to `<=` it finds an index even among largest words. */
  function Better(elem: Word, i: nat, min: Word, idx: Option<nat>): (r: (Word, Option<nat>)) {
    if elem <= min then (elem, Some(i)) else (min, idx)
  }

  lemma ScanLive(ws: Windows, iter: seq<nat>, n: nat, min: Word, idx: Option<nat>)
    requires |iter| == |ws| && n < |ws| && ScanOk(ws, iter, n, min, idx) && Live(ws, iter, n)
    ensures var r := Better(Head(ws, iter, n), n, min, idx); ScanOk(ws, iter, n + 1, r.0, r.1)
  {
  }

  lemma ScanDead(ws: Windows, iter: seq<nat>, n: nat, min: Word, idx: Option<nat>)
    requires |iter| == |ws| && n < |ws| && ScanOk(ws, iter, n, min, idx) && !Live(ws, iter, n)
    ensures ScanOk(ws, iter, n + 1, min, idx)
  {
  }

  lemma SomethingFound(ws: Windows, iter: seq<nat>, per: nat, min: Word, idx: Option<nat>)
    requires |iter| == |ws| && ScanOk(ws, iter, |ws|, min, idx)
    requires (forall i | 0 <= i < |ws| :: iter[i] <= |ws[i]| == per) && exists i | 0 <= i < |ws| :: iter[i] != per
    ensures idx.Some?
  {
    var i :| 0 <= i < |ws| && iter[i] != per;
    assert Live(ws, iter, i);
  }

  lemma PrefixGrows(w: seq<Word>, a: nat)
    requires a < |w|
    ensures multiset(w[..a + 1]) == multiset(w[..a]) + multiset{w[a]}
  {
    assert w[..a + 1] == w[..a] + [w[a]];
  }

  lemma TakenStep(ws: Windows, iter: seq<nat>, n: nat)
    requires |iter| == |ws| && 0 < n <= |ws| && forall i | 0 <= i < |ws| :: iter[i] <= |ws[i]|
    ensures Taken(ws, iter, n) == Taken(ws, iter, n - 1) + multiset(ws[n - 1][..iter[n - 1]])
  {
  }

  lemma Regroup(a: multiset<Word>, b: multiset<Word>, c: multiset<Word>)
    ensures a + (b + c) == a + b + c && a + c + b == a + b + c
  {
  }

  lemma {:induction false} TakenOneMore(ws: Windows, iter: seq<nat>, k: nat, n: nat)
    requires |iter| == |ws| && n <= |ws| && forall i | 0 <= i < |ws| :: iter[i] <= |ws[i]|
    requires k < |ws| && Live(ws, iter, k)
    ensures k >= n ==> Taken(ws, iter[k := iter[k] + 1], n) == Taken(ws, iter, n)
    ensures k < n ==> Taken(ws, iter[k := iter[k] + 1], n) == Taken(ws, iter, n) + multiset{Head(ws, iter, k)}
    decreases n
  {
    if n > 0 {
      hide Taken;
      var iter', head := iter[k := iter[k] + 1], multiset{Head(ws, iter, k)};
      TakenOneMore(ws, iter, k, n - 1);
      TakenStep(ws, iter, n);
      TakenStep(ws, iter', n);
      var before, last := Taken(ws, iter, n - 1), multiset(ws[n - 1][..iter[n - 1]]);
      if k == n - 1 { PrefixGrows(ws[k], iter[k]); }
      if k < n { Regroup(before, last, head); }
    }
  }

  lemma BelowNext(x: Word, ws: Windows, iter: seq<nat>, k: nat)
    requires |iter| == |ws| && k < |ws| && Sorted(ws[k]) && Live(ws, iter, k) && Below(x, ws, iter)
    ensures Below(x, ws, iter[k := iter[k] + 1])
  {
    var iter' := iter[k := iter[k] + 1];
    forall i | 0 <= i < |ws| && Live(ws, iter', i) ensures x <= Head(ws, iter', i) {
      assert Live(ws, iter, i) && x <= Head(ws, iter, i) <= Head(ws, iter', i);
    }
  }

  /** Emitting the smallest head keeps the output sorted and complete. */
  lemma EmitKeeps(ws: Windows, iter: seq<nat>, out: seq<Word>, min: Word, k: nat)
    requires MergeInv(ws, iter, out) && ScanOk(ws, iter, |ws|, min, Some(k))
    ensures MergeInv(ws, iter[k := iter[k] + 1], out + [min])
  {
    var iter', out' := iter[k := iter[k] + 1], out + [min];
    TakenOneMore(ws, iter, k, |ws|);
    assert Below(min, ws, iter);
    forall a | 0 <= a < |out'| ensures Below(out'[a], ws, iter') && out'[a] <= min {
      assert Below(out'[a], ws, iter);
      BelowNext(out'[a], ws, iter, k);
    }
  }

  // ---------- windows of one array ----------

  function Window(data: seq<Word>, per: nat, i: nat): (w: seq<Word>)
    requires StartOf(per, i) + per <= |data|
    ensures |w| == per
  {
    data[StartOf(per, i)..StartOf(per, i) + per]
  }

  function AllWindows(data: seq<Word>, per: nat, k: nat): (ws: Windows)
    requires StartOf(per, k) <= |data|
    ensures |ws| == k && forall i | 0 <= i < k :: StartOf(per, i) + per <= |data| && ws[i] == Window(data, per, i)
  {
    if k == 0 then [] else
      StartSteps(per, k - 1, k);
      AllWindows(data, per, k - 1) + [Window(data, per, k - 1)]
  }

  lemma PrefixSplits(data: seq<Word>, a: nat, b: nat)
    requires a <= b <= |data|
    ensures multiset(data[..b]) == multiset(data[..a]) + multiset(data[a..b])
  {
    assert data[..b] == data[..a] + data[a..b];
  }

  lemma TakenWindow(data: seq<Word>, per: nat, k: nat, n: nat, iter: seq<nat>)
    requires StartOf(per, k) <= |data| && 0 < n <= k == |iter| && forall i | 0 <= i < k :: iter[i] == per
    requires StartOf(per, n - 1) + per == StartOf(per, n) <= |data|
    ensures var ws := AllWindows(data, per, k);
            Taken(ws, iter, n) == Taken(ws, iter, n - 1) + multiset(data[StartOf(per, n - 1)..StartOf(per, n)])
  {
    hide Taken, AllWindows, StartOf;
    var ws := AllWindows(data, per, k);
    TakenStep(ws, iter, n);
    assert ws[n - 1][..per] == ws[n - 1];
  }

  lemma {:induction false} TakenAll(data: seq<Word>, per: nat, k: nat, n: nat, iter: seq<nat>)
    requires StartOf(per, k) <= |data| && n <= k == |iter| && forall i | 0 <= i < k :: iter[i] == per
    ensures StartOf(per, n) <= |data|
    ensures Taken(AllWindows(data, per, k), iter, n) == multiset(data[..StartOf(per, n)])
    decreases n
  {
    if n > 0 {
      hide Taken, AllWindows, StartOf;
      TakenAll(data, per, k, n - 1, iter);
      StartSteps(per, n - 1, k);
      TakenWindow(data, per, k, n, iter);
      PrefixSplits(data, StartOf(per, n - 1), StartOf(per, n));
    } else {
      assert data[..0] == [];
    }
  }

  lemma {:induction false} TakenNone(ws: Windows, iter: seq<nat>, n: nat)
    requires |iter| == |ws| && n <= |ws| && forall i | 0 <= i < |ws| :: iter[i] == 0
    ensures Taken(ws, iter, n) == multiset{}
  {
    if n > 0 { TakenNone(ws, iter, n - 1); }
  }

  /** The elements that are not emitted yet. */
  function Left(iter: seq<nat>, per: nat): nat
    requires forall i | 0 <= i < |iter| :: iter[i] <= per
  {
    if iter == [] then 0 else (per - iter[0]) + Left(iter[1..], per)
  }

  lemma {:induction false} LeftShrinks(iter: seq<nat>, per: nat, k: nat)
    requires (forall i | 0 <= i < |iter| :: iter[i] <= per) && k < |iter| && iter[k] < per
    ensures Left(iter[k := iter[k] + 1], per) == Left(iter, per) - 1
    decreases k
  {
    var iter' := iter[k := iter[k] + 1];
    if k == 0 {
      assert iter'[1..] == iter[1..];
    } else {
      LeftShrinks(iter[1..], per, k - 1);
      assert iter'[1..] == iter[1..][k - 1 := iter[k] + 1];
    }
  }

  /** Whether every window has been emitted. */
  method AllDone(iter: array<nat>, per: nat) returns (done: bool)
    ensures done <==> forall i | 0 <= i < iter.Length :: iter[i] == per
  {
    for i := 0 to iter.Length
      invariant forall j | 0 <= j < i :: iter[j] == per
    {
      if iter[i] != per {
        return false;
      }
    }
    return true;
  }

  /** The smallest head among the live windows, and where it is. */
  method SmallestHead(data: array<Word>, iter: array<nat>, per: nat, k: nat) returns (min: Word, idx: nat)
    requires iter.Length == k && StartOf(per, k) <= data.Length
    requires (forall i | 0 <= i < k :: iter[i] <= per) && exists i | 0 <= i < k :: iter[i] != per
    ensures ScanOk(AllWindows(data[..], per, k), iter[..], k, min, Some(idx))
  {
    ghost var ws, it := AllWindows(data[..], per, k), iter[..];
    assert exists i | 0 <= i < k :: it[i] != per;
    var found: Option<nat> := None;
    min := WORD_LIMIT - 1;
    for i := 0 to k
      invariant ScanOk(ws, it, i, min, found)
    {
      assert ws[i] == Window(data[..], per, i);
      if iter[i] != per {
        StartSteps(per, i, k);
        var elem := data[StartOf(per, i) + iter[i]];
        assert elem == Head(ws, it, i);
        ScanLive(ws, it, i, min, found);
        if elem <= min {
          found, min := Some(i), elem;
        }
      } else {
        ScanDead(ws, it, i, min, found);
      }
    }
    SomethingFound(ws, it, per, min, found);
    idx := found.value;
  }

  /** Moves on in one window. */
  method NextIter(iter: array<nat>, node: nat, elems: nat)
    requires node < iter.Length
    modifies iter
    ensures iter[..] == old(iter[..])[node := old(iter[node]) + if old(iter[node]) < elems then 1 else 0]
  {
    if iter[node] < elems {
      iter[node] := iter[node] + 1;
    }
  }

  predicate Underway(data: seq<Word>, per: nat, k: nat, iter: seq<nat>, out: seq<Word>) {
    && StartOf(per, k) <= |data| && |iter| == k
    && (forall i | 0 <= i < k :: iter[i] <= per)
    && MergeInv(AllWindows(data, per, k), iter, out)
  }

  lemma Begins(data: seq<Word>, per: nat, k: nat, iter: seq<nat>)
    requires StartOf(per, k) <= |data| && |iter| == k && forall i | 0 <= i < k :: iter[i] == 0
    requires forall i | 0 <= i < k :: Sorted(AllWindows(data, per, k)[i])
    ensures Underway(data, per, k, iter, [])
  {
    TakenNone(AllWindows(data, per, k), iter, k);
  }

  lemma Emits(data: seq<Word>, per: nat, k: nat, iter: seq<nat>, out: seq<Word>, min: Word, idx: nat)
    requires Underway(data, per, k, iter, out)
    requires ScanOk(AllWindows(data, per, k), iter, k, min, Some(idx))
    ensures idx < k && iter[idx] < per <= |data| && Underway(data, per, k, iter[idx := iter[idx] + 1], out + [min])
    ensures Left(iter[idx := iter[idx] + 1], per) == Left(iter, per) - 1
  {
    var ws := AllWindows(data, per, k);
    assert Live(ws, iter, idx) && |ws[idx]| == per;
    StartSteps(per, idx, k);
    EmitKeeps(ws, iter, out, min, idx);
    LeftShrinks(iter, per, idx);
  }

  lemma Ends(data: seq<Word>, per: nat, k: nat, iter: seq<nat>, out: seq<Word>)
    requires Underway(data, per, k, iter, out) && forall i | 0 <= i < k :: iter[i] == per
    ensures Sorted(out) && multiset(out) == multiset(data[..StartOf(per, k)])
  {
    TakenAll(data, per, k, k, iter);
  }

  /** One turn of the merge: finds the smallest head, moves past it and emits it. */
  method EmitOne(data: array<Word>, per: nat, k: nat, elems: nat, iter: array<nat>, out: seq<Word>)
    returns (out': seq<Word>)
    requires iter.Length == k && elems == data.Length && Underway(data[..], per, k, iter[..], out)
    requires exists i | 0 <= i < k :: iter[i] != per
    modifies iter
    ensures data[..] == old(data[..]) && Underway(data[..], per, k, iter[..], out')
    ensures Left(iter[..], per) < Left(old(iter[..]), per)
  {
    assert forall i | 0 <= i < k :: iter[i] == iter[..][i];
    var min, idx := SmallestHead(data, iter, per, k);
    Emits(data[..], per, k, iter[..], out, min, idx);
    out' := out + [min];
    NextIter(iter, idx, elems);
  }

  method MergeLoop(data: array<Word>, per: nat, k: nat, elems: nat) returns (out: seq<Word>)
    requires StartOf(per, k) <= data.Length == elems
    requires forall i | 0 <= i < k :: Sorted(AllWindows(data[..], per, k)[i])
    ensures Sorted(out) && multiset(out) == multiset(data[..][..StartOf(per, k)])
  {
    var iter := new nat[k](_ => 0);
    out := [];
    Begins(data[..], per, k, iter[..]);
    var done := AllDone(iter, per);
    while !done
      invariant Underway(data[..], per, k, iter[..], out)
      invariant done <==> forall i | 0 <= i < k :: iter[i] == per
      decreases Left(iter[..], per)
    {
      out := EmitOne(data, per, k, elems, iter, out);
      done := AllDone(iter, per);
    }
    assert forall i | 0 <= i < k :: iter[..][i] == per;
    Ends(data[..], per, k, iter[..], out);
  }

  function WindowsOf(data: seq<Word>, k: nat): (ws: Windows)
    requires 0 < k
  {
    SharesFit(|data|, k);
    AllWindows(data, Share(|data|, k), k)
  }

  /** Emits the elements of K sorted windows in order; what lies behind the last window is not read. */
  method MergeWindows(data: array<Word>, k: nat) returns (out: seq<Word>)
    requires 0 < k && forall w | w in WindowsOf(data[..], k) :: Sorted(w)
    ensures StartOf(Share(data.Length, k), k) <= data.Length
    ensures Sorted(out) && multiset(out) == multiset(data[..StartOf(Share(data.Length, k), k)])
  {
    var per := data.Length / k;
    ShareIsQuotient(data.Length, k);
    SharesFit(data.Length, k);
    ghost var ws := WindowsOf(data[..], k);
    assert forall i | 0 <= i < k :: ws[i] in ws;
    out := MergeLoop(data, per, k, data.Length);
    assert data[..][..StartOf(per, k)] == data[..StartOf(per, k)];
  }
}
