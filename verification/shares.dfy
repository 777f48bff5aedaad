/** How K workers share a number of elements: equal windows from the front, and a tail nobody owns. */
module Shares {
  import opened Division

  /**
   * The size of one window, n / k. It is counted by repeated subtraction, and starts by repeated
   * addition, so that proofs about windows need no division or multiplication.
   */
  function Share(n: nat, k: nat): nat
    requires 0 < k
    decreases n
  {
    if n < k then 0 else Share(n - k, k) + 1
  }

  /** Where the window of worker i starts, per * i. */
  function StartOf(per: nat, i: nat): nat {
    if i == 0 then 0 else StartOf(per, i - 1) + per
  }

  lemma {:induction false} ShareIsQuotient(n: nat, k: nat)
    requires 0 < k
    ensures Share(n, k) == n / k
    decreases n
  {
    if n >= k {
      ShareIsQuotient(n - k, k);
      QuotientSteps(n, k);
    }
  }

  lemma QuotientSteps(n: nat, k: nat)
    requires 0 < k <= n
    ensures n / k == (n - k) / k + 1
  {
    var d := n / k - ((n - k) / k + 1);
    assert d * k == (n - k) % k - n % k;
    OnlyZero(d, k);
  }

  lemma {:induction false} StartIsProduct(per: nat, i: nat)
    ensures StartOf(per, i) == per * i
  {
    if i > 0 {
      StartIsProduct(per, i - 1);
      assert per * i == per * (i - 1) + per;
    }
  }

  lemma {:induction false} StartSteps(per: nat, i: nat, k: nat)
    requires i < k
    ensures StartOf(per, i) + per == StartOf(per, i + 1) <= StartOf(per, k)
    decreases k
  {
    if i + 1 < k {
      StartSteps(per, i, k - 1);
    }
  }

  /** The windows cover everything but the remainder. */
  lemma SharesFit(n: nat, k: nat)
    requires 0 < k
    ensures StartOf(Share(n, k), k) == n - n % k
  {
    ShareIsQuotient(n, k);
    StartIsProduct(n / k, k);
  }

  lemma WindowInside(n: nat, k: nat, i: nat)
    requires i < k
    ensures StartOf(Share(n, k), i) + Share(n, k) == StartOf(Share(n, k), i + 1) <= StartOf(Share(n, k), k) <= n
  {
    SharesFit(n, k);
    StartSteps(Share(n, k), i, k);
  }
}
