/** Quotients, where the solver needs help with them. */
module Division {
  lemma {:induction false} AtLeastOnce(d: nat, k: nat)
    requires 0 < d
    ensures d * k >= k
  {
    if d > 1 {
      AtLeastOnce(d - 1, k);
    }
  }

  /** No other multiple of k lies strictly between -k and k. */
  lemma OnlyZero(d: int, k: nat)
    requires 0 < d * k + k && d * k < k
    ensures d == 0
  {
    assert (-d) * k + d * k == 0;
    if d > 0 {
      AtLeastOnce(d, k);
    } else if d < 0 {
      AtLeastOnce(-d, k);
    }
  }

  lemma QuotientIs(n: nat, d: nat, q: nat, rest: nat)
    requires n == q * d + rest && rest < d
    ensures n / d == q
  {
    var e := n / d - q;
    assert e * d == rest - n % d;
    OnlyZero(e, d);
  }

  lemma RestIsSmall(d: nat, p: nat, r: nat, c: nat)
    requires c < d && r < p
    ensures d * r + c < d * p
  {
    assert d * r + d == d * (r + 1) <= d * p;
  }

  /** Dividing by d and then by p is dividing by d * p. */
  lemma DivideTwice(n: nat, d: nat, p: nat)
    requires d > 0 && p > 0
    ensures d * p > 0 && n / d / p == n / (d * p)
  {
    var q, r, c := n / d / p, (n / d) % p, n % d;
    assert n == d * (n / d) + c && n / d == p * q + r;
    RestIsSmall(d, p, r, c);
    assert d * (p * q + r) == q * (d * p) + d * r;
    QuotientIs(n, d * p, q, d * r + c);
  }
}
