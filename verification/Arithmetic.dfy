/** Quotients and remainders. */
module Arithmetic {

  lemma DivModUnique(x: nat, q: nat, r: nat, p: nat)
    requires p > 0 && x == q * p + r && r < p
    ensures x / p == q && x % p == r
  {
    var a, b := x / p, x % p;
    assert x == a * p + b;
    if a > q {
      Multiple(a, q, p);
    } else if a < q {
      Multiple(q, a, p);
    }
  }

  lemma Multiple(a: nat, q: nat, p: nat)
    requires a > q
    ensures a * p >= q * p + p
  {
    assert a * p == q * p + (a - q) * p;
    assert (a - q) * p >= p by {
      var k := a - q - 1;
      assert (k + 1) * p == k * p + p;
    }
  }

  /** Dividing twice is dividing by the product. */
  lemma DivideTwice(x: nat, a: nat, b: nat)
    requires a > 0 && b > 0
    ensures a * b > 0 && x / a / b == x / (a * b)
  {
    var q, r, t := x / a / b, x / a % b, x % a;
    Divided(x, a);
    Divided(x / a, b);
    Regroup(q, b, r, a, t);
    TwoDigits(r, b, t, a);
    DivModUnique(x, q, r * a + t, a * b);
  }

  lemma Divided(x: nat, a: nat)
    requires a > 0
    ensures x == x / a * a + x % a && 0 <= x % a < a
  {
  }

  lemma Regroup(q: nat, b: nat, r: nat, a: nat, t: nat)
    ensures (q * b + r) * a + t == q * (a * b) + (r * a + t)
  {
  }

  lemma TwoDigits(r: nat, b: nat, t: nat, a: nat)
    requires r < b && t < a
    ensures r * a + t < a * b
  {
    Multiple(b, r, a);
  }

  lemma RemainderOf(k: nat, r: nat, m: nat)
    requires m > 0
    ensures (k * m + r) % m == r % m
  {
    assert k * m + r == (k + r / m) * m + r % m;
    DivModUnique(k * m + r, k + r / m, r % m, m);
  }

  /** A factor can be reduced before multiplying. */
  lemma ReduceFactor(a: nat, b: nat, m: nat)
    requires m > 0
    ensures (a % m) * b % m == a * b % m
  {
    var q, r := a / m, a % m;
    assert a * b == (q * b) * m + r * b;
    RemainderOf(q * b, r * b, m);
  }
}
