/** Powers of two, the bits of a number, and the bitwise operators as functions on numbers. */
module Bits {

  import opened Arithmetic

  function Pow(b: nat, e: nat): (r: nat) {
    if e == 0 then 1 else b * Pow(b, e - 1)
  }

  predicate Bit(x: nat, j: nat) {
    if j == 0 then x % 2 == 1 else Bit(x / 2, j - 1)
  }

  /** `&`, digit by digit. */
  function And(a: nat, b: nat): nat {
    if a == 0 || b == 0 then 0
    else 2 * And(a / 2, b / 2) + if a % 2 == 1 && b % 2 == 1 then 1 else 0
  }

  /** `|`, digit by digit. */
  function Or(a: nat, b: nat): nat
    decreases a + b
  {
    if a == 0 then b else if b == 0 then a
    else 2 * Or(a / 2, b / 2) + if a % 2 == 1 || b % 2 == 1 then 1 else 0
  }

  lemma {:induction false} NoBits(j: nat)
    ensures !Bit(0, j)
  {
    if j > 0 {
      NoBits(j - 1);
    }
  }

  lemma {:induction false} PowerBit(j: nat, k: nat)
    ensures Pow(2, j) > 0 && (Bit(Pow(2, j), k) <==> j == k)
  {
    if j == 0 {
      if k > 0 {
        NoBits(k - 1);
      }
    } else {
      assert Pow(2, j) / 2 == Pow(2, j - 1);
      PowerBit(j - 1, if k > 0 then k - 1 else 0);
    }
  }

  /** Masking with a power of two asks for one bit. */
  lemma {:induction false} AndPower(j: nat, x: nat)
    ensures And(Pow(2, j), x) != 0 <==> Bit(x, j)
  {
    PowerBit(j, j);
    if x == 0 {
      NoBits(j);
    } else if j > 0 {
      assert Pow(2, j) / 2 == Pow(2, j - 1) && Pow(2, j) % 2 == 0;
      AndPower(j - 1, x / 2);
    }
  }

  lemma {:induction false} OrBits(a: nat, b: nat, j: nat)
    ensures Bit(Or(a, b), j) <==> Bit(a, j) || Bit(b, j)
    decreases j
  {
    if a == 0 || b == 0 {
      NoBits(j);
    } else {
      var o := Or(a, b);
      assert o / 2 == Or(a / 2, b / 2);
      if j > 0 {
        OrBits(a / 2, b / 2, j - 1);
      }
    }
  }

  lemma {:induction false} OrBelow(a: nat, b: nat, n: nat)
    requires a < Pow(2, n) && b < Pow(2, n)
    ensures Or(a, b) < Pow(2, n)
    decreases n
  {
    if a != 0 && b != 0 && n > 0 {
      OrBelow(a / 2, b / 2, n - 1);
    }
  }

  /** A number below 2^n is its first n bits. */
  lemma {:induction false} BitsDetermine(a: nat, b: nat, n: nat)
    requires a < Pow(2, n) && b < Pow(2, n)
    requires forall j: nat :: j < n ==> (Bit(a, j) <==> Bit(b, j))
    ensures a == b
  {
    if n > 0 {
      forall j: nat | j < n - 1
        ensures Bit(a / 2, j) <==> Bit(b / 2, j)
      {
        assert Bit(a, j + 1) <==> Bit(b, j + 1);
      }
      BitsDetermine(a / 2, b / 2, n - 1);
      assert Bit(a, 0) <==> Bit(b, 0);
    }
  }

  lemma {:induction false} PowersGrow(i: nat, j: nat)
    ensures 0 < Pow(2, i)
    ensures i < j ==> Pow(2, i) < Pow(2, j)
    decreases i + j
  {
    if i > 0 {
      PowersGrow(i - 1, if j > 0 then j - 1 else 0);
    } else if j > 0 {
      PowersGrow(0, j - 1);
      assert Pow(2, j) == 2 * Pow(2, j - 1);
      if j > 1 {
        assert Pow(2, j - 1) > Pow(2, 0);
      }
    }
  }

  lemma {:induction false} PowersMultiply(i: nat, j: nat)
    ensures Pow(2, i + j) == Pow(2, i) * Pow(2, j)
  {
    if i > 0 {
      PowersMultiply(i - 1, j);
    }
  }

  lemma {:induction false} AndAtMost(a: nat, b: nat)
    ensures And(a, b) <= a && And(a, b) <= b
    decreases a
  {
    if a != 0 && b != 0 {
      AndAtMost(a / 2, b / 2);
    }
  }

  /** The digits x below the digits of a, which start at digit k. */
  function Joined(k: nat, x: nat, a: nat): (r: nat)
    ensures k == 0 ==> r == x + a
    ensures k > 0 && x < Pow(2, k) ==> r / 2 == Joined(k - 1, x / 2, a) && r % 2 == x % 2
    ensures r == x + Pow(2, k) * a
  {
    if k == 0 then x + a
    else
      Twice(Pow(2, k - 1), a);
      2 * Joined(k - 1, x / 2, a) + x % 2
  }

  lemma Twice(p: nat, a: nat)
    ensures (2 * p) * a == 2 * (p * a)
  {
  }

  /** The low k digits and the others are combined separately. */
  lemma {:induction false} AndSplits(k: nat, x: nat, y: nat, a: nat, b: nat)
    requires x < Pow(2, k) && y < Pow(2, k)
    ensures And(x, y) < Pow(2, k)
    ensures And(Joined(k, x, a), Joined(k, y, b)) == Joined(k, And(x, y), And(a, b))
  {
    AndAtMost(x, y);
    if k == 0 {
      assert x == 0 && y == 0;
    } else {
      assert x / 2 < Pow(2, k - 1) && y / 2 < Pow(2, k - 1);
      AndSplits(k - 1, x / 2, y / 2, a, b);
      hide And, Pow, Joined;
      AndDigit(x, y);
      AndDigit(Joined(k, x, a), Joined(k, y, b));
    }
  }

  lemma AndDigit(a: nat, b: nat)
    ensures And(a, b) == 2 * And(a / 2, b / 2) + if a % 2 == 1 && b % 2 == 1 then 1 else 0
  {
  }

  lemma {:induction false} AndOnes(x: nat, w: nat)
    requires x < Pow(2, w)
    ensures And(x, Pow(2, w) - 1) == x
  {
    if w > 0 {
      AndOnes(x / 2, w - 1);
      AndDigit(x, Pow(2, w) - 1);
    }
  }

  /** Masking with a run of ones from digit j up rounds down to a multiple of 2^j. */
  lemma {:induction false} AndRounds(x: nat, w: nat, j: nat)
    requires j <= w && x < Pow(2, w)
    ensures Pow(2, j) > 0 && Pow(2, j) <= Pow(2, w)
    ensures And(x, Pow(2, w) - Pow(2, j)) == x / Pow(2, j) * Pow(2, j)
  {
    if j == 0 {
      AndOnes(x, w);
    } else {
      var p := Pow(2, j - 1);
      AndRounds(x / 2, w - 1, j - 1);
      AndDigit(x, Pow(2, w) - Pow(2, j));
      HalfRounds(x, p);
      hide And;
    }
  }

  lemma HalfRounds(x: nat, p: nat)
    requires p > 0
    ensures x / (2 * p) * (2 * p) == 2 * (x / 2 / p * p)
  {
    var q, r := x / 2 / p, x / 2 % p;
    assert x / 2 == q * p + r;
    assert q * (2 * p) == 2 * (q * p);
    DivModUnique(x, q, 2 * r + x % 2, 2 * p);
  }
}
