/** The few facts about products and division that the solver does not find reliably by itself. */
module Arithmetic {
  lemma {:induction false} MultiplyKeepsOrder(a: int, b: int, k: nat)
    requires a <= b
    ensures a * k <= b * k
    decreases k
  {
    if k > 0 {
      MultiplyKeepsOrder(a, b, k - 1);
      assert a * k == a * (k - 1) + a && b * k == b * (k - 1) + b;
    }
  }

  lemma {:induction false} StrictProduct(a: int, b: int, k: nat)
    requires a < b && k > 0
    ensures a * k < b * k
  {
    MultiplyKeepsOrder(a + 1, b, k);
    assert (a + 1) * k == a * k + k;
  }

  lemma {:induction false} CancelProduct(a: int, b: int, k: nat)
    requires a * k < b * k
    ensures a < b
  {
    if b <= a {
      MultiplyKeepsOrder(b, a, k);
    }
  }

  lemma {:induction false} PositiveProduct(a: nat, b: nat)
    requires a > 0 && b > 0
    ensures a * b > 0
  {
    StrictProduct(0, a, b);
  }

  lemma {:induction false} ProductIsNatural(a: int, n: nat)
    requires a >= 0
    ensures a * n >= 0
  {
    MultiplyKeepsOrder(0, a, n);
  }

  lemma {:induction false} SignOfProduct(n: int, d: nat)
    requires d > 0
    ensures n < 0 <==> n * d < 0
  {
    if n >= 0 {
      MultiplyKeepsOrder(0, n, d);
    } else {
      StrictProduct(n, 0, d);
    }
  }

  lemma {:induction false} DivisionIsUnique(n: int, d: nat, q: int, r: int)
    requires d > 0 && n == q * d + r && 0 <= r < d
    ensures n / d == q && n % d == r
  {
    var q', r' := n / d, n % d;
    assert n == q' * d + r';
    assert (q' + 1) * d == q' * d + d && (q + 1) * d == q * d + d;
    if q' < q {
      MultiplyKeepsOrder(q' + 1, q, d);
    } else if q < q' {
      MultiplyKeepsOrder(q + 1, q', d);
    }
  }

  function Quotient(n: nat, d: nat): (q: nat)
    requires d > 0
    ensures n == q * d + n % d
  {
    n / d
  }

  lemma {:induction false} MultipleIsDivisible(k: int, d: nat)
    requires d > 0
    ensures (k * d) % d == 0
  {
    DivisionIsUnique(k * d, d, k, 0);
  }

  lemma {:induction false} DivisibleIsMultiple(n: int, d: nat) returns (k: int)
    requires d > 0 && n % d == 0
    ensures n == k * d
  {
    k := n / d;
  }

  /** Counting multiples of `k`: the count below `n + 1` exceeds that below `n` when `k` divides `n`. */
  lemma {:induction false} MultiplesBelow(n: nat, k: nat)
    requires k > 0
    ensures (n + k) / k - (n + k - 1) / k == if n % k == 0 then 1 else 0
  {
    var q, r := n / k, n % k;
    assert n == q * k + r && (q + 1) * k == q * k + k;
    DivisionIsUnique(n + k, k, q + 1, r);
    if r == 0 {
      DivisionIsUnique(n + k - 1, k, q, k - 1);
    } else {
      DivisionIsUnique(n + k - 1, k, q + 1, r - 1);
    }
  }

  lemma {:induction false} MultipleOfMultiple(n: nat, k: nat, j: nat)
    requires k > 0 && j > 0 && n % (j * k) == 0 && j * k > 0
    ensures n % k == 0
  {
    var i := DivisibleIsMultiple(n, j * k);
    assert i * (j * k) == (i * j) * k;
    MultipleIsDivisible(i * j, k);
  }

  lemma {:induction false} ProductOfProducts(a: int, b: int, c: int, d: int)
    ensures (a * b) * (c * d) == (a * c) * (b * d)
  {
    var x := c * d;
    assert (a * b) * x == a * (b * x);
    assert b * (c * d) == c * (b * d);
    var y := b * d;
    assert a * (c * y) == (a * c) * y;
  }
}
