/** The few facts about division and products of variables that the layout, the rings and the
    planner share. */
module Arith {

  lemma MulAtLeast(a: nat, b: nat, n: nat)
    requires a <= b
    ensures a * n <= b * n
  {
    assert b * n == a * n + (b - a) * n;
  }

  lemma NextMultiple(a: nat, b: nat, n: nat)
    requires a < b
    ensures a * n + n <= b * n
  {
    MulAtLeast(a + 1, b, n);
    assert (a + 1) * n == a * n + n;
  }

  lemma DivModUnique(n: nat, q1: nat, r1: nat, q2: nat, r2: nat)
    requires r1 < n && r2 < n && q1 * n + r1 == q2 * n + r2
    ensures q1 == q2 && r1 == r2
  {
    if q1 < q2 {
      NextMultiple(q1, q2, n);
    } else if q2 < q1 {
      NextMultiple(q2, q1, n);
    }
  }

  lemma DivModDef(x: nat, n: nat)
    requires n > 0
    ensures x == (x / n) * n + x % n && x % n < n
  {
  }

  lemma DivModIs(x: nat, n: nat, q: nat, r: nat)
    requires r < n && x == q * n + r
    ensures x / n == q && x % n == r
  {
    DivModDef(x, n);
    DivModUnique(n, x / n, x % n, q, r);
  }

  lemma SameResidue(a: nat, b: nat, n: nat)
    requires n > 0 && a <= b < a + n && a % n == b % n
    ensures a == b
  {
    DivModDef(a, n);
    DivModDef(b, n);
    if a / n < b / n {
      NextMultiple(a / n, b / n, n);
    } else if b / n < a / n {
      NextMultiple(b / n, a / n, n);
    }
  }

  lemma AddWhole(x: nat, n: nat)
    requires n > 0
    ensures (x + n) % n == x % n && (x + n) / n == x / n + 1
  {
    DivModDef(x, n);
    assert (x / n + 1) * n == (x / n) * n + n;
    DivModIs(x + n, n, x / n + 1, x % n);
  }

  /** Rounding up: the least quotient whose multiple covers `x`. */
  function DivUp(x: nat, n: nat): (q: nat)
    requires n > 0
  {
    (x + n - 1) / n
  }

  lemma DivUpIs(x: nat, n: nat)
    requires n > 0
    ensures DivUp(x, n) * n >= x
    ensures x > 0 ==> DivUp(x, n) > 0 && (DivUp(x, n) - 1) * n < x
    ensures x == 0 ==> DivUp(x, n) == 0
  {
    DivModDef(x + n - 1, n);
    var q := DivUp(x, n);
    if x == 0 {
      DivModIs(n - 1, n, 0, n - 1);
    } else {
      assert q == 0 ==> q * n == 0;
      assert (q - 1) * n == q * n - n;
    }
  }
}
