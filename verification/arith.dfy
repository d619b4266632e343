/** Facts about multiplication, floor division and remainder of natural
    numbers that the solver does not find on its own. */
module Arith {

  lemma MulMonotone(x: nat, y: nat, s: nat)
    requires x <= y
    ensures x * s <= y * s
  {
    var d := y - x;
    assert y * s == x * s + d * s;
  }

  /** `a / s` and `a % s` split `a` into whole multiples of `s` and a rest below `s`. */
  lemma DivMod(a: nat, s: nat)
    requires s > 0
    ensures a == (a / s) * s + a % s && 0 <= a % s < s
    ensures (a / s) * s <= a < (a / s + 1) * s
  {
  }

  /** The quotient is the only `q` with `q * s <= a < (q + 1) * s`. */
  lemma DivUnique(a: nat, s: nat, q: nat)
    requires s > 0 && q * s <= a < q * s + s
    ensures a / s == q
  {
    var q' := a / s;
    DivMod(a, s);
    if q' < q {
      MulMonotone(q' + 1, q, s);
    } else if q' > q {
      MulMonotone(q + 1, q', s);
    }
  }

  lemma MulDivCancel(m: nat, s: nat)
    requires s > 0
    ensures s * m / s == m
  {
    DivUnique(s * m, s, m);
  }

  lemma DivMonotone(a: nat, b: nat, s: nat)
    requires s > 0 && a <= b
    ensures a / s <= b / s
  {
    DivMod(a, s);
    DivMod(b, s);
    if a / s > b / s {
      MulMonotone(b / s + 1, a / s, s);
    }
  }

  lemma ModSmall(x: nat, n: nat)
    requires x < n
    ensures x % n == x
  {
    DivUnique(x, n, 0);
    DivMod(x, n);
  }

  lemma ModBelowTwice(x: nat, n: nat)
    requires n <= x < 2 * n
    ensures x % n == x - n
  {
    DivUnique(x, n, 1);
    DivMod(x, n);
  }

  /** Taking away one multiple of `n` leaves the remainder as it is. */
  lemma ModShift(x: nat, n: nat)
    requires 0 < n <= x
    ensures x % n == (x - n) % n
  {
    var q, r := (x - n) / n, (x - n) % n;
    DivMod(x - n, n);
    assert x == (q + 1) * n + r;
    DivUnique(x, n, q + 1);
    DivMod(x, n);
  }
}
