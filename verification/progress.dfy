/** Progress arithmetic: `Math.round((processed / total) * 100)` over exact
    integers (src/App.tsx, lines 200, 220 and 248). */
module Progress {

  /** The percentage of `total` that `done` represents, rounded to the nearest
      integer with halves rounded up, as `Math.round` does on non-negative input. */
  function Percent(done: nat, total: nat): (r: nat)
    requires 0 < total
    ensures 2 * total * r <= 200 * done + total < 2 * total * (r + 1)
    ensures done <= total ==> r <= 100
  {
    var r := (200 * done + total) / (2 * total);
    assert done <= total ==> 200 * done + total < 2 * total * 101;
    r
  }

  /** Multiplying by a positive factor reflects strict order. */
  lemma CancelLess(c: nat, x: nat, y: nat)
    requires 0 < c && c * x < c * y
    ensures x < y
  {
    if x >= y {
      MultiplyMonotone(c, y, x);
    }
  }

  lemma {:induction false} MultiplyMonotone(c: nat, x: nat, y: nat)
    requires x <= y
    ensures c * x <= c * y
    decreases y - x
  {
    if x < y {
      MultiplyMonotone(c, x, y - 1);
    }
  }

  /** More rows processed never shows less progress. */
  lemma PercentMonotone(p: nat, q: nat, total: nat)
    requires 0 < total && p <= q
    ensures Percent(p, total) <= Percent(q, total)
  {
  }

  /** Nothing processed is 0%; everything processed is exactly 100%. */
  lemma PercentEnds(total: nat)
    requires 0 < total
    ensures Percent(0, total) == 0
    ensures Percent(total, total) == 100
  {
    var c := 2 * total;
    var z, f := Percent(0, total), Percent(total, total);
    CancelLess(c, z, 1);
    CancelLess(c, f, 101);
    CancelLess(c, 99, f + 1);
  }
}
