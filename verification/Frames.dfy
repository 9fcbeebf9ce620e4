/** Frame arithmetic: `n` pins a frame, frames counted from 0. */
module Frames {

  /** t * nPi, without the nonlinear term. */
  function Cell(t: nat, nPi: nat): nat {
    if t == 0 then 0 else nPi + Cell(t - 1, nPi)
  }

  lemma {:induction false} CellIsProduct(t: nat, nPi: nat)
    ensures Cell(t, nPi) == t * nPi
  {
    if t > 0 {
      CellIsProduct(t - 1, nPi);
    }
  }

  lemma {:induction false} CellMonotone(s: nat, t: nat, nPi: nat)
    requires s <= t
    ensures Cell(s, nPi) <= Cell(t, nPi)
    ensures s < t ==> Cell(s, nPi) + nPi <= Cell(t, nPi)
    decreases t
  {
    if s < t {
      CellMonotone(s, t - 1, nPi);
    }
  }

  /** Position `p` lies in frame `u`. */
  predicate InFrame(u: nat, n: nat, p: int) {
    Cell(u, n) <= p < Cell(u, n) + n
  }

  /** A position lies in one frame only. */
  lemma FrameUnique(u: nat, t: nat, n: nat, p: int)
    requires InFrame(u, n, p) && InFrame(t, n, p)
    ensures u == t
  {
    if u < t {
      CellMonotone(u, t, n);
    } else if t < u {
      CellMonotone(t, u, n);
    }
  }

  lemma MulNonneg(a: int, n: nat)
    requires a >= 0
    ensures a * n >= 0
  {}

  lemma QuotientIs(p: int, n: nat, q: int, r: nat)
    requires r < n && p == q * n + r
    ensures p / n == q && p % n == r
  {
    var d := p / n - q;
    assert p == (p / n) * n + p % n;
    assert d * n == r - p % n;
    if d > 0 {
      MulNonneg(d - 1, n);
    } else if d < 0 {
      MulNonneg(-d - 1, n);
    }
  }

  lemma CellDiv(t: nat, n: nat, i: nat)
    requires i < n
    ensures (Cell(t, n) + i) / n == t && (Cell(t, n) + i) % n == i
  {
    CellIsProduct(t, n);
    QuotientIs(Cell(t, n) + i, n, t, i);
  }
}
