/**
 * Exact arithmetic on scores: dimension fractions, their weighted sums, the cap at 100
 * and rounding to the nearest integer.
 */
module Scores {

  /** `matched / total` as an exact fraction. */
  function Fraction(matched: nat, total: nat): real
    requires total > 0
  {
    matched as real / total as real
  }

  /** `Math.min(100, x)`. */
  function AtMost100(x: real): real
  {
    if 100.0 <= x then 100.0 else x
  }

  /** `Math.round`: the nearest integer, halves rounded up. */
  function Round(x: real): (r: int)
    ensures r as real - 0.5 <= x < r as real + 0.5
  {
    (x + 0.5).Floor
  }

  lemma RoundMonotone(x: real, y: real)
    requires x <= y
    ensures Round(x) <= Round(y)
  {
  }

  lemma FractionBounds(m: nat, t: nat)
    requires 0 < t && m <= t
    ensures 0.0 <= Fraction(m, t) <= 1.0
  {
    assert Fraction(m, t) * t as real == m as real;
  }

  lemma FractionMonotone(m1: nat, m2: nat, t: nat)
    requires 0 < t && m1 <= m2
    ensures Fraction(m1, t) <= Fraction(m2, t)
  {
    assert Fraction(m2, t) - Fraction(m1, t) == (m2 - m1) as real / t as real;
  }

  /** A fraction scaled by its weight. */
  function Scaled(f: real, w: real): real
  {
    f * w
  }

  lemma ScaleBounds(f: real, w: real)
    requires 0.0 <= f <= 1.0 && 0.0 <= w
    ensures 0.0 <= Scaled(f, w) <= w
  {
    MulBounds(f, w);
  }

  lemma MulBounds(f: real, w: real)
    requires 0.0 <= f <= 1.0 && 0.0 <= w
    ensures 0.0 <= f * w <= w
  {
  }

  lemma ScaleMonotone(f1: real, f2: real, w: real)
    requires f1 <= f2 && 0.0 <= w
    ensures Scaled(f1, w) <= Scaled(f2, w)
  {
    MulMonotone(f1, f2, w);
  }

  lemma MulMonotone(f1: real, f2: real, w: real)
    requires f1 <= f2 && 0.0 <= w
    ensures f1 * w <= f2 * w
  {
  }

  /** A weighted sum of four fractions, with weights summing to one, is a fraction. */
  lemma WeightedSumBounds(fs: real, fe: real, fd: real, fc: real, ws: real, we: real, wd: real, wc: real)
    requires 0.0 <= fs <= 1.0 && 0.0 <= fe <= 1.0 && 0.0 <= fd <= 1.0 && 0.0 <= fc <= 1.0
    requires ws >= 0.0 && we >= 0.0 && wd >= 0.0 && wc >= 0.0 && ws + we + wd + wc == 1.0
    ensures 0.0 <= Scaled(fs, ws) + Scaled(fe, we) + Scaled(fd, wd) + Scaled(fc, wc) <= 1.0
  {
    ScaleBounds(fs, ws);
    ScaleBounds(fe, we);
    ScaleBounds(fd, wd);
    ScaleBounds(fc, wc);
  }

  /** With non-negative weights, larger fractions give a larger weighted sum. */
  lemma WeightedSumMonotone(fs: real, fe: real, fd: real, fc: real, gs: real, ge: real, gd: real, gc: real,
                            ws: real, we: real, wd: real, wc: real)
    requires fs <= gs && fe <= ge && fd <= gd && fc <= gc
    requires ws >= 0.0 && we >= 0.0 && wd >= 0.0 && wc >= 0.0
    ensures Scaled(fs, ws) + Scaled(fe, we) + Scaled(fd, wd) + Scaled(fc, wc)
         <= Scaled(gs, ws) + Scaled(ge, we) + Scaled(gd, wd) + Scaled(gc, wc)
  {
    ScaleMonotone(fs, gs, ws);
    ScaleMonotone(fe, ge, we);
    ScaleMonotone(fd, gd, wd);
    ScaleMonotone(fc, gc, wc);
  }
}
