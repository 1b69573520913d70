/** The straight line the optimizer draws between two samples of a series, over
    sample rank, and the few facts about lines that the error bounds rest on.
    Values are exact reals; ranks are integers. */
module Chord {

  function Abs(x: real): (r: real)
    ensures r >= 0.0 && (r == x || r == -x) && x <= r && -x <= r
  {
    if x < 0.0 then -x else x
  }

  /** The line through (l, vl) and (r, vr), at rank k, in slope-intercept form. */
  function Line(l: int, vl: real, r: int, vr: real, k: int): real
    requires l < r
  {
    var a := (vr - vl) / (r - l) as real;
    var b := -(l as real) * (vr - vl) / (r - l) as real + vl;
    a * k as real + b
  }

  /** The chord of samples l and r of series y, at rank k. */
  function At(y: seq<real>, l: nat, r: nat, k: int): real
    requires l < r < |y|
  {
    Line(l, y[l], r, y[r], k)
  }

  // How far along from l to r rank k is, as a fraction.
  ghost function Frac(l: int, r: int, k: int): (t: real)
    requires l < r
  {
    (k - l) as real / (r - l) as real
  }

  lemma FracRange(l: int, r: int, k: int)
    requires l < r && l <= k <= r
    ensures 0.0 <= Frac(l, r, k) <= 1.0
  {
  }

  lemma DivFacts(x: real, d: real, t: real)
    requires d != 0.0 && t == x / d
    ensures t * d == x
  {
  }

  lemma MulDiv(x: real, y: real, d: real)
    requires d != 0.0
    ensures x * y / d == x * (y / d)
  {
  }

  /** The slope-intercept form is the weighted mean of the two end values. */
  lemma LineIsMean(l: int, vl: real, r: int, vr: real, k: int)
    requires l < r
    ensures Line(l, vl, r, vr, k) == vl + Frac(l, r, k) * (vr - vl)
  {
    var d := (r - l) as real;
    var s := (vr - vl) / d;
    var t := Frac(l, r, k);
    MulDiv(-(l as real), vr - vl, d);
    assert Line(l, vl, r, vr, k) == s * k as real + (-(l as real) * s + vl);
    assert s * k as real + (-(l as real) * s) == s * (k - l) as real;
    DivFacts(vr - vl, d, s);
    DivFacts((k - l) as real, d, t);
    calc {
      s * (k - l) as real;
      s * (t * d);
      t * (s * d);
      t * (vr - vl);
    }
  }

  /** A line passes through the two points that define it. */
  lemma LineEnds(l: int, vl: real, r: int, vr: real)
    requires l < r
    ensures Line(l, vl, r, vr, l) == vl
    ensures Line(l, vl, r, vr, r) == vr
  {
    LineIsMean(l, vl, r, vr, l);
    LineIsMean(l, vl, r, vr, r);
  }

  /** Only rank differences matter. */
  lemma LineShift(l: int, vl: real, r: int, vr: real, k: int, c: int)
    requires l < r
    ensures Line(l + c, vl, r + c, vr, k + c) == Line(l, vl, r, vr, k)
  {
    LineIsMean(l, vl, r, vr, k);
    LineIsMean(l + c, vl, r + c, vr, k + c);
  }

  /** Moving the two end values by at most e moves the line between them by at most e. */
  lemma LineMoves(l: int, r: int, k: int, ul: real, ur: real, vl: real, vr: real, e: real)
    requires l < r && l <= k <= r
    requires Abs(vl - ul) <= e && Abs(vr - ur) <= e
    ensures Abs(Line(l, vl, r, vr, k) - Line(l, ul, r, ur, k)) <= e
  {
    var t := Frac(l, r, k);
    FracRange(l, r, k);
    LineIsMean(l, vl, r, vr, k);
    LineIsMean(l, ul, r, ur, k);
    MeanMoves(1.0 - t, t, vl - ul, vr - ur, e);
    assert (vl + t * (vr - vl)) - (ul + t * (ur - ul)) == (1.0 - t) * (vl - ul) + t * (vr - ur);
  }

  lemma MeanMoves(s: real, t: real, p: real, q: real, e: real)
    requires 0.0 <= s && 0.0 <= t && s + t == 1.0
    requires -e <= p <= e && -e <= q <= e
    ensures -e <= s * p + t * q <= e
  {
    var sp, tq, se, te := s * p, t * q, s * e, t * e;
    assert -se <= sp <= se by { MulMono(s, p, e); MulMono(s, -e, p); }
    assert -te <= tq <= te by { MulMono(t, q, e); MulMono(t, -e, q); }
    assert se + te == (s + t) * e == e;
  }

  lemma MulMono(t: real, p: real, q: real)
    requires 0.0 <= t && p <= q
    ensures t * p <= t * q
  {
  }

  /** Re-drawing a line through two of its own points gives the same line. */
  lemma LineThrough(l: int, vl: real, r: int, vr: real, a: int, b: int, k: int)
    requires l < r && a < b
    ensures Line(a, Line(l, vl, r, vr, a), b, Line(l, vl, r, vr, b), k) == Line(l, vl, r, vr, k)
  {
    var m := (vr - vl) / (r - l) as real;
    var c := -(l as real) * (vr - vl) / (r - l) as real + vl;
    var va, vb := m * a as real + c, m * b as real + c;
    var t := Frac(a, b, k);
    LineIsMean(a, va, b, vb, k);
    DivFacts((k - a) as real, (b - a) as real, t);
    calc {
      va + t * (vb - va);
      { assert vb - va == m * (b - a) as real; }
      va + t * (m * (b - a) as real);
      { assert t * (m * (b - a) as real) == m * (t * (b - a) as real); }
      va + m * (k - a) as real;
      m * k as real + c;
    }
  }

  /** The re-basing bound behind everything else: if samples a, b and the one at k
      all lie within e of one line, the sample at k lies within 2e of the chord (a, b). */
  lemma Rebase(l: int, vl: real, r: int, vr: real,
               a: int, va: real, b: int, vb: real, k: int, vk: real, e: real)
    requires l < r && a < b && a <= k <= b
    requires Abs(va - Line(l, vl, r, vr, a)) <= e
    requires Abs(vb - Line(l, vl, r, vr, b)) <= e
    requires Abs(vk - Line(l, vl, r, vr, k)) <= e
    ensures Abs(vk - Line(a, va, b, vb, k)) <= 2.0 * e
  {
    var ua, ub := Line(l, vl, r, vr, a), Line(l, vl, r, vr, b);
    LineMoves(a, b, k, ua, ub, va, vb, e);
    LineThrough(l, vl, r, vr, a, b, k);
  }
}
