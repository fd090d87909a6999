/** The explicit finite-difference stencils of the solid updates, as
    functions of the old node value and its neighbours' old values, with the
    facts about them that the solvers' properties rest on: each is a convex
    combination of its inputs when its numbers are small enough, each leaves
    a uniform state unchanged, and each exchange term pulls the node towards
    the medium it exchanges with.
 */
module Stencil {
  import opened Fields

  /** FTCS update of an interior Cartesian node: diffusion along both axes,
      `e`/`w` the neighbours along the first, `n`/`s` along the second. */
  function Interior(v: real, e: real, w: real, n: real, s: real, fa: real, fb: real): real {
    v + fa * (e - 2.0 * v + w) + fb * (n - 2.0 * v + s)
  }

  /** Update of a node on a convective face: diffusion along the face
      (`e`/`w`) with number `fa`, and twice the half-cell balance across it
      with number `fb` between the inner neighbour `n` and a medium at `tm`
      seen through the Biot number `b`. */
  function Face(v: real, e: real, w: real, n: real, tm: real, fa: real, fb: real, b: real): real {
    v + fa * (e - 2.0 * v + w) + 2.0 * fb * ((n - v) - b * (v - tm))
  }

  /** Every weight of the interior stencil is non-negative. */
  lemma InteriorConvex(v: real, e: real, w: real, n: real, s: real, fa: real, fb: real, lo: real, hi: real)
    requires fa >= 0.0 && fb >= 0.0 && 2.0 * fa + 2.0 * fb <= 1.0
    requires lo <= v <= hi && lo <= e <= hi && lo <= w <= hi && lo <= n <= hi && lo <= s <= hi
    ensures lo <= Interior(v, e, w, n, s, fa, fb) <= hi
  {
    var a0 := 1.0 - 2.0 * fa - 2.0 * fb;
    assert Interior(v, e, w, n, s, fa, fb) == a0 * v + fa * e + fa * w + fb * n + fb * s;
    Convex5(a0, fa, fa, fb, fb, v, e, w, n, s, lo, hi);
  }

  /** Every weight of the face stencil is non-negative. */
  lemma FaceConvex(v: real, e: real, w: real, n: real, tm: real, fa: real, fb: real, b: real, lo: real, hi: real)
    requires fa >= 0.0 && fb >= 0.0 && b >= 0.0 && 2.0 * fa + 2.0 * fb * (1.0 + b) <= 1.0
    requires lo <= v <= hi && lo <= e <= hi && lo <= w <= hi && lo <= n <= hi && lo <= tm <= hi
    ensures lo <= Face(v, e, w, n, tm, fa, fb, b) <= hi
  {
    var fbb := fb * b;
    ProductNonNegative(fb, b);
    var a0 := 1.0 - 2.0 * fa - 2.0 * fb - 2.0 * fbb;
    assert 2.0 * fb * (1.0 + b) == 2.0 * fb + 2.0 * fbb;
    assert Face(v, e, w, n, tm, fa, fb, b) == a0 * v + fa * e + fa * w + (2.0 * fb) * n + (2.0 * fbb) * tm;
    Convex5(a0, fa, fa, 2.0 * fb, 2.0 * fbb, v, e, w, n, tm, lo, hi);
  }

  /** A node whose neighbours all share its value does not move. */
  lemma InteriorUniform(v: real, fa: real, fb: real)
    ensures Interior(v, v, v, v, v, fa, fb) == v
  {
    assert v - 2.0 * v + v == 0.0;
  }

  /** A face node in equilibrium with its neighbours and the medium does not move. */
  lemma FaceUniform(v: real, fa: real, fb: real, b: real)
    ensures Face(v, v, v, v, v, fa, fb, b) == v
  {
    assert v - 2.0 * v + v == 0.0 && v - v == 0.0;
  }

  /** The exchange term lowers the face node exactly when the node is hotter
      than the medium: with positive numbers the update is below the update
      of an adiabatic face (`b = 0`) if and only if `v > tm`. */
  lemma FaceExchangeSign(v: real, e: real, w: real, n: real, tm: real, fa: real, fb: real, b: real)
    requires fb > 0.0 && b > 0.0
    ensures Face(v, e, w, n, tm, fa, fb, b) < Face(v, e, w, n, tm, fa, fb, 0.0) <==> v > tm
  {
    var k := 2.0 * fb * b;
    ProductPositive(2.0 * fb, b);
    FaceExchange(v, e, w, n, tm, fa, fb, b);
    if v > tm {
      ProductPositive(k, v - tm);
    } else {
      ProductNonNegative(k, tm - v);
      assert k * (tm - v) == -(k * (v - tm));
    }
  }

  /** The exchange term separated from the adiabatic update. */
  lemma FaceExchange(v: real, e: real, w: real, n: real, tm: real, fa: real, fb: real, b: real)
    ensures Face(v, e, w, n, tm, fa, fb, b) == Face(v, e, w, n, tm, fa, fb, 0.0) - (2.0 * fb * b) * (v - tm)
  {
  }

  /** Update of the axis node r = 0 from the first ring of its own angular row:
      the regular limit of the radial Laplacian at the axis. */
  function Pull(v: real, n: real, f: real): real {
    v + 2.0 * f * (n - v)
  }

  /** With `0 <= f <= 1/2` the axis node moves towards its ring without
      overshooting it. */
  lemma PullBetween(v: real, n: real, f: real)
    requires 0.0 <= f <= 0.5
    ensures v <= n ==> v <= Pull(v, n, f) <= n
    ensures n <= v ==> n <= Pull(v, n, f) <= v
  {
    if v <= n {
      ProductNonNegative(2.0 * f, n - v);
      ProductNonNegative(1.0 - 2.0 * f, n - v);
    } else {
      ProductNonNegative(2.0 * f, v - n);
      ProductNonNegative(1.0 - 2.0 * f, v - n);
    }
  }

  /** FTCS update of an interior polar node: radial second difference plus the
      first-derivative term `q (e - w)` with `q = dr / r`, `e`/`w` the outer and
      inner radial neighbours, and the angular second difference over `n`/`s`
      with the node's own angular number `ft`. */
  function Radial(v: real, e: real, w: real, n: real, s: real, fr: real, q: real, ft: real): real {
    v + fr * ((e - 2.0 * v + w) + q * (e - w)) + ft * (n - 2.0 * v + s)
  }

  /** Off the axis (`q <= 1`, that is `r >= dr`) every weight of the polar
      stencil is non-negative. */
  lemma RadialConvex(v: real, e: real, w: real, n: real, s: real, fr: real, q: real, ft: real, lo: real, hi: real)
    requires fr >= 0.0 && ft >= 0.0 && 0.0 <= q <= 1.0 && 2.0 * fr + 2.0 * ft <= 1.0
    requires lo <= v <= hi && lo <= e <= hi && lo <= w <= hi && lo <= n <= hi && lo <= s <= hi
    ensures lo <= Radial(v, e, w, n, s, fr, q, ft) <= hi
  {
    var fq := fr * q;
    ProductNonNegative(fr, q);
    ProductNonNegative(fr, 1.0 - q);
    assert fr * (1.0 - q) == fr - fq;
    var a0 := 1.0 - 2.0 * fr - 2.0 * ft;
    assert Radial(v, e, w, n, s, fr, q, ft) == a0 * v + (fr + fq) * e + (fr - fq) * w + ft * n + ft * s;
    Convex5(a0, fr + fq, fr - fq, ft, ft, v, e, w, n, s, lo, hi);
  }

  lemma RadialUniform(v: real, fr: real, q: real, ft: real)
    ensures Radial(v, v, v, v, v, fr, q, ft) == v
  {
    assert v - 2.0 * v + v == 0.0 && v - v == 0.0;
  }

  lemma PullUniform(v: real, f: real)
    ensures Pull(v, v, f) == v
  {
    assert v - v == 0.0;
  }
}
