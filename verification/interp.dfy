/** Explicit definitions of the two interpolators the solver borrows from its
    numeric libraries:

    - `Linear` is `np.interp`: piecewise-linear through the nodes, clamped to
      the first / last value outside the node range;
    - `Bilinear` is `RegularGridInterpolator(method='linear')` on a rectangular
      grid: locate the cell with `searchsorted(grid, x) - 1` clipped to
      `[0, n - 2]`, then weight the four corners.

    The slope form `slope * (x - x0) + f0` of `np.interp` is written here as
    `Lerp(f0, f1, t)` with `t = (x - x0) / (x1 - x0)`; over the reals the two
    are the same number.
 */
module Interp {
  import opened Fields
  import opened Outcomes

  /** `a` moved a fraction `t` of the way towards `b`. */
  function Lerp(a: real, b: real, t: real): real {
    a + t * (b - a)
  }

  /** A fraction in [0, 1] keeps the interpolated value inside any band holding both ends. */
  lemma LerpWithin(a: real, b: real, t: real, lo: real, hi: real)
    requires 0.0 <= t <= 1.0
    requires lo <= a <= hi && lo <= b <= hi
    ensures lo <= Lerp(a, b, t) <= hi
  {
    // Lerp(a, b, t) == (1 - t) * a + t * b, a convex combination
    ProductNonNegative(t, hi - b);
    ProductNonNegative(1.0 - t, hi - a);
    ProductNonNegative(t, b - lo);
    ProductNonNegative(1.0 - t, a - lo);
  }

  /** The fraction that reaches the right end of a non-empty interval is one. */
  lemma WholeFraction(t: real, lo: real, hi: real)
    requires lo < hi && lo + t * (hi - lo) == hi
    ensures t == 1.0
  {
    if t < 1.0 {
      ProductPositive(1.0 - t, hi - lo);
    } else if t > 1.0 {
      ProductPositive(t - 1.0, hi - lo);
    }
  }


  /** The fraction that stays at the left end of a non-empty interval is zero. */
  lemma ZeroFraction(t: real, lo: real, hi: real)
    requires lo < hi && lo + t * (hi - lo) == lo
    ensures t == 0.0
  {
  }

  // ---------------------------------------------------------------------------
  // np.interp
  // ---------------------------------------------------------------------------

  /** `np.interp(x, xp, fp)` at a single point. */
  function Linear(x: real, xp: seq<real>, fp: seq<real>): real
    requires |xp| == |fp| > 0
  {
    if x <= xp[0] then fp[0] else Scan(x, xp, fp, 0)
  }

  /** Walks the segments from `k` on; `x` is at or right of node `k`. */
  function Scan(x: real, xp: seq<real>, fp: seq<real>, k: nat): real
    requires |xp| == |fp| && k < |xp| && xp[k] <= x
    decreases |xp| - k
  {
    if k == |xp| - 1 then fp[k]
    else if x < xp[k + 1] then Lerp(fp[k], fp[k + 1], (x - xp[k]) / (xp[k + 1] - xp[k]))
    else Scan(x, xp, fp, k + 1)
  }

  lemma {:induction false} ScanWithin(x: real, xp: seq<real>, fp: seq<real>, k: nat, lo: real, hi: real)
    requires |xp| == |fp| && k < |xp| && xp[k] <= x
    requires Within(fp, lo, hi)
    ensures lo <= Scan(x, xp, fp, k) <= hi
    decreases |xp| - k
  {
    if k == |xp| - 1 {
    } else if x < xp[k + 1] {
      FractionInUnit(x - xp[k], xp[k + 1] - xp[k]);
      LerpWithin(fp[k], fp[k + 1], (x - xp[k]) / (xp[k + 1] - xp[k]), lo, hi);
    } else {
      ScanWithin(x, xp, fp, k + 1, lo, hi);
    }
  }

  /** `np.interp` never leaves the band of its data values: no overshoot. */
  lemma LinearWithin(x: real, xp: seq<real>, fp: seq<real>, lo: real, hi: real)
    requires |xp| == |fp| > 0
    requires Within(fp, lo, hi)
    ensures lo <= Linear(x, xp, fp) <= hi
  {
    if x > xp[0] {
      ScanWithin(x, xp, fp, 0, lo, hi);
    }
  }

  /** Interpolating constant data gives that constant everywhere. */
  lemma LinearOfUniform(x: real, xp: seq<real>, fp: seq<real>, v: real)
    requires |xp| == |fp| > 0
    requires Uniform(fp, v)
    ensures Linear(x, xp, fp) == v
  {
    LinearWithin(x, xp, fp, v, v);
  }

  /** `np.interp(xs, xp, fp)` over a vector of query points; numpy refuses
      `xp` and `fp` of different lengths and an empty `xp`. */
  function Interpolate(xs: seq<real>, xp: seq<real>, fp: seq<real>): (r: Result<seq<real>>)
    ensures r.Ok? <==> |xp| == |fp| > 0
    ensures r.Ok? ==> |r.value| == |xs|
    ensures r.Ok? ==> forall i :: 0 <= i < |xs| ==> r.value[i] == Linear(xs[i], xp, fp)
  {
    if |xp| != |fp| || |xp| == 0 then Err(ShapeMismatch)
    else Ok(seq(|xs|, i requires 0 <= i < |xs| => Linear(xs[i], xp, fp)))
  }

  /** Interpolated vectors stay within the band of the data. */
  lemma InterpolateWithin(xs: seq<real>, xp: seq<real>, fp: seq<real>, lo: real, hi: real)
    requires |xp| == |fp| > 0
    requires Within(fp, lo, hi)
    ensures Within(Interpolate(xs, xp, fp).value, lo, hi)
  {
    forall i | 0 <= i < |xs| {
      LinearWithin(xs[i], xp, fp, lo, hi);
    }
  }

  // ---------------------------------------------------------------------------
  // Grid cells (RegularGridInterpolator)
  // ---------------------------------------------------------------------------

  /** `np.searchsorted(g, x, side='left')` on a sorted array, scanning from `k`:
      the first index whose value is not below `x`. */
  function SearchLeft(g: seq<real>, x: real, k: nat): (n: nat)
    requires k <= |g|
    ensures k <= n <= |g|
    ensures forall i :: k <= i < n ==> g[i] < x
    ensures n == |g| || x <= g[n]
    decreases |g| - k
  {
    if k == |g| || x <= g[k] then k else SearchLeft(g, x, k + 1)
  }

  /** A grid cell `[g[i], g[i + 1]]` and the fractional position `t` inside it. */
  datatype Cell = Cell(i: nat, t: real)

  /** scipy's cell search: `i = clip(searchsorted(g, x) - 1, 0, n - 2)` and
      `t = (x - g[i]) / (g[i + 1] - g[i])`. */
  function Locate(g: seq<real>, x: real): (c: Cell)
    requires |g| >= 2 && Increasing(g)
    requires g[0] <= x <= g[|g| - 1]
    ensures c.i + 1 < |g|
    ensures g[c.i] <= x <= g[c.i + 1]
    ensures c.i == 0 || g[c.i] < x
    ensures 0.0 <= c.t <= 1.0
    ensures x == g[c.i] + c.t * (g[c.i + 1] - g[c.i])
  {
    var n := SearchLeft(g, x, 0);
    var i := if n == 0 then 0 else if n - 1 > |g| - 2 then |g| - 2 else n - 1;
    assert g[i] < g[i + 1];
    FractionInUnit(x - g[i], g[i + 1] - g[i]);
    Cell(i, (x - g[i]) / (g[i + 1] - g[i]))
  }

  /** Linear interpolation of the values `f` inside cell `c`. */
  function CellValue(f: seq<real>, c: Cell): real
    requires c.i + 1 < |f|
  {
    Lerp(f[c.i], f[c.i + 1], c.t)
  }

  /** At a node the cell search lands on a cell whose interpolant is exactly that node's value. */
  lemma LocateNode(g: seq<real>, a: nat, f: seq<real>)
    requires |g| >= 2 && Increasing(g) && a < |g| && |f| == |g|
    ensures CellValue(f, Locate(g, g[a])) == f[a]
  {
    var c := Locate(g, g[a]);
    if c.i == a {
      ZeroFraction(c.t, g[c.i], g[c.i + 1]);
    } else {
      assert c.i + 1 == a;
      WholeFraction(c.t, g[c.i], g[c.i + 1]);
    }
  }

  /** Away from the clamped ends, `np.interp` and the cell search compute the same number. */
  lemma LinearMatchesCell(x: real, g: seq<real>, f: seq<real>)
    requires |g| >= 2 && Increasing(g) && |f| == |g|
    requires g[0] <= x <= g[|g| - 1]
    ensures Linear(x, g, f) == CellValue(f, Locate(g, x))
  {
    if x <= g[0] {
      LocateNode(g, 0, f);
    } else {
      var c := Locate(g, x);
      ScanReaches(x, g, f, 0, c.i, c.t);
    }
  }

  /** The segment scan started left of cell `i` (holding `x` at fraction `t`) ends in that cell. */
  lemma {:induction false} ScanReaches(x: real, g: seq<real>, f: seq<real>, k: nat, i: nat, t: real)
    requires Increasing(g) && |f| == |g|
    requires i + 1 < |g| && g[i] < x <= g[i + 1]
    requires x == g[i] + t * (g[i + 1] - g[i])
    requires k <= i && g[k] <= x
    ensures Scan(x, g, f, k) == Lerp(f[i], f[i + 1], t)
    decreases i - k
  {
    if k < i {
      assert g[k + 1] <= g[i];
      ScanReaches(x, g, f, k + 1, i, t);
    } else if x < g[k + 1] {
      assert t == (x - g[k]) / (g[k + 1] - g[k]);
    } else {
      // x sits on the right node of its cell: the scan moves one segment on
      // and starts it with weight zero, the cell ends it with weight one
      assert k == i;
      assert x == g[i + 1] && g[i] < g[i + 1];
      WholeFraction(t, g[i], g[i + 1]);
      if k + 1 < |g| - 1 {
        assert (x - g[k + 1]) / (g[k + 2] - g[k + 1]) == 0.0;
      }
    }
  }

  /** `np.interp` at a node returns the data value there. */
  lemma LinearAtNode(g: seq<real>, f: seq<real>, a: nat)
    requires |g| >= 2 && Increasing(g) && |f| == |g| && a < |g|
    ensures Linear(g[a], g, f) == f[a]
  {
    assert g[0] <= g[a] <= g[|g| - 1] by {
      if 0 < a { assert g[0] < g[a]; }
      if a < |g| - 1 { assert g[a] < g[|g| - 1]; }
    }
    LinearMatchesCell(g[a], g, f);
    LocateNode(g, a, f);
  }

  /** Interpolating onto the data's own nodes is the identity. */
  lemma InterpolateOntoSelf(g: seq<real>, f: seq<real>)
    requires |g| >= 2 && Increasing(g) && |f| == |g|
    ensures Interpolate(g, g, f) == Ok(f)
  {
    var res := Interpolate(g, g, f);
    var r := res.value;
    forall i | 0 <= i < |g|
      ensures r[i] == f[i]
    {
      LinearAtNode(g, f, i);
    }
    assert r == f;
  }

  // ---------------------------------------------------------------------------
  // Bilinear lookup
  // ---------------------------------------------------------------------------

  /** The rectangular grid `T[i][j]` at `(xg[i], yg[j])` can be queried at `(x, y)`. */
  predicate Queryable(T: Field, xg: seq<real>, yg: seq<real>, x: real, y: real) {
    && |xg| >= 2 && |yg| >= 2 && Increasing(xg) && Increasing(yg)
    && IsGrid(T, |xg|, |yg|)
    && xg[0] <= x <= xg[|xg| - 1] && yg[0] <= y <= yg[|yg| - 1]
  }

  /** Bilinear value: each corner weighted by the product of its 1-D fractions. */
  function Bilinear(T: Field, xg: seq<real>, yg: seq<real>, x: real, y: real): real
    requires Queryable(T, xg, yg, x, y)
  {
    var cx := Locate(xg, x);
    var cy := Locate(yg, y);
    var i, j, tx, ty := cx.i, cy.i, cx.t, cy.t;
    (1.0 - tx) * (1.0 - ty) * T[i][j] + (1.0 - tx) * ty * T[i][j + 1]
      + tx * (1.0 - ty) * T[i + 1][j] + tx * ty * T[i + 1][j + 1]
  }

  /** The corner-weight sum is a linear interpolation in y of two linear interpolations in x. */
  lemma CornerWeights(a: real, b: real, c: real, d: real, tx: real, ty: real)
    ensures (1.0 - tx) * (1.0 - ty) * a + (1.0 - tx) * ty * b + tx * (1.0 - ty) * c + tx * ty * d
         == Lerp(Lerp(a, c, tx), Lerp(b, d, tx), ty)
  {
  }

  /** The bilinear value never leaves the band of the grid values. */
  lemma BilinearWithin(T: Field, xg: seq<real>, yg: seq<real>, x: real, y: real, lo: real, hi: real)
    requires Queryable(T, xg, yg, x, y)
    requires Within2(T, lo, hi)
    ensures lo <= Bilinear(T, xg, yg, x, y) <= hi
  {
    var cx := Locate(xg, x);
    var cy := Locate(yg, y);
    var i, j, tx, ty := cx.i, cy.i, cx.t, cy.t;
    CornerWeights(T[i][j], T[i][j + 1], T[i + 1][j], T[i + 1][j + 1], tx, ty);
    LerpWithin(T[i][j], T[i + 1][j], tx, lo, hi);
    LerpWithin(T[i][j + 1], T[i + 1][j + 1], tx, lo, hi);
    LerpWithin(Lerp(T[i][j], T[i + 1][j], tx), Lerp(T[i][j + 1], T[i + 1][j + 1], tx), ty, lo, hi);
  }

  /** At a grid node the lookup returns the node value. */
  lemma BilinearAtNode(T: Field, xg: seq<real>, yg: seq<real>, a: nat, b: nat)
    requires a < |xg| && b < |yg|
    requires Queryable(T, xg, yg, xg[a], yg[b])
    ensures Bilinear(T, xg, yg, xg[a], yg[b]) == T[a][b]
  {
    var cx := Locate(xg, xg[a]);
    var cy := Locate(yg, yg[b]);
    var i, j, tx, ty := cx.i, cy.i, cx.t, cy.t;
    CornerWeights(T[i][j], T[i][j + 1], T[i + 1][j], T[i + 1][j + 1], tx, ty);
    LocateNode(xg, a, Column(T, j));
    LocateNode(xg, a, Column(T, j + 1));
    LocateNode(yg, b, T[a]);
  }

  /** A query on the last grid line `y == yg[last]` is plain `np.interp` along that
      column: the y-weight of the last cell is exactly 1. */
  lemma BilinearOnLastColumn(T: Field, xg: seq<real>, yg: seq<real>, x: real)
    requires |yg| >= 2 && Queryable(T, xg, yg, x, yg[|yg| - 1])
    ensures Bilinear(T, xg, yg, x, yg[|yg| - 1]) == Linear(x, xg, Column(T, |yg| - 1))
  {
    var last := |yg| - 1;
    var cx := Locate(xg, x);
    var cy := Locate(yg, yg[last]);
    var i, j, tx, ty := cx.i, cy.i, cx.t, cy.t;
    assert j + 1 == last;
    WholeFraction(ty, yg[j], yg[j + 1]);
    CornerWeights(T[i][j], T[i][j + 1], T[i + 1][j], T[i + 1][j + 1], tx, ty);
    LinearMatchesCell(x, xg, Column(T, last));
  }
}
