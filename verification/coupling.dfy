/** The thermal interfaces between the three domains: the plate's wetted face
    handed to the water, and the plate's top face imposed on the two edge
    rows (theta = 0 and theta = pi) of every fin, looked up by bilinear
    interpolation on the plate grid. Interpolation is written out in `Interp`
    in place of the numerical libraries the program calls.
 */
module Coupling {
  import opened Outcomes
  import opened Fields
  import opened Interp
  import opened Parameters
  import opened Meshes

  // ---------------------------------------------------------------------------
  // Plate -> water
  // ---------------------------------------------------------------------------

  /** `extraer_temperatura_superficie_placa`: the plate's wetted face `y = 0`
      (column 0 of the (Nx, Ny) field), after the shape check and the
      200-500 K check on its extremes. */
  function Surface(t: Field, p: Params): (r: Result<seq<real>>)
    requires Spacings(p)
    ensures !IsGrid(t, p.nxPlate as nat, p.nyPlate as nat) ==> r == Err(ShapeMismatch)
    ensures r.Ok? <==> IsGrid(t, p.nxPlate as nat, p.nyPlate as nat) && StrictlyWithin(Column(t, 0), 200.0, 500.0)
    ensures r.Ok? ==> |r.value| == p.nxPlate && forall i :: 0 <= i < |t| ==> r.value[i] == t[i][0]
  {
    if !IsGrid(t, p.nxPlate as nat, p.nyPlate as nat) then Err(ShapeMismatch)
    else
      var s := Column(t, 0);
      InBandIff(s, 200.0, 500.0);
      if !InBand(s, 200.0, 500.0) then Err(PhysicalRange) else Ok(s)
  }

  /** numpy's `allclose(a, b)`: equal lengths, and every pair close with the
      default tolerances (relative 1e-5, absolute 1e-8). */
  predicate AllClose(a: seq<real>, b: seq<real>) {
    |a| == |b| && forall i :: 0 <= i < |a| ==> IsClose(a[i], b[i], 1e-5)
  }

  /** The two meshes along the channel are taken to be the same grid. */
  predicate SameGrid(p: Params, xPlate: seq<real>, xFluid: seq<real>) {
    p.nxFluid == p.nxPlate && AllClose(xPlate, xFluid)
  }

  /** A non-empty array inside a band has its extremes inside it. */
  lemma ExtremesWithin(s: seq<real>, lo: real, hi: real)
    requires |s| > 0 && Within(s, lo, hi)
    ensures lo <= Min(s) && Max(s) <= hi
  {
    var i :| 0 <= i < |s| && s[i] == Min(s);
    var k :| 0 <= k < |s| && s[k] == Max(s);
  }

  /** The fluid-side temperature, before the output checks. */
  function Transferred(ts: seq<real>, xPlate: seq<real>, xFluid: seq<real>, p: Params): (r: Result<seq<real>>)
    requires |ts| == |xPlate|
  {
    if SameGrid(p, xPlate, xFluid) then Ok(ts) else Interpolate(xFluid, xPlate, ts)
  }

  /** `interpolar_temperatura_para_fluido`: the surface as it is when the two
      grids coincide, otherwise `np.interp` onto the water nodes; then the
      shape check and the check that no value leaves the input's range by
      more than 1 K. The meshes are those built from `p`. The range check
      never fails: the result stays inside [min, max] of the input. */
  function ForFluid(ts: seq<real>, xPlate: seq<real>, xFluid: seq<real>, p: Params): (r: Result<seq<real>>)
    requires |xPlate| == p.nxPlate && |xFluid| == p.nxFluid
    ensures |ts| != p.nxPlate ==> r == Err(ShapeMismatch)
    ensures r.Ok? <==> |ts| == p.nxPlate && p.nxPlate > 0 && p.nxFluid > 0
    ensures r.Ok? ==> |r.value| == p.nxFluid
    ensures r.Ok? && SameGrid(p, xPlate, xFluid) ==> r.value == ts
    ensures r.Ok? && !SameGrid(p, xPlate, xFluid) ==> forall i :: 0 <= i < |xFluid| ==> r.value[i] == Linear(xFluid[i], xPlate, ts)
    ensures r.Ok? ==> Within(r.value, Min(ts), Max(ts))
  {
    if |ts| != p.nxPlate then Err(ShapeMismatch)
    else
      match Transferred(ts, xPlate, xFluid, p)
      case Err(e) => Err(e)
      case Ok(out) =>
        if |out| != p.nxFluid then Err(ShapeMismatch)
        else if |out| == 0 || |ts| == 0 then Err(InvalidArgument)
        else
          TransferredWithin(ts, xPlate, xFluid, p);
          ExtremesWithin(out, Min(ts), Max(ts));
          if !(Min(out) >= Min(ts) - 1.0 && Max(out) <= Max(ts) + 1.0) then Err(PhysicalRange)
          else Ok(out)
  }

  lemma TransferredWithin(ts: seq<real>, xPlate: seq<real>, xFluid: seq<real>, p: Params)
    requires |ts| == |xPlate| > 0 && Transferred(ts, xPlate, xFluid, p).Ok?
    ensures Within(Transferred(ts, xPlate, xFluid, p).value, Min(ts), Max(ts))
    ensures |Transferred(ts, xPlate, xFluid, p).value| == if SameGrid(p, xPlate, xFluid) then |ts| else |xFluid|
  {
    if !SameGrid(p, xPlate, xFluid) {
      InterpolateWithin(xFluid, xPlate, ts, Min(ts), Max(ts));
    }
  }

  /** On the program's default meshes the water and the plate share one grid,
      so the water sees exactly the plate's wetted face. */
  lemma SurfaceReachesFluidUnchanged(t: Field, p: Params, xPlate: seq<real>, xFluid: seq<real>)
    requires Spacings(p) && |xPlate| == p.nxPlate && |xFluid| == p.nxFluid
    requires xPlate == xFluid && p.nxFluid == p.nxPlate
    requires Surface(t, p).Ok?
    ensures ForFluid(Surface(t, p).value, xPlate, xFluid, p) == Surface(t, p)
  {
    assert AllClose(xPlate, xFluid) by {
      forall i | 0 <= i < |xPlate| ensures IsClose(xPlate[i], xFluid[i], 1e-5) {
        assert Abs(xPlate[i] - xFluid[i]) == 0.0;
      }
    }
  }

  // ---------------------------------------------------------------------------
  // Plate -> fins
  // ---------------------------------------------------------------------------

  /** The two edges of a fin's half-disc that rest on the plate: theta = 0
      (towards +x) and theta = pi (towards -x). These are the only angles
      the coupling maps, so `cos` is +1 or -1. */
  datatype Side = Right | Left

  function Cos(side: Side): real {
    if side == Right then 1.0 else -1.0
  }

  /** Query points on the plate. */
  datatype Points = Points(x: seq<real>, y: seq<real>)

  /** `mapear_coordenadas_placa_a_aleta` on one edge of a fin centred at
      `xCenter`: every radius must be non-negative; the points lie at
      distance `r` from the centre on that edge's side, all at height
      `yBase`. */
  function MapToPlate(rs: seq<real>, side: Side, xCenter: real, yBase: real): (r: Result<Points>)
    ensures r.Ok? <==> forall j :: 0 <= j < |rs| ==> rs[j] >= 0.0
    ensures r.Ok? ==> |r.value.x| == |rs| && |r.value.y| == |rs| && Uniform(r.value.y, yBase)
    ensures r.Ok? ==> forall j :: 0 <= j < |rs| ==> Abs(r.value.x[j] - xCenter) == rs[j]
    ensures r.Ok? && side == Right ==> forall j :: 0 <= j < |rs| ==> r.value.x[j] >= xCenter
    ensures r.Ok? && side == Left ==> forall j :: 0 <= j < |rs| ==> r.value.x[j] <= xCenter
  {
    if exists j :: 0 <= j < |rs| && rs[j] < 0.0 then Err(InvalidArgument)
    else Ok(Place(rs, side, xCenter, yBase))
  }

  /** The edge points `x_k + r cos(theta)`, `y = yBase` for every radius,
      whatever its sign: the computation both the mapping and the
      continuity check perform. */
  function Place(rs: seq<real>, side: Side, xCenter: real, yBase: real): (q: Points)
    ensures |q.x| == |rs| && |q.y| == |rs| && Uniform(q.y, yBase)
    ensures forall j :: 0 <= j < |rs| && rs[j] >= 0.0 ==> Abs(q.x[j] - xCenter) == rs[j]
    ensures forall j :: 0 <= j < |rs| && rs[j] < 0.0 ==> Abs(q.x[j] - xCenter) == -rs[j]
  {
    Points(seq(|rs|, j requires 0 <= j < |rs| => Along(xCenter, rs[j], side)), Fill(|rs|, yBase))
  }

  /** `x_k + r cos(theta)` on one edge. */
  function Along(xCenter: real, r: real, side: Side): (x: real)
    ensures r >= 0.0 ==> Abs(x - xCenter) == r
    ensures r >= 0.0 && side == Right ==> x >= xCenter
    ensures r >= 0.0 && side == Left ==> x <= xCenter
  {
    xCenter + r * Cos(side)
  }

  /** The two edges are mirror images of each other about the fin's centre. */
  lemma MapMirror(rs: seq<real>, xCenter: real, yBase: real)
    requires MapToPlate(rs, Right, xCenter, yBase).Ok?
    ensures MapToPlate(rs, Left, xCenter, yBase).Ok?
    ensures var right, left := MapToPlate(rs, Right, xCenter, yBase).value, MapToPlate(rs, Left, xCenter, yBase).value;
      && left.y == right.y
      && forall j :: 0 <= j < |rs| ==> right.x[j] + left.x[j] == 2.0 * xCenter
  {
  }

  /** A fin lying inside the plate's length maps into the plate's length. */
  lemma MapInside(rs: seq<real>, side: Side, xCenter: real, yBase: real, radius: real, lx: real)
    requires Within(rs, 0.0, radius) && radius <= xCenter <= lx - radius
    ensures MapToPlate(rs, side, xCenter, yBase).Ok?
    ensures Within(MapToPlate(rs, side, xCenter, yBase).value.x, 0.0, lx)
  {
  }

  /** Every query point lies in the rectangle spanned by the grid's extremes. */
  predicate InDomain(q: Points, xg: seq<real>, yg: seq<real>)
    requires |q.x| == |q.y| && |xg| > 0 && |yg| > 0
  {
    forall i :: 0 <= i < |q.x| ==> Min(xg) <= q.x[i] <= Max(xg) && Min(yg) <= q.y[i] <= Max(yg)
  }

  /** What a linear `RegularGridInterpolator` demands of its grid: at least
      two strictly increasing coordinates per axis and values of matching shape. */
  predicate GridOk(t: Field, xg: seq<real>, yg: seq<real>) {
    |xg| >= 2 && |yg| >= 2 && Increasing(xg) && Increasing(yg) && IsGrid(t, |xg|, |yg|)
  }

  /** Everything the lookup needs to succeed. */
  predicate CanLookUp(t: Field, q: Points, pm: PlateMesh) {
    && |q.x| == |q.y| > 0 && GridOk(t, pm.x, pm.y)
    && InDomain(q, pm.x, pm.y)
  }

  /** Bilinear values at every query point. */
  function BilinearAll(t: Field, q: Points, xg: seq<real>, yg: seq<real>): (v: seq<real>)
    requires |q.x| == |q.y| && GridOk(t, xg, yg) && InDomain(q, xg, yg)
    ensures |v| == |q.x|
    ensures forall i :: 0 <= i < |q.x| ==> Queryable(t, xg, yg, q.x[i], q.y[i]) && v[i] == Bilinear(t, xg, yg, q.x[i], q.y[i])
  {
    IncreasingExtremes(xg);
    IncreasingExtremes(yg);
    seq(|q.x|, i requires 0 <= i < |q.x| => Bilinear(t, xg, yg, q.x[i], q.y[i]))
  }

  /** `interpolar_temperatura_placa_2d`: bounds-checked bilinear lookup of
      the (Nx, Ny) plate field at the query points, then the check that no
      value leaves the field's range by more than 1 K. That check never
      fails: every value stays inside [min, max] of the field. */
  function Lookup(t: Field, q: Points, pm: PlateMesh): (r: Result<seq<real>>)
    ensures |q.x| != |q.y| ==> r == Err(ShapeMismatch)
    ensures |q.x| == |q.y| && |pm.x| > 0 && |pm.y| > 0 && !InDomain(q, pm.x, pm.y) ==> r == Err(OutOfBounds)
    ensures r.Ok? <==> CanLookUp(t, q, pm)
    ensures r.Ok? ==> |r.value| == |q.x|
    ensures r.Ok? ==> forall i :: 0 <= i < |q.x| ==> Queryable(t, pm.x, pm.y, q.x[i], q.y[i]) && r.value[i] == Bilinear(t, pm.x, pm.y, q.x[i], q.y[i])
    ensures r.Ok? ==> NonEmpty2(t) && Within(r.value, Min2(t), Max2(t))
  {
    if |q.x| != |q.y| then Err(ShapeMismatch)
    else if |pm.x| == 0 || |pm.y| == 0 then Err(InvalidArgument)
    else if !InDomain(q, pm.x, pm.y) then Err(OutOfBounds)
    else if !GridOk(t, pm.x, pm.y) then Err(InvalidArgument)
    else if |q.x| == 0 then Err(InvalidArgument)
    else
      var v := BilinearAll(t, q, pm.x, pm.y);
      assert NonEmpty2(t);
      LookupWithin(t, q, pm.x, pm.y, v);
      RangeChecked(t, v)
  }

  /** The lookup's closing check: no value more than 1 K outside the range of
      the field. It passes whenever every value lies inside that range. */
  function RangeChecked(t: Field, v: seq<real>): (r: Result<seq<real>>)
    requires NonEmpty2(t) && |v| > 0 && Within(v, Min2(t), Max2(t))
    ensures r == Ok(v)
  {
    ExtremesWithin(v, Min2(t), Max2(t));
    if !(Min(v) >= Min2(t) - 1.0 && Max(v) <= Max2(t) + 1.0) then Err(PhysicalRange)
    else Ok(v)
  }

  lemma LookupWithin(t: Field, q: Points, xg: seq<real>, yg: seq<real>, v: seq<real>)
    requires |q.x| == |q.y| && GridOk(t, xg, yg) && InDomain(q, xg, yg) && NonEmpty2(t)
    requires v == BilinearAll(t, q, xg, yg)
    ensures Within(v, Min2(t), Max2(t))
  {
    assert Within2(t, Min2(t), Max2(t));
    forall i | 0 <= i < |v| ensures Min2(t) <= v[i] <= Max2(t) {
      BilinearWithin(t, xg, yg, q.x[i], q.y[i], Min2(t), Max2(t));
    }
  }

  /** At a grid node the lookup returns that node's value. */
  lemma LookupAtNode(t: Field, pm: PlateMesh, a: nat, b: nat)
    requires GridOk(t, pm.x, pm.y) && a < |pm.x| && b < |pm.y|
    ensures Lookup(t, Points([pm.x[a]], [pm.y[b]]), pm) == Ok([t[a][b]])
  {
    var q := Points([pm.x[a]], [pm.y[b]]);
    NodeInDomain(pm.x, a);
    NodeInDomain(pm.y, b);
    assert InDomain(q, pm.x, pm.y);
    LookupSingle(t, q, pm);
    BilinearAtNode(t, pm.x, pm.y, a, b);
  }

  /** A lookup of one point that can be looked up is its bilinear value. */
  lemma LookupSingle(t: Field, q: Points, pm: PlateMesh)
    requires |q.x| == 1 && CanLookUp(t, q, pm)
    ensures Queryable(t, pm.x, pm.y, q.x[0], q.y[0])
    ensures Lookup(t, q, pm) == Ok([Bilinear(t, pm.x, pm.y, q.x[0], q.y[0])])
  {
    OneLookupValue(t, q, pm);
    OneLookupSeq(t, q, pm);
  }

  lemma OneLookupValue(t: Field, q: Points, pm: PlateMesh)
    requires |q.x| == 1 && Lookup(t, q, pm).Ok?
    ensures Queryable(t, pm.x, pm.y, q.x[0], q.y[0])
    ensures Lookup(t, q, pm).value[0] == Bilinear(t, pm.x, pm.y, q.x[0], q.y[0])
  {
  }

  lemma OneLookupSeq(t: Field, q: Points, pm: PlateMesh)
    requires |q.x| == 1 && Lookup(t, q, pm).Ok? && Queryable(t, pm.x, pm.y, q.x[0], q.y[0])
    requires Lookup(t, q, pm).value[0] == Bilinear(t, pm.x, pm.y, q.x[0], q.y[0])
    ensures Lookup(t, q, pm) == Ok([Bilinear(t, pm.x, pm.y, q.x[0], q.y[0])])
  {
    Singleton(Lookup(t, q, pm).value, Bilinear(t, pm.x, pm.y, q.x[0], q.y[0]));
  }

  lemma NodeInDomain(g: seq<real>, a: nat)
    requires |g| >= 2 && Increasing(g) && a < |g|
    ensures Min(g) <= g[a] <= Max(g)
  {
    IncreasingExtremes(g);
    if a > 0 { assert g[0] < g[a]; }
    if a < |g| - 1 { assert g[a] < g[|g| - 1]; }
  }

  /** Queries on the plate's top face `y = yg[Ny-1]` (every fin query) are
      plain linear interpolation along the top column of the field. */
  lemma LookupOnTopFace(t: Field, q: Points, pm: PlateMesh)
    requires Lookup(t, q, pm).Ok? && Uniform(q.y, pm.y[|pm.y| - 1])
    ensures forall i :: 0 <= i < |q.x| ==> Lookup(t, q, pm).value[i] == Linear(q.x[i], pm.x, Column(t, |pm.y| - 1))
  {
    TopFaceValues(t, q, pm.x, pm.y, Lookup(t, q, pm).value);
  }

  lemma TopFaceValues(t: Field, q: Points, xg: seq<real>, yg: seq<real>, v: seq<real>)
    requires |xg| > 0 && |yg| >= 2 && IsGrid(t, |xg|, |yg|) && |v| == |q.x| == |q.y| && Uniform(q.y, yg[|yg| - 1])
    requires forall i :: 0 <= i < |q.x| ==> Queryable(t, xg, yg, q.x[i], q.y[i]) && v[i] == Bilinear(t, xg, yg, q.x[i], q.y[i])
    ensures forall i :: 0 <= i < |q.x| ==> v[i] == Linear(q.x[i], xg, Column(t, |yg| - 1))
  {
    forall i | 0 <= i < |q.x|
      ensures v[i] == Linear(q.x[i], xg, Column(t, |yg| - 1))
    {
      TopFaceValue(t, xg, yg, q.x[i], q.y[i], v[i]);
    }
  }

  lemma TopFaceValue(t: Field, xg: seq<real>, yg: seq<real>, x: real, y: real, w: real)
    requires |yg| >= 2 && y == yg[|yg| - 1] && Queryable(t, xg, yg, x, y) && w == Bilinear(t, xg, yg, x, y)
    ensures w == Linear(x, xg, Column(t, |yg| - 1))
  {
    BilinearOnLastColumn(t, xg, yg, x);
  }

  // ---------------------------------------------------------------------------
  // Fin edges
  // ---------------------------------------------------------------------------

  /** The meshes the coupling reads are those built from `p`. */
  predicate Fits(p: Params, pm: PlateMesh, fins: seq<FinMesh>) {
    && Spacings(p) && |p.finCenters| == 3 && |fins| == 3
    && |pm.x| == p.nxPlate && |pm.y| == p.nyPlate
    && (forall k :: 0 <= k < 3 ==> |fins[k].r| == p.nr)
  }

  /** The plate temperatures under one edge of fin `k`: its radii mapped
      onto the plate's top face `y = e_base` about the fin's centre, then
      looked up. */
  function EdgeValues(t: Field, p: Params, pm: PlateMesh, fins: seq<FinMesh>, k: nat, side: Side): (r: Result<seq<real>>)
    requires Fits(p, pm, fins) && k < 3
    ensures r.Ok? ==> |r.value| == p.nr && NonEmpty2(t) && Within(r.value, Min2(t), Max2(t))
  {
    match MapToPlate(fins[k].r, side, p.finCenters[k], p.eBase)
    case Err(e) => Err(e)
    case Ok(q) => Lookup(t, q, pm)
  }

  /** The plate temperatures under both edges of one fin. */
  datatype Edges = Edges(right: Result<seq<real>>, left: Result<seq<real>>)

  function EdgesOf(t: Field, p: Params, pm: PlateMesh, fins: seq<FinMesh>, k: nat): Edges
    requires Fits(p, pm, fins) && k < 3
  {
    Edges(EdgeValues(t, p, pm, fins, k, Right), EdgeValues(t, p, pm, fins, k, Left))
  }

  /** The edges of the three fins, in index order. */
  function AllEdges(t: Field, p: Params, pm: PlateMesh, fins: seq<FinMesh>): (es: seq<Edges>)
    requires Fits(p, pm, fins)
    ensures |es| == 3
  {
    seq(3, k requires 0 <= k < 3 => EdgesOf(t, p, pm, fins, k))
  }

  /** One fin of `aplicar_acoplamiento_placa_aletas`: in a copy of the fin's
      field, row 0 (theta = 0) and row Ntheta-1 (theta = pi) are overwritten
      with the plate temperatures under those edges; every other row and
      the field's shape are kept. A failed lookup or a row of the wrong
      width fails the coupling. */
  function CoupleFin(tfin: Field, e: Edges, ntheta: int): (r: Result<Field>)
    requires ntheta >= 2
    ensures r.Ok? <==> && e.right.Ok? && e.left.Ok? && |e.left.value| == |e.right.value|
                       && IsGrid(tfin, |tfin|, |e.right.value|) && |tfin| >= ntheta
    ensures r.Ok? ==> IsGrid(r.value, |tfin|, |tfin[0]|)
    ensures r.Ok? ==> r.value[0] == e.right.value && r.value[ntheta - 1] == e.left.value
    ensures r.Ok? ==> forall m :: 0 < m < |tfin| && m != ntheta - 1 ==> r.value[m] == tfin[m]
  {
    match e.right
    case Err(err) => Err(err)
    case Ok(v0) =>
      if |tfin| == 0 || !IsGrid(tfin, |tfin|, |v0|) then Err(ShapeMismatch)
      else
        match e.left
        case Err(err) => Err(err)
        case Ok(vpi) =>
          if |tfin| < ntheta || |vpi| != |v0| then Err(ShapeMismatch)
          else Ok(tfin[0 := v0][ntheta - 1 := vpi])
  }

  /** The loop of `aplicar_acoplamiento_placa_aletas` from fin `k` on: the
      fins coupled in index order, the first failure ending the loop. */
  function CoupleFrom(tfins: seq<Field>, es: seq<Edges>, ntheta: int, k: nat): (r: Result<seq<Field>>)
    requires |es| == |tfins| && k <= |tfins| && ntheta >= 2
    decreases |tfins| - k
    ensures r.Ok? <==> forall i :: k <= i < |tfins| ==> CoupleFin(tfins[i], es[i], ntheta).Ok?
    ensures r.Ok? ==> |r.value| == |tfins| - k
    ensures r.Ok? ==> forall i :: k <= i < |tfins| ==> CoupleFin(tfins[i], es[i], ntheta) == Ok(r.value[i - k])
  {
    if k == |tfins| then Ok([])
    else
      match CoupleFin(tfins[k], es[k], ntheta)
      case Err(e) => Err(e)
      case Ok(c) =>
        match CoupleFrom(tfins, es, ntheta, k + 1)
        case Err(e) => Err(e)
        case Ok(rest) => Ok([c] + rest)
  }

  /** The fins coupled in turn with their edges `es`, then the 200-500 K
      check on every coupled fin. It succeeds exactly when every fin can be
      coupled and every coupled fin passes the check. */
  function CoupleWith(tfins: seq<Field>, es: seq<Edges>, ntheta: int): (r: Result<seq<Field>>)
    requires |es| == |tfins| && ntheta >= 2
    ensures r.Ok? <==> && (forall k :: 0 <= k < |tfins| ==> CoupleFin(tfins[k], es[k], ntheta).Ok?)
                       && (forall k :: 0 <= k < |tfins| ==> FinInRange(CoupleFin(tfins[k], es[k], ntheta).value))
    ensures r.Ok? ==> |r.value| == |tfins|
    ensures r.Ok? ==> forall k :: 0 <= k < |tfins| ==> CoupleFin(tfins[k], es[k], ntheta) == Ok(r.value[k])
    ensures r.Ok? ==> forall k :: 0 <= k < |tfins| ==> StrictlyWithin2(r.value[k], 200.0, 500.0)
  {
    match CoupleFrom(tfins, es, ntheta, 0)
    case Err(e) => Err(e)
    case Ok(cs) =>
      CoupledFrom(tfins, es, ntheta, cs);
      InRange(cs)
  }

  /** The loop from fin 0 yields one coupled fin per input fin, in order. */
  lemma CoupledFrom(tfins: seq<Field>, es: seq<Edges>, ntheta: int, cs: seq<Field>)
    requires |es| == |tfins| && ntheta >= 2 && CoupleFrom(tfins, es, ntheta, 0) == Ok(cs)
    ensures |cs| == |tfins|
    ensures forall k :: 0 <= k < |tfins| ==> CoupleFin(tfins[k], es[k], ntheta) == Ok(cs[k])
  {
    forall k | 0 <= k < |tfins| ensures CoupleFin(tfins[k], es[k], ntheta) == Ok(cs[k]) {
      assert cs[k - 0] == cs[k];
    }
  }

  /** `aplicar_acoplamiento_placa_aletas`: exactly three fins, each coupled
      with the plate temperatures under its own edges. */
  function Couple(t: Field, tfins: seq<Field>, p: Params, pm: PlateMesh, fins: seq<FinMesh>): (r: Result<seq<Field>>)
    requires Fits(p, pm, fins)
    ensures |tfins| != 3 ==> r == Err(ShapeMismatch)
    ensures |tfins| == 3 ==> r == CoupleWith(tfins, AllEdges(t, p, pm, fins), p.ntheta)
  {
    if |tfins| != 3 then Err(ShapeMismatch)
    else CoupleWith(tfins, AllEdges(t, p, pm, fins), p.ntheta)
  }

  /** The output check of the coupling: the field is non-empty and its
      extremes lie strictly inside (200, 500) K. */
  predicate FinInRange(c: Field) {
    NonEmpty2(c) && InBand2(c, 200.0, 500.0)
  }

  /** The coupled fins, once each passes the output check. */
  function InRange(cs: seq<Field>): (r: Result<seq<Field>>)
    ensures r.Ok? <==> forall k :: 0 <= k < |cs| ==> FinInRange(cs[k])
    ensures r.Ok? ==> r.value == cs && forall k :: 0 <= k < |cs| ==> StrictlyWithin2(cs[k], 200.0, 500.0)
    ensures r.Err? ==> r.error == PhysicalRange
  {
    if forall k :: 0 <= k < |cs| ==> FinInRange(cs[k]) then
      FinsInBand(cs);
      Ok(cs)
    else Err(PhysicalRange)
  }

  lemma FinsInBand(cs: seq<Field>)
    requires forall k :: 0 <= k < |cs| ==> FinInRange(cs[k])
    ensures forall k :: 0 <= k < |cs| ==> StrictlyWithin2(cs[k], 200.0, 500.0)
  {
    forall k | 0 <= k < |cs| ensures StrictlyWithin2(cs[k], 200.0, 500.0) {
      InBand2Iff(cs[k], 200.0, 500.0);
    }
  }

  // ---------------------------------------------------------------------------
  // When the coupling succeeds
  // ---------------------------------------------------------------------------

  /** The geometry the coupling relies on: an increasing plate grid from
      x = 0 to x = Lx whose top row sits at y = e_base, every fin radius
      in [0, R], and every fin lying inside the plate's length. */
  predicate Placed(p: Params, pm: PlateMesh, fins: seq<FinMesh>) {
    && Fits(p, pm, fins)
    && Increasing(pm.x) && Increasing(pm.y)
    && pm.x[0] == 0.0 && pm.x[p.nxPlate - 1] == p.lx && pm.y[p.nyPlate - 1] == p.eBase
    && forall k :: 0 <= k < 3 ==> Within(fins[k].r, 0.0, p.radius) && p.radius <= p.finCenters[k] <= p.lx - p.radius
  }

  /** The meshes built from a parameter set whose fins lie inside the plate
      form a placed geometry. */
  lemma MeshesPlaced(p: Params)
    requires Spacings(p) && Divisible(p) && |p.finCenters| == 3 && AllMeshes(p).Ok?
    requires forall k :: 0 <= k < 3 ==> p.radius <= p.finCenters[k] <= p.lx - p.radius
    ensures Placed(p, AllMeshes(p).value.plate, AllMeshes(p).value.fins)
  {
    PlateGridIncreasing(p);
    FinRadiiWithin(p);
  }

  /** Every constructed parameter set, with the meshes built from it, is a
      placed geometry: fins centred at 5, 15 and 25 mm with radius 4 mm sit
      inside the 30 mm plate. */
  lemma DefaultsPlaced(name: string)
    requires New(name).Ok?
    ensures Spacings(New(name).value) && |New(name).value.finCenters| == 3 && AllMeshes(New(name).value).Ok?
    ensures var p := New(name).value;
      Placed(p, AllMeshes(p).value.plate, AllMeshes(p).value.fins)
  {
    DefaultMeshesExist(name);
    DefaultGeometry(name);
    MeshesPlaced(New(name).value);
  }

  /** On a placed geometry every edge lookup is in bounds and succeeds. */
  lemma EdgeValuesOk(t: Field, p: Params, pm: PlateMesh, fins: seq<FinMesh>, k: nat, side: Side)
    requires Placed(p, pm, fins) && k < 3 && IsGrid(t, p.nxPlate, p.nyPlate)
    ensures EdgeValues(t, p, pm, fins, k, side).Ok?
  {
    MapInside(fins[k].r, side, p.finCenters[k], p.eBase, p.radius, p.lx);
    var q := MapToPlate(fins[k].r, side, p.finCenters[k], p.eBase).value;
    IncreasingExtremes(pm.x);
    IncreasingExtremes(pm.y);
    assert pm.y[0] < pm.y[p.nyPlate - 1];
    assert InDomain(q, pm.x, pm.y);
    assert CanLookUp(t, q, pm);
  }

  /** A fin and edges strictly inside (200, 500) K couple into a fin that
      passes the output check. */
  lemma CoupledFinInRange(tfin: Field, e: Edges, ntheta: int, n: nat)
    requires ntheta >= 2 && n >= 1 && IsGrid(tfin, ntheta as nat, n) && StrictlyWithin2(tfin, 200.0, 500.0)
    requires e.right.Ok? && e.left.Ok? && |e.right.value| == n && |e.left.value| == n
    requires StrictlyWithin(e.right.value, 200.0, 500.0) && StrictlyWithin(e.left.value, 200.0, 500.0)
    ensures CoupleFin(tfin, e, ntheta).Ok? && FinInRange(CoupleFin(tfin, e, ntheta).value)
  {
    var c := CoupleFin(tfin, e, ntheta).value;
    assert StrictlyWithin2(c, 200.0, 500.0) by {
      forall m | 0 <= m < |c| ensures StrictlyWithin(c[m], 200.0, 500.0) {
        if m != 0 && m != ntheta - 1 {
          assert c[m] == tfin[m];
        }
      }
    }
    InBand2Iff(c, 200.0, 500.0);
  }

  /** Plate values strictly inside the band give edge values strictly inside it. */
  lemma EdgesInBand(t: Field, s: seq<real>)
    requires NonEmpty2(t) && StrictlyWithin2(t, 200.0, 500.0) && Within(s, Min2(t), Max2(t))
    ensures StrictlyWithin(s, 200.0, 500.0)
  {
    InBand2Iff(t, 200.0, 500.0);
  }

  /** The coupling cannot fail on a placed geometry when the plate and the
      fins are strictly inside (200, 500) K and have their meshes' shapes. */
  lemma CoupleSucceeds(t: Field, tfins: seq<Field>, p: Params, pm: PlateMesh, fins: seq<FinMesh>)
    requires Placed(p, pm, fins) && IsGrid(t, p.nxPlate, p.nyPlate) && StrictlyWithin2(t, 200.0, 500.0)
    requires |tfins| == 3
    requires forall k :: 0 <= k < 3 ==> IsGrid(tfins[k], p.ntheta as nat, p.nr as nat) && StrictlyWithin2(tfins[k], 200.0, 500.0)
    ensures Couple(t, tfins, p, pm, fins).Ok?
  {
    var es := AllEdges(t, p, pm, fins);
    forall k | 0 <= k < 3
      ensures CoupleFin(tfins[k], es[k], p.ntheta).Ok? && FinInRange(CoupleFin(tfins[k], es[k], p.ntheta).value)
    {
      EdgeValuesOk(t, p, pm, fins, k, Right);
      EdgeValuesOk(t, p, pm, fins, k, Left);
      EdgesInBand(t, es[k].right.value);
      EdgesInBand(t, es[k].left.value);
      CoupledFinInRange(tfins[k], es[k], p.ntheta, p.nr as nat);
    }
  }

  /** Three fins of shape (ntheta, nr) at one temperature `v`. */
  function UniformFins(ntheta: nat, nr: nat, v: real): (fs: seq<Field>)
    ensures |fs| == 3
    ensures forall k :: 0 <= k < 3 ==> fs[k] == Fill2(ntheta, nr, v)
  {
    seq(3, _ => Fill2(ntheta, nr, v))
  }

  /** Edge values read off a uniform plate are that plate's temperature. */
  lemma UniformEdge(t: Field, s: seq<real>, v: real)
    requires NonEmpty2(t) && (forall i, j :: 0 <= i < |t| && 0 <= j < |t[i]| ==> t[i][j] == v)
    requires Within(s, Min2(t), Max2(t))
    ensures s == Fill(|s|, v)
  {
    assert Min2(t) == v && Max2(t) == v;
  }

  /** Writing a uniform fin's own temperature onto its edge rows changes nothing. */
  lemma CoupledUniformFin(f: Field, e: Edges, ntheta: int, n: nat, v: real)
    requires ntheta >= 2 && f == Fill2(ntheta as nat, n, v)
    requires e.right == Ok(Fill(n, v)) && e.left == Ok(Fill(n, v))
    ensures CoupleFin(f, e, ntheta) == Ok(f)
  {
    assert IsGrid(f, |f|, n);
    assert CoupleFin(f, e, ntheta).Ok?;
    var c := CoupleFin(f, e, ntheta).value;
    forall m | 0 <= m < |f| ensures c[m] == f[m] {
      if m == 0 || m == ntheta - 1 {
        assert f[m] == Fill(n, v);
      }
    }
    assert c == f;
  }

  /** The edges of fin `k` over a uniform plate carry the plate's temperature. */
  lemma UniformEdges(p: Params, pm: PlateMesh, fins: seq<FinMesh>, k: nat, v: real)
    requires Placed(p, pm, fins) && k < 3
    ensures EdgesOf(Fill2(p.nxPlate, p.nyPlate, v), p, pm, fins, k)
            == Edges(Ok(Fill(p.nr as nat, v)), Ok(Fill(p.nr as nat, v)))
  {
    var t := Fill2(p.nxPlate, p.nyPlate, v);
    EdgeValuesOk(t, p, pm, fins, k, Right);
    EdgeValuesOk(t, p, pm, fins, k, Left);
    UniformEdge(t, EdgeValues(t, p, pm, fins, k, Right).value, v);
    UniformEdge(t, EdgeValues(t, p, pm, fins, k, Left).value, v);
  }

  /** A uniform fin inside the band passes the output check. */
  lemma UniformInRange(f: Field, rows: nat, cols: nat, v: real)
    requires rows >= 1 && cols >= 1 && f == Fill2(rows, cols, v) && 200.0 < v < 500.0
    ensures FinInRange(f)
  {
    InBand2Iff(f, 200.0, 500.0);
  }

  /** When every fin couples to itself and passes the check, the coupling
      returns the fins unchanged. */
  lemma CoupleWithKeeps(tfins: seq<Field>, es: seq<Edges>, ntheta: int)
    requires |es| == |tfins| && ntheta >= 2
    requires forall k :: 0 <= k < |tfins| ==> CoupleFin(tfins[k], es[k], ntheta) == Ok(tfins[k])
    requires forall k :: 0 <= k < |tfins| ==> FinInRange(tfins[k])
    ensures CoupleWith(tfins, es, ntheta) == Ok(tfins)
  {
    var r := CoupleWith(tfins, es, ntheta);
    assert r.Ok?;
    forall k | 0 <= k < |tfins| ensures r.value[k] == tfins[k] {
      assert CoupleFin(tfins[k], es[k], ntheta) == Ok(r.value[k]);
    }
    assert r.value == tfins;
  }

  /** Equilibrium: a plate and three fins all at one temperature inside the
      band stay exactly as they are under the coupling. */
  lemma CoupleUniform(p: Params, pm: PlateMesh, fins: seq<FinMesh>, v: real)
    requires Placed(p, pm, fins) && 200.0 < v < 500.0
    ensures Couple(Fill2(p.nxPlate, p.nyPlate, v), UniformFins(p.ntheta as nat, p.nr as nat, v), p, pm, fins)
            == Ok(UniformFins(p.ntheta as nat, p.nr as nat, v))
  {
    var t := Fill2(p.nxPlate, p.nyPlate, v);
    var fs := UniformFins(p.ntheta as nat, p.nr as nat, v);
    var es := AllEdges(t, p, pm, fins);
    forall k | 0 <= k < 3 ensures CoupleFin(fs[k], es[k], p.ntheta) == Ok(fs[k]) && FinInRange(fs[k]) {
      UniformEdges(p, pm, fins, k, v);
      CoupledUniformFin(fs[k], es[k], p.ntheta, p.nr as nat, v);
      UniformInRange(fs[k], p.ntheta as nat, p.nr as nat, v);
    }
    CoupleWithKeeps(fs, es, p.ntheta);
  }

  // ---------------------------------------------------------------------------
  // Continuity diagnostic
  // ---------------------------------------------------------------------------

  /** The result of `verificar_continuidad_temperatura`. */
  datatype Diagnosis = Diagnosis(maxError: real, meanError: real, ok: bool, perFin: seq<real>)

  /** `np.abs(a - b).max()`: the largest pointwise deviation. */
  function MaxDeviation(a: seq<real>, b: seq<real>): (d: real)
    requires |a| == |b| > 0
    ensures forall i :: 0 <= i < |a| ==> Abs(a[i] - b[i]) <= d
    ensures exists i :: 0 <= i < |a| && Abs(a[i] - b[i]) == d
  {
    var dev := seq(|a|, i requires 0 <= i < |a| => Abs(a[i] - b[i]));
    assert forall i :: 0 <= i < |a| ==> dev[i] == Abs(a[i] - b[i]);
    Max(dev)
  }

  /** The error of one fin: the largest deviation of its first and last
      angular rows from the plate temperatures under the two edges. */
  function FinError(tfin: Field, e: Edges): (r: Result<real>)
    ensures r.Ok? ==> |tfin| > 0 && e.right.Ok? && e.left.Ok?
    ensures r.Ok? ==> r.value >= 0.0
    ensures r.Ok? ==> (r.value == 0.0 <==> tfin[0] == e.right.value && tfin[|tfin| - 1] == e.left.value)
  {
    if |tfin| == 0 then Err(ShapeMismatch)
    else
      match e.right
      case Err(err) => Err(err)
      case Ok(v0) =>
        match e.left
        case Err(err) => Err(err)
        case Ok(vpi) =>
          if |tfin[0]| != |v0| || |tfin[|tfin| - 1]| != |vpi| then Err(ShapeMismatch)
          else if |v0| == 0 || |vpi| == 0 then Err(InvalidArgument)
          else
            var e0, epi := MaxDeviation(tfin[0], v0), MaxDeviation(tfin[|tfin| - 1], vpi);
            DeviationZero(tfin[0], v0);
            DeviationZero(tfin[|tfin| - 1], vpi);
            Ok(if e0 >= epi then e0 else epi)
  }

  /** The largest deviation is zero exactly when the arrays are equal. */
  lemma DeviationZero(a: seq<real>, b: seq<real>)
    requires |a| == |b| > 0
    ensures MaxDeviation(a, b) >= 0.0
    ensures MaxDeviation(a, b) == 0.0 <==> a == b
  {
    var d := MaxDeviation(a, b);
    var i :| 0 <= i < |a| && Abs(a[i] - b[i]) == d;
    if d == 0.0 {
      forall j | 0 <= j < |a| ensures a[j] == b[j] {
        assert Abs(a[j] - b[j]) <= d;
      }
    }
  }

  /** `verificar_continuidad_temperatura` with the fins' edges `es`: the
      error of each of the first three fins, their maximum and mean, and
      whether the maximum is below the tolerance. */
  function ContinuityWith(tfins: seq<Field>, es: seq<Edges>, tol: real): (r: Result<Diagnosis>)
    requires |es| == 3
    ensures |tfins| < 3 ==> r == Err(ShapeMismatch)
    ensures r.Ok? <==> |tfins| >= 3 && FinError(tfins[0], es[0]).Ok? && FinError(tfins[1], es[1]).Ok?
                       && FinError(tfins[2], es[2]).Ok?
    ensures r.Ok? ==> r.value.perFin == [FinError(tfins[0], es[0]).value, FinError(tfins[1], es[1]).value,
                                         FinError(tfins[2], es[2]).value]
    ensures r.Ok? ==> (forall k :: 0 <= k < 3 ==> 0.0 <= r.value.perFin[k] <= r.value.maxError)
                      && (exists k :: 0 <= k < 3 && r.value.perFin[k] == r.value.maxError)
    ensures r.Ok? ==> 0.0 <= r.value.meanError <= r.value.maxError
    ensures r.Ok? ==> 3.0 * r.value.meanError == r.value.perFin[0] + r.value.perFin[1] + r.value.perFin[2]
    ensures r.Ok? ==> (r.value.ok <==> r.value.maxError < tol)
  {
    if |tfins| < 3 then Err(ShapeMismatch)
    else
      match FinError(tfins[0], es[0])
      case Err(e) => Err(e)
      case Ok(e0) =>
        match FinError(tfins[1], es[1])
        case Err(e) => Err(e)
        case Ok(e1) =>
          match FinError(tfins[2], es[2])
          case Err(e) => Err(e)
          case Ok(e2) =>
            Ok(Summarize(e0, e1, e2, tol))
  }

  /** The diagnosis from the three fin errors: their maximum, their mean and
      whether the maximum is below the tolerance. */
  function Summarize(e0: real, e1: real, e2: real, tol: real): (d: Diagnosis)
    requires e0 >= 0.0 && e1 >= 0.0 && e2 >= 0.0
    ensures d.perFin == [e0, e1, e2]
    ensures forall k :: 0 <= k < 3 ==> 0.0 <= d.perFin[k] <= d.maxError
    ensures exists k :: 0 <= k < 3 && d.perFin[k] == d.maxError
    ensures 0.0 <= d.meanError <= d.maxError
    ensures 3.0 * d.meanError == e0 + e1 + e2
    ensures d.ok <==> d.maxError < tol
  {
    var errors := [e0, e1, e2];
    var m := Max(errors);
    assert errors[0] == e0 && errors[1] == e1 && errors[2] == e2;
    Diagnosis(m, (e0 + e1 + e2) / 3.0, m < tol, errors)
  }

  /** The plate temperatures the continuity check reads under one edge of
      fin `k`. It places the points itself, with no check on the sign of
      the radii, and looks them up; wherever the coupling's mapping
      succeeds the two give the same values. */
  function CheckedEdgeValues(t: Field, p: Params, pm: PlateMesh, fins: seq<FinMesh>, k: nat, side: Side): (r: Result<seq<real>>)
    requires Fits(p, pm, fins) && k < 3
    ensures r.Ok? ==> |r.value| == p.nr && NonEmpty2(t) && Within(r.value, Min2(t), Max2(t))
    ensures MapToPlate(fins[k].r, side, p.finCenters[k], p.eBase).Ok? ==> r == EdgeValues(t, p, pm, fins, k, side)
    ensures EdgeValues(t, p, pm, fins, k, side).Ok? ==> r == EdgeValues(t, p, pm, fins, k, side)
  {
    Lookup(t, Place(fins[k].r, side, p.finCenters[k], p.eBase), pm)
  }

  /** Both edges of every fin, as the continuity check reads them. */
  function CheckedEdges(t: Field, p: Params, pm: PlateMesh, fins: seq<FinMesh>): (es: seq<Edges>)
    requires Fits(p, pm, fins)
    ensures |es| == 3
    ensures forall k :: 0 <= k < 3 ==>
      es[k].right == CheckedEdgeValues(t, p, pm, fins, k, Right) && es[k].left == CheckedEdgeValues(t, p, pm, fins, k, Left)
  {
    seq(3, k requires 0 <= k < 3 =>
      Edges(CheckedEdgeValues(t, p, pm, fins, k, Right), CheckedEdgeValues(t, p, pm, fins, k, Left)))
  }

  /** `verificar_continuidad_temperatura` on the program's meshes. Its edge
      points come from `CheckedEdges`, so a negative radius is looked up
      like any other point rather than rejected; when every edge the
      coupling maps exists, the check reads exactly those edges. */
  function Continuity(t: Field, tfins: seq<Field>, p: Params, pm: PlateMesh, fins: seq<FinMesh>, tol: real): (r: Result<Diagnosis>)
    requires Fits(p, pm, fins)
    ensures |tfins| < 3 ==> r == Err(ShapeMismatch)
    ensures r.Ok? ==> |r.value.perFin| == 3 && 0.0 <= r.value.meanError <= r.value.maxError
                      && 3.0 * r.value.meanError == r.value.perFin[0] + r.value.perFin[1] + r.value.perFin[2]
                      && (r.value.ok <==> r.value.maxError < tol)
    ensures EdgesMapped(t, p, pm, fins) ==> r == ContinuityWith(tfins, AllEdges(t, p, pm, fins), tol)
  {
    CheckedEdgesAgree(t, p, pm, fins);
    ContinuityWith(tfins, CheckedEdges(t, p, pm, fins), tol)
  }

  /** Every edge of every fin maps and looks up without error. */
  predicate EdgesMapped(t: Field, p: Params, pm: PlateMesh, fins: seq<FinMesh>)
    requires Fits(p, pm, fins)
  {
    forall k :: 0 <= k < 3 ==> EdgeValues(t, p, pm, fins, k, Right).Ok? && EdgeValues(t, p, pm, fins, k, Left).Ok?
  }

  /** Where the coupling's edges all exist, the continuity check reads the
      same edges. */
  lemma CheckedEdgesAgree(t: Field, p: Params, pm: PlateMesh, fins: seq<FinMesh>)
    requires Fits(p, pm, fins)
    ensures EdgesMapped(t, p, pm, fins) ==> CheckedEdges(t, p, pm, fins) == AllEdges(t, p, pm, fins)
  {
    if EdgesMapped(t, p, pm, fins) {
      var es, mapped := CheckedEdges(t, p, pm, fins), AllEdges(t, p, pm, fins);
      forall k | 0 <= k < 3 ensures es[k] == mapped[k] {
        assert EdgeValues(t, p, pm, fins, k, Right).Ok? && EdgeValues(t, p, pm, fins, k, Left).Ok?;
      }
    }
  }

  /** Checked right after the coupling, on fins of Ntheta rows, the
      temperature is continuous: every error is zero, and the check passes
      for every positive tolerance. */
  lemma ContinuousAfterCoupling(tfins: seq<Field>, es: seq<Edges>, ntheta: int, tol: real)
    requires |es| == |tfins| == 3 && ntheta >= 2
    requires forall k :: 0 <= k < 3 ==> |tfins[k]| == ntheta
    requires CoupleWith(tfins, es, ntheta).Ok?
    ensures var d := ContinuityWith(CoupleWith(tfins, es, ntheta).value, es, tol);
      d.Ok? && d.value.maxError == 0.0 && (d.value.ok <==> tol > 0.0)
  {
    var cs := CoupleWith(tfins, es, ntheta).value;
    CoupledFinZero(tfins, es, ntheta, cs, 0);
    CoupledFinZero(tfins, es, ntheta, cs, 1);
    CoupledFinZero(tfins, es, ntheta, cs, 2);
    var d := ContinuityWith(cs, es, tol);
    assert d.value.perFin == [0.0, 0.0, 0.0];
  }

  /** Fin `k` of a successful coupling has no edge error. */
  lemma CoupledFinZero(tfins: seq<Field>, es: seq<Edges>, ntheta: int, cs: seq<Field>, k: nat)
    requires |es| == |tfins| && ntheta >= 2 && k < |tfins| && |tfins[k]| == ntheta
    requires CoupleWith(tfins, es, ntheta) == Ok(cs)
    ensures k < |cs| && FinError(cs[k], es[k]) == Ok(0.0)
  {
    assert FinInRange(cs[k]);
    CoupledFinExact(tfins[k], es[k], ntheta, cs[k]);
  }

  /** A coupled fin's edge rows are exactly the plate temperatures. */
  lemma CoupledFinExact(tfin: Field, e: Edges, ntheta: int, c: Field)
    requires ntheta >= 2 && |tfin| == ntheta && CoupleFin(tfin, e, ntheta) == Ok(c) && NonEmpty2(c)
    ensures FinError(c, e) == Ok(0.0)
  {
    assert c[|c| - 1] == e.left.value;
    DeviationZero(c[0], e.right.value);
    DeviationZero(c[|c| - 1], e.left.value);
  }

  /** The coupling followed by the check, on the program's meshes. */
  lemma CouplingIsContinuous(t: Field, tfins: seq<Field>, p: Params, pm: PlateMesh, fins: seq<FinMesh>, tol: real)
    requires Fits(p, pm, fins) && |tfins| == 3 && forall k :: 0 <= k < 3 ==> |tfins[k]| == p.ntheta
    requires Couple(t, tfins, p, pm, fins).Ok?
    ensures var d := Continuity(t, Couple(t, tfins, p, pm, fins).value, p, pm, fins, tol);
      d.Ok? && d.value.maxError == 0.0 && (d.value.ok <==> tol > 0.0)
  {
    ContinuousAfterCoupling(tfins, AllEdges(t, p, pm, fins), p.ntheta, tol);
    CoupledEdgesMapped(t, tfins, p, pm, fins);
  }

  /** A coupling that succeeds has mapped and looked up every edge. */
  lemma CoupledEdgesMapped(t: Field, tfins: seq<Field>, p: Params, pm: PlateMesh, fins: seq<FinMesh>)
    requires Fits(p, pm, fins) && Couple(t, tfins, p, pm, fins).Ok?
    ensures EdgesMapped(t, p, pm, fins)
  {
    var es := AllEdges(t, p, pm, fins);
    forall k | 0 <= k < 3
      ensures EdgeValues(t, p, pm, fins, k, Right).Ok? && EdgeValues(t, p, pm, fins, k, Left).Ok?
    {
      assert CoupleFin(tfins[k], es[k], p.ntheta).Ok?;
    }
  }
}
