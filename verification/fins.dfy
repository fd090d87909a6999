/** The three half-cylinder fins: explicit FTCS conduction in polar
    coordinates on the (Ntheta, Nr) grid, `T[m][j]` with `m` the angular and
    `j` the radial index. One step runs four stages on the old field: the
    axis node of every angular row, the interior polar nodes, the convective
    surface `r = R`, and the zero-gradient copies on the two angular edges.
 */
module Fins {
  import opened Outcomes
  import opened Fields
  import opened Parameters
  import opened Meshes
  import opened Stencil

  /** The numbers of one fin update: the radial Fourier number alpha dt / dr^2,
      the bare angular number alpha dt (divided by `(r dtheta)^2` at each use)
      and the air Biot number h_air dr / k. */
  datatype FinCoeffs = FinCoeffs(fr: real, fth: real, ba: real)

  /** What the update needs of the parameters and the fin mesh: at least two
      nodes each way, mesh arrays of those sizes, positive spacings, radius
      and conductivity (every constructed parameter set and mesh has all of these). */
  predicate Ready(p: Params, fm: FinMesh) {
    && p.nr >= 2 && p.ntheta >= 2 && |fm.r| == p.nr && |fm.theta| == p.ntheta
    && fm.dr > 0.0 && fm.dtheta > 0.0 && p.radius > 0.0 && p.solid.k > 0.0
  }

  /** The three fin meshes are all ready. */
  predicate AllReady(p: Params, fins: seq<FinMesh>) {
    |fins| == 3 && Ready(p, fins[0]) && Ready(p, fins[1]) && Ready(p, fins[2])
  }

  predicate ValidFin(k: int) {
    k == 0 || k == 1 || k == 2
  }

  function CoeffsOf(p: Params, fm: FinMesh, dt: real): FinCoeffs
    requires Ready(p, fm)
  {
    FinCoeffs(Fourier(p.solid.alpha, dt, fm.dr), p.solid.alpha * dt, p.hAir * fm.dr / p.solid.k)
  }

  /** The angular number alpha dt / (r dtheta)^2 of a ring of radius `r`. */
  function Angular(fth: real, r: real, dtheta: real): (a: real)
    requires r * dtheta != 0.0
    ensures fth >= 0.0 ==> a >= 0.0
  {
    AngularSign(fth, r * dtheta);
    fth * (1.0 / ((r * dtheta) * (r * dtheta)))
  }

  lemma AngularSign(fth: real, x: real)
    requires x != 0.0
    ensures fth >= 0.0 ==> fth * (1.0 / (x * x)) >= 0.0
  {
    SquarePositive(x);
    ReciprocalPositive(x * x);
    if fth >= 0.0 {
      ProductNonNegative(fth, 1.0 / (x * x));
    }
  }

  /** The angular number shrinks outwards: it is largest on the innermost
      ring, which is why the stability bound is evaluated there. */
  lemma AngularLargestInside(fth: real, r1: real, r2: real, dtheta: real)
    requires 0.0 < r1 <= r2 && dtheta > 0.0 && fth >= 0.0
    ensures Angular(fth, r2, dtheta) <= Angular(fth, r1, dtheta)
  {
    var a, b := r1 * dtheta, r2 * dtheta;
    ProductPositive(r1, dtheta);
    ProductLe(dtheta, r1, r2);
    assert 0.0 < a <= b;
    SquareLe(a, b);
    ReciprocalLe(a * a, b * b);
    ScaleLe(fth, 1.0 / (b * b), 1.0 / (a * a));
  }

  /** `inicializar_aleta`: a uniform field at the initial temperature, after
      checking the fin index and the mesh sizes. */
  function Init(p: Params, fins: seq<FinMesh>, k: int): (r: Result<Field>)
    ensures r.Ok? <==> ValidFin(k) && |fins| == 3 && |fins[k].theta| == p.ntheta && |fins[k].r| == p.nr
    ensures !ValidFin(k) ==> r == Err(InvalidArgument)
    ensures r.Ok? ==> IsGrid(r.value, p.ntheta as nat, p.nr as nat) && Uniform2(r.value, p.tInit)
  {
    if !ValidFin(k) then Err(InvalidArgument)
    else if |fins| != 3 then Err(InvalidConfiguration)
    else if |fins[k].theta| != p.ntheta || |fins[k].r| != p.nr then Err(ShapeMismatch)
    else Ok(Fill2(p.ntheta as nat, p.nr as nat, p.tInit))
  }

  // ---------------------------------------------------------------------------
  // The four stages
  // ---------------------------------------------------------------------------

  /** The new axis values, one per angular row, each from its own row only. */
  function CentreValues(told: Field, nr: nat, fr: real): (c: seq<real>)
    requires nr >= 2 && IsGrid(told, |told|, nr)
    ensures |c| == |told|
    ensures forall m {:trigger c[m]} :: 0 <= m < |told| ==> c[m] == Pull(told[m][0], told[m][1], fr)
  {
    seq(|told|, m requires 0 <= m < |told| => Pull(told[m][0], told[m][1], fr))
  }

  /** `_actualizar_centro_aleta`: the axis stage with its checks (row count,
      two radial nodes, 0 < Fo_r < 1, result within [200, 500] K). */
  function Centre(told: Field, nr: nat, fr: real, ntheta: int): (r: Result<seq<real>>)
    requires IsGrid(told, |told|, nr)
    ensures |told| != ntheta || nr < 2 ==> r == Err(ShapeMismatch)
    ensures r.Ok? <==> |told| == ntheta && nr >= 2 && 0.0 < fr < 1.0 && Within(CentreValues(told, nr, fr), 200.0, 500.0)
    ensures r.Ok? ==> r.value == CentreValues(told, nr, fr)
  {
    if |told| != ntheta || nr < 2 then Err(ShapeMismatch)
    else if !(0.0 < fr < 1.0) then Err(Instability)
    else
      var c := CentreValues(told, nr, fr);
      if !Within(c, 200.0, 500.0) then Err(PhysicalRange) else Ok(c)
  }

  /** Every inner ring of the mesh has a positive radius. */
  predicate InnerRingsPositive(rs: seq<real>) {
    forall j :: 1 <= j < |rs| - 1 ==> rs[j] > 0.0
  }

  /** The mesh's last ring is the fin radius, to numpy's `isclose` with
      relative tolerance 1e-10. */
  predicate RimAtRadius(p: Params, fm: FinMesh) {
    |fm.r| > 0 && IsClose(fm.r[|fm.r| - 1], p.radius, 1e-10)
  }

  /** The polar update of inner node `(m, j)`. */
  function InteriorNode(told: Field, fm: FinMesh, c: FinCoeffs, m: nat, j: nat): real
    requires |told| >= 2 && IsGrid(told, |told|, |fm.r|) && fm.dtheta > 0.0 && InnerRingsPositive(fm.r)
    requires 1 <= m < |told| - 1 && 1 <= j < |fm.r| - 1
  {
    ProductPositive(fm.r[j], fm.dtheta);
    Radial(told[m][j], told[m][j + 1], told[m][j - 1], told[m + 1][j], told[m - 1][j],
           c.fr, fm.dr / fm.r[j], Angular(c.fth, fm.r[j], fm.dtheta))
  }

  /** The interior stage on a copy of the old field: inner nodes updated,
      every node of the first and last row and column left as it was. */
  function InteriorFill(told: Field, fm: FinMesh, c: FinCoeffs): (r: Field)
    requires |told| >= 2 && IsGrid(told, |told|, |fm.r|) && fm.dtheta > 0.0 && InnerRingsPositive(fm.r)
    ensures IsGrid(r, |told|, |fm.r|)
    ensures forall m, j {:trigger r[m][j]} :: 1 <= m < |told| - 1 && 1 <= j < |fm.r| - 1 ==> r[m][j] == InteriorNode(told, fm, c, m, j)
    ensures forall m, j {:trigger r[m][j]} :: 0 <= m < |told| && 0 <= j < |fm.r| && (m == 0 || m == |told| - 1 || j == 0 || j == |fm.r| - 1)
              ==> r[m][j] == told[m][j]
  {
    var nt, nr := |told|, |fm.r|;
    seq(nt, m requires 0 <= m < nt =>
      seq(nr, j requires 0 <= j < nr =>
        if 1 <= m < nt - 1 && 1 <= j < nr - 1 then InteriorNode(told, fm, c, m, j) else told[m][j]))
  }

  /** `_actualizar_interior_aleta`: the interior stage with its checks. */
  function InteriorUpdate(told: Field, p: Params, fm: FinMesh, dt: real): (r: Result<Field>)
    requires Ready(p, fm)
    ensures !IsGrid(told, p.ntheta as nat, p.nr as nat) ==> r == Err(ShapeMismatch)
    ensures r.Ok? <==> IsGrid(told, p.ntheta as nat, p.nr as nat) && dt > 0.0 && InnerRingsPositive(fm.r)
    ensures r.Ok? ==> r.value == InteriorFill(told, fm, CoeffsOf(p, fm, dt))
  {
    if !IsGrid(told, p.ntheta as nat, p.nr as nat) then Err(ShapeMismatch)
    else if !(dt > 0.0) then Err(InvalidArgument)
    else if !InnerRingsPositive(fm.r) then Err(InvalidConfiguration)
    else Ok(InteriorFill(told, fm, CoeffsOf(p, fm, dt)))
  }

  /** `T[:, 0] = centre`. */
  function SetColumn(t: Field, j: nat, col: seq<real>): (r: Field)
    requires |col| == |t| && forall m :: 0 <= m < |t| ==> j < |t[m]|
    ensures |r| == |t| && forall m {:trigger r[m]} :: 0 <= m < |t| ==> |r[m]| == |t[m]|
    ensures forall m, l {:trigger r[m][l]} :: 0 <= m < |t| && 0 <= l < |t[m]| ==> r[m][l] == if l == j then col[m] else t[m][l]
  {
    seq(|t|, m requires 0 <= m < |t| => t[m][j := col[m]])
  }

  /** The convective update of surface node `(m, Nr-1)`, from the old field. */
  function SurfaceNode(told: Field, nr: nat, c: FinCoeffs, radius: real, dtheta: real, tInf: real, m: nat): real
    requires nr >= 2 && |told| >= 2 && IsGrid(told, |told|, nr) && radius > 0.0 && dtheta > 0.0
    requires 1 <= m < |told| - 1
  {
    ProductPositive(radius, dtheta);
    var js := nr - 1;
    Face(told[m][js], told[m + 1][js], told[m - 1][js], told[m][js - 1], tInf,
         Angular(c.fth, radius, dtheta), c.fr, c.ba)
  }

  /** The surface stage: the outer node of every inner angular row is
      rewritten; nothing else changes. */
  function SurfaceFill(t: Field, told: Field, nr: nat, c: FinCoeffs, radius: real, dtheta: real, tInf: real): (r: Field)
    requires nr >= 2 && |told| >= 2 && IsGrid(told, |told|, nr) && IsGrid(t, |told|, nr)
    requires radius > 0.0 && dtheta > 0.0
    ensures IsGrid(r, |told|, nr)
    ensures forall m {:trigger r[m]} :: 1 <= m < |told| - 1 ==> r[m][nr - 1] == SurfaceNode(told, nr, c, radius, dtheta, tInf, m)
    ensures forall m, j {:trigger r[m][j]} :: 0 <= m < |told| && 0 <= j < nr && !(1 <= m < |told| - 1 && j == nr - 1) ==> r[m][j] == t[m][j]
  {
    seq(|t|, m requires 0 <= m < |t| =>
      if 1 <= m < |t| - 1 then t[m][nr - 1 := SurfaceNode(told, nr, c, radius, dtheta, tInf, m)] else t[m])
  }

  /** `_aplicar_bc_superficie_aleta`: the surface stage, after checking both
      shapes and that the mesh's last ring is the fin radius. */
  function SurfaceUpdate(t: Field, told: Field, p: Params, fm: FinMesh, dt: real): (r: Result<Field>)
    requires Ready(p, fm)
    ensures r.Ok? <==> IsGrid(t, p.ntheta as nat, p.nr as nat) && IsGrid(told, p.ntheta as nat, p.nr as nat)
                       && RimAtRadius(p, fm)
    ensures r.Ok? ==> r.value == SurfaceFill(t, told, p.nr as nat, CoeffsOf(p, fm, dt), p.radius, fm.dtheta, p.tInf)
  {
    if !IsGrid(t, p.ntheta as nat, p.nr as nat) || !IsGrid(told, p.ntheta as nat, p.nr as nat) then Err(ShapeMismatch)
    else if !RimAtRadius(p, fm) then Err(InvalidConfiguration)
    else Ok(SurfaceFill(t, told, p.nr as nat, CoeffsOf(p, fm, dt), p.radius, fm.dtheta, p.tInf))
  }

  /** `_aplicar_bc_theta_aleta`: zero angular gradient on both edges, row 0
      copied from row 1, then row Ntheta-1 from row Ntheta-2. */
  function ThetaEdges(t: Field, nr: nat): (r: Field)
    requires |t| >= 2 && IsGrid(t, |t|, nr)
    ensures IsGrid(r, |t|, nr)
    ensures r[0] == t[1]
    ensures |t| >= 3 ==> r[|t| - 1] == t[|t| - 2]
    ensures |t| == 2 ==> r[1] == t[1]
    ensures forall m {:trigger r[m]} :: 1 <= m < |t| - 1 ==> r[m] == t[m]
  {
    var a := t[0 := t[1]];
    a[|t| - 1 := a[|t| - 2]]
  }

  // ---------------------------------------------------------------------------
  // The step
  // ---------------------------------------------------------------------------

  /** The stability number checked by the step: Fo_r plus the angular number
      of the first ring. */
  function FirstRingNumber(c: FinCoeffs, fm: FinMesh): real
    requires |fm.r| >= 2 && fm.r[1] * fm.dtheta != 0.0
  {
    c.fr + Angular(c.fth, fm.r[1], fm.dtheta)
  }

  /** The four stages in the order the step runs them. */
  function Stages(told: Field, fm: FinMesh, c: FinCoeffs, radius: real, tInf: real): (r: Field)
    requires |told| >= 2 && |fm.r| >= 2 && IsGrid(told, |told|, |fm.r|)
    requires fm.dtheta > 0.0 && radius > 0.0 && InnerRingsPositive(fm.r)
    ensures IsGrid(r, |told|, |fm.r|)
  {
    var inner := InteriorFill(told, fm, c);
    var centred := SetColumn(inner, 0, CentreValues(told, |fm.r|, c.fr));
    assert IsGrid(centred, |told|, |fm.r|);
    var surfaced := SurfaceFill(centred, told, |fm.r|, c, radius, fm.dtheta, tInf);
    ThetaEdges(surfaced, |fm.r|)
  }

  /** Every node moves by less than `bound`. */
  predicate ChangeBelow(tnew: Field, told: Field, bound: real)
    requires |tnew| == |told| && forall m :: 0 <= m < |told| ==> |tnew[m]| == |told[m]|
  {
    forall m, j {:trigger tnew[m][j]} :: 0 <= m < |told| && 0 <= j < |told[m]| ==> Abs(tnew[m][j] - told[m][j]) < bound
  }

  /** The part of `actualizar_aleta` after its input and stability checks:
      the four stages with their own checks, then the output checks
      (200-500 K, no node moving by 50 K or more). */
  function Staged(told: Field, p: Params, fm: FinMesh, dt: real): (r: Result<Field>)
    requires Ready(p, fm) && IsGrid(told, p.ntheta as nat, p.nr as nat)
    ensures r.Ok? ==> InnerRingsPositive(fm.r) && RimAtRadius(p, fm)
    ensures r.Ok? ==> r.value == Stages(told, fm, CoeffsOf(p, fm, dt), p.radius, p.tInf)
    ensures r.Ok? ==> IsGrid(r.value, p.ntheta as nat, p.nr as nat) && Within2(r.value, 200.0, 500.0)
    ensures r.Ok? ==> ChangeBelow(r.value, told, 50.0)
  {
    var c := CoeffsOf(p, fm, dt);
    match Centre(told, p.nr as nat, c.fr, p.ntheta)
    case Err(e) => Err(e)
    case Ok(centre) =>
      match InteriorUpdate(told, p, fm, dt)
      case Err(e) => Err(e)
      case Ok(inner) =>
        match SurfaceUpdate(SetColumn(inner, 0, centre), told, p, fm, dt)
        case Err(e) => Err(e)
        case Ok(surfaced) =>
          var tnew := ThetaEdges(surfaced, |fm.r|);
          if !Within2(tnew, 200.0, 500.0) then Err(PhysicalRange)
          else if !ChangeBelow(tnew, told, 50.0) then Err(Instability)
          else Ok(tnew)
  }

  /** The staged update succeeds, with the four stages' field, exactly when
      every check passes: the axis check (0 < Fo_r < 1, axis values in
      200-500 K), a positive step, a mesh whose inner rings are off the axis
      and whose last ring is the radius, and the output checks. */
  lemma StagedSucceeds(told: Field, p: Params, fm: FinMesh, dt: real)
    requires Ready(p, fm) && IsGrid(told, p.ntheta as nat, p.nr as nat)
    ensures Staged(told, p, fm, dt).Ok? <==>
      && 0.0 < CoeffsOf(p, fm, dt).fr < 1.0 && Within(CentreValues(told, p.nr as nat, CoeffsOf(p, fm, dt).fr), 200.0, 500.0)
      && dt > 0.0 && InnerRingsPositive(fm.r) && RimAtRadius(p, fm)
      && Within2(Stages(told, fm, CoeffsOf(p, fm, dt), p.radius, p.tInf), 200.0, 500.0)
      && ChangeBelow(Stages(told, fm, CoeffsOf(p, fm, dt), p.radius, p.tInf), told, 50.0)
  {
    var nr := p.nr as nat;
    var c := CoeffsOf(p, fm, dt);
    var centre := Centre(told, nr, c.fr, p.ntheta);
    if centre.Ok? {
      var inner := InteriorUpdate(told, p, fm, dt);
      if inner.Ok? {
        var centred := SetColumn(inner.value, 0, centre.value);
        assert IsGrid(centred, p.ntheta as nat, nr);
        var surfaced := SurfaceUpdate(centred, told, p, fm, dt);
        if surfaced.Ok? {
          assert ThetaEdges(surfaced.value, |fm.r|) == Stages(told, fm, c, p.radius, p.tInf);
        }
      }
    }
  }

  /** `actualizar_aleta`: input checks (shape, 200-500 K, dt > 0, fin index),
      the first-ring stability check Fo_r + alpha dt / (r[1] dtheta)^2 < 1/2,
      then the staged update. */
  function Step(told: Field, p: Params, fins: seq<FinMesh>, k: int, dt: real): (r: Result<Field>)
    requires AllReady(p, fins)
    ensures !IsGrid(told, p.ntheta as nat, p.nr as nat) ==> r == Err(ShapeMismatch)
    ensures IsGrid(told, p.ntheta as nat, p.nr as nat) && !Within2(told, 200.0, 500.0) ==> r == Err(PhysicalRange)
    ensures r.Ok? ==> dt > 0.0 && ValidFin(k) && fins[k].r[1] * fins[k].dtheta != 0.0
    ensures r.Ok? ==> FirstRingNumber(CoeffsOf(p, fins[k], dt), fins[k]) < 0.5
    ensures r.Ok? ==> IsGrid(r.value, p.ntheta as nat, p.nr as nat) && Within2(r.value, 200.0, 500.0)
    ensures r.Ok? ==> ChangeBelow(r.value, told, 50.0)
    ensures r.Ok? ==> InnerRingsPositive(fins[k].r) && RimAtRadius(p, fins[k])
    ensures r.Ok? ==> r.value == Stages(told, fins[k], CoeffsOf(p, fins[k], dt), p.radius, p.tInf)
    ensures IsGrid(told, p.ntheta as nat, p.nr as nat) && Within2(told, 200.0, 500.0) && dt > 0.0 && ValidFin(k)
            && fins[k].r[1] * fins[k].dtheta != 0.0 && FirstRingNumber(CoeffsOf(p, fins[k], dt), fins[k]) < 0.5
            ==> r == Staged(told, p, fins[k], dt)
  {
    if !IsGrid(told, p.ntheta as nat, p.nr as nat) then Err(ShapeMismatch)
    else if !Within2(told, 200.0, 500.0) then Err(PhysicalRange)
    else if !(dt > 0.0) || !ValidFin(k) then Err(InvalidArgument)
    else
      var fm := fins[k];
      if fm.r[1] * fm.dtheta == 0.0 || !(FirstRingNumber(CoeffsOf(p, fm, dt), fm) < 0.5) then Err(Instability)
      else Staged(told, p, fm, dt)
  }

  // ---------------------------------------------------------------------------
  // Properties
  // ---------------------------------------------------------------------------

  /** The angular row whose staged values row `m` ends up holding: the edge
      rows take their inner neighbour's (with two rows, both hold row 1's). */
  function SourceRow(n: nat, m: nat): (s: nat)
    requires n >= 2 && m < n
    ensures s < n && (s == m || m == 0 || m == n - 1)
  {
    if m == 0 then 1 else if m == n - 1 && n > 2 then n - 2 else m
  }

  /** Reference definition of the step's field, node by node and from the
      old field only: the axis update on column 0, the surface update on the
      last column and the polar update elsewhere, for inner angular rows; the
      edge rows repeat their inner neighbour. */
  function ReferenceNode(told: Field, fm: FinMesh, c: FinCoeffs, radius: real, tInf: real, m: nat, j: nat): real
    requires |told| >= 2 && |fm.r| >= 2 && IsGrid(told, |told|, |fm.r|)
    requires fm.dtheta > 0.0 && radius > 0.0 && InnerRingsPositive(fm.r)
    requires m < |told| && j < |fm.r|
  {
    var n, nr := |told|, |fm.r|;
    var row := SourceRow(n, m);
    if j == 0 then Pull(told[row][0], told[row][1], c.fr)
    else if !(1 <= row < n - 1) then told[row][j]
    else if j == nr - 1 then SurfaceNode(told, nr, c, radius, fm.dtheta, tInf, row)
    else InteriorNode(told, fm, c, row, j)
  }

  /** Running the four stages in order gives the reference field: every
      stage reads only the old field, so their order only decides which
      stage owns each node. */
  lemma StagesMatchReference(told: Field, fm: FinMesh, c: FinCoeffs, radius: real, tInf: real)
    requires |told| >= 2 && |fm.r| >= 2 && IsGrid(told, |told|, |fm.r|)
    requires fm.dtheta > 0.0 && radius > 0.0 && InnerRingsPositive(fm.r)
    ensures var r := Stages(told, fm, c, radius, tInf);
      forall m, j :: 0 <= m < |told| && 0 <= j < |fm.r| ==> r[m][j] == ReferenceNode(told, fm, c, radius, tInf, m, j)
  {
    var n, nr := |told|, |fm.r|;
    var inner := InteriorFill(told, fm, c);
    var centre := CentreValues(told, nr, c.fr);
    var centred := SetColumn(inner, 0, centre);
    assert IsGrid(centred, n, nr);
    var surfaced := SurfaceFill(centred, told, nr, c, radius, fm.dtheta, tInf);
    var r := ThetaEdges(surfaced, nr);
    assert r == Stages(told, fm, c, radius, tInf);
    forall m, j | 0 <= m < n && 0 <= j < nr
      ensures r[m][j] == ReferenceNode(told, fm, c, radius, tInf, m, j)
    {
      var row := SourceRow(n, m);
      assert r[m] == surfaced[row];
      if 1 <= row < n - 1 && j == nr - 1 {
        assert surfaced[row][j] == SurfaceNode(told, nr, c, radius, fm.dtheta, tInf, row);
      } else {
        assert surfaced[row][j] == centred[row][j];
        if j == 0 {
          assert centred[row][j] == centre[row];
        } else {
          assert centred[row][j] == inner[row][j];
        }
      }
    }
  }

  /** The axis update of every row lies between the row's old axis value and
      its old first ring when Fo_r is at most 1/2. */
  lemma CentreBetween(told: Field, nr: nat, fr: real, m: nat)
    requires nr >= 2 && IsGrid(told, |told|, nr) && m < |told|
    requires 0.0 <= fr <= 0.5
    ensures var v := CentreValues(told, nr, fr)[m];
      (told[m][0] <= told[m][1] ==> told[m][0] <= v <= told[m][1]) &&
      (told[m][1] <= told[m][0] ==> told[m][1] <= v <= told[m][0])
  {
    PullBetween(told[m][0], told[m][1], fr);
  }

  /** In a uniform field at the air temperature every reference node keeps that temperature. */
  lemma ReferenceNodeUniform(fm: FinMesh, c: FinCoeffs, radius: real, v: real, n: nat, m: nat, j: nat)
    requires n >= 2 && |fm.r| >= 2
    requires fm.dtheta > 0.0 && radius > 0.0 && InnerRingsPositive(fm.r)
    requires m < n && j < |fm.r|
    ensures ReferenceNode(Fill2(n, |fm.r|, v), fm, c, radius, v, m, j) == v
  {
    var nr := |fm.r|;
    var t := Fill2(n, nr, v);
    var row := SourceRow(n, m);
    assert t[row][j] == v;
    if j == 0 {
      assert t[row][1] == v;
      PullUniform(v, c.fr);
    } else if 1 <= row < n - 1 && j == nr - 1 {
      ProductPositive(radius, fm.dtheta);
      assert t[row + 1][j] == v && t[row - 1][j] == v && t[row][j - 1] == v;
      FaceUniform(v, Angular(c.fth, radius, fm.dtheta), c.fr, c.ba);
    } else if 1 <= row < n - 1 {
      ProductPositive(fm.r[j], fm.dtheta);
      assert t[row][j + 1] == v && t[row][j - 1] == v && t[row + 1][j] == v && t[row - 1][j] == v;
      RadialUniform(v, c.fr, fm.dr / fm.r[j], Angular(c.fth, fm.r[j], fm.dtheta));
    }
  }

  /** A fin in equilibrium with the air keeps its temperature through the four stages. */
  lemma StagesFixedPoint(fm: FinMesh, c: FinCoeffs, radius: real, v: real, n: nat)
    requires n >= 2 && |fm.r| >= 2
    requires fm.dtheta > 0.0 && radius > 0.0 && InnerRingsPositive(fm.r)
    ensures Stages(Fill2(n, |fm.r|, v), fm, c, radius, v) == Fill2(n, |fm.r|, v)
  {
    var t := Fill2(n, |fm.r|, v);
    StagesMatchReference(t, fm, c, radius, v);
    ReferenceFieldUniform(Stages(t, fm, c, radius, v), fm, c, radius, v, n);
  }

  /** A field that agrees with the reference update of the uniform field at
      the air temperature is that uniform field. */
  lemma ReferenceFieldUniform(r: Field, fm: FinMesh, c: FinCoeffs, radius: real, v: real, n: nat)
    requires n >= 2 && |fm.r| >= 2
    requires fm.dtheta > 0.0 && radius > 0.0 && InnerRingsPositive(fm.r)
    requires IsGrid(r, n, |fm.r|)
    requires forall m, j :: 0 <= m < n && 0 <= j < |fm.r| ==> r[m][j] == ReferenceNode(Fill2(n, |fm.r|, v), fm, c, radius, v, m, j)
    ensures r == Fill2(n, |fm.r|, v)
  {
    var nr := |fm.r|;
    var t := Fill2(n, nr, v);
    forall m | 0 <= m < n
      ensures r[m] == t[m]
    {
      forall j | 0 <= j < nr
        ensures r[m][j] == v
      {
        ReferenceNodeUniform(fm, c, radius, v, n, m, j);
      }
    }
  }

  /** The staged update leaves a fin uniformly at the air temperature
      unchanged once its own checks pass. */
  lemma StagedFixedPoint(p: Params, fm: FinMesh, dt: real)
    requires Ready(p, fm) && dt > 0.0 && 0.0 < CoeffsOf(p, fm, dt).fr < 1.0
    requires 200.0 <= p.tInf <= 500.0
    requires InnerRingsPositive(fm.r) && RimAtRadius(p, fm)
    ensures Staged(Fill2(p.ntheta as nat, p.nr as nat, p.tInf), p, fm, dt) == Ok(Fill2(p.ntheta as nat, p.nr as nat, p.tInf))
  {
    var n, nr := p.ntheta as nat, p.nr as nat;
    var v := p.tInf;
    var t := Fill2(n, nr, v);
    var c := CoeffsOf(p, fm, dt);
    var centre := CentreValues(t, nr, c.fr);
    assert Within(centre, 200.0, 500.0) by {
      PullUniform(v, c.fr);
      forall m | 0 <= m < n ensures centre[m] == v {
        assert t[m][0] == v && t[m][1] == v;
      }
    }
    StagesFixedPoint(fm, c, p.radius, v, n);
    StagedKeeps(t, p, fm, dt);
  }

  lemma StagedKeeps(told: Field, p: Params, fm: FinMesh, dt: real)
    requires Ready(p, fm) && IsGrid(told, p.ntheta as nat, p.nr as nat) && dt > 0.0
    requires 0.0 < CoeffsOf(p, fm, dt).fr < 1.0 && Within(CentreValues(told, p.nr as nat, CoeffsOf(p, fm, dt).fr), 200.0, 500.0)
    requires InnerRingsPositive(fm.r) && RimAtRadius(p, fm)
    requires Stages(told, fm, CoeffsOf(p, fm, dt), p.radius, p.tInf) == told && Within2(told, 200.0, 500.0)
    ensures Staged(told, p, fm, dt) == Ok(told)
  {
    assert ChangeBelow(told, told, 50.0);
    StagedSucceeds(told, p, fm, dt);
  }

  /** `actualizar_aleta` returns a fin uniformly at the air temperature
      unchanged, once its checks pass: the air temperature inside the
      200-500 K band, a stable positive time step, and a mesh whose inner
      rings are off the axis and whose last ring is the fin radius. */
  lemma StepFixedPoint(p: Params, fins: seq<FinMesh>, k: int, dt: real)
    requires AllReady(p, fins) && ValidFin(k) && dt > 0.0 && p.solid.alpha > 0.0
    requires 200.0 <= p.tInf <= 500.0
    requires fins[k].r[1] * fins[k].dtheta != 0.0 && FirstRingNumber(CoeffsOf(p, fins[k], dt), fins[k]) < 0.5
    requires InnerRingsPositive(fins[k].r) && RimAtRadius(p, fins[k])
    ensures Step(Fill2(p.ntheta as nat, p.nr as nat, p.tInf), p, fins, k, dt) == Ok(Fill2(p.ntheta as nat, p.nr as nat, p.tInf))
  {
    var fm := fins[k];
    var c := CoeffsOf(p, fm, dt);
    ProductPositive(p.solid.alpha, dt);
    assert c.fr > 0.0 && c.fth > 0.0;
    assert Angular(c.fth, fm.r[1], fm.dtheta) >= 0.0;
    assert 0.0 < c.fr < 1.0;
    var t := Fill2(p.ntheta as nat, p.nr as nat, p.tInf);
    assert Within2(t, 200.0, 500.0);
    StagedFixedPoint(p, fm, dt);
  }

  /** The mesh's rings are evenly spaced from the axis: `r[j] = j dr`. */
  predicate EvenRings(fm: FinMesh) {
    forall j :: 0 <= j < |fm.r| ==> fm.r[j] == j as real * fm.dr
  }

  /** Non-negative numbers small enough that every stage is a convex
      combination of old values: twice the first-ring number at most one
      (the step itself demands it below 1/2) and a surface bound that also
      counts the air exchange. */
  predicate Monotone(c: FinCoeffs, fm: FinMesh, radius: real)
    requires |fm.r| >= 2 && fm.r[1] * fm.dtheta != 0.0 && radius * fm.dtheta != 0.0
  {
    && c.fr >= 0.0 && c.fth >= 0.0 && c.ba >= 0.0
    && 2.0 * FirstRingNumber(c, fm) <= 1.0
    && 2.0 * Angular(c.fth, radius, fm.dtheta) + 2.0 * c.fr * (1.0 + c.ba) <= 1.0
  }

  /** Ring `j >= 1` of an evenly spaced mesh lies at least one spacing out. */
  lemma OuterRing(dr: real, j: int)
    requires dr > 0.0 && j >= 1
    ensures dr <= j as real * dr
  {
    ProductNonNegative(dr, (j - 1) as real);
    assert j as real * dr == dr + (j - 1) as real * dr;
  }

  lemma OuterRingOf(fm: FinMesh, j: int)
    requires EvenRings(fm) && fm.dr > 0.0 && 1 <= j < |fm.r|
    ensures fm.dr <= fm.r[j]
  {
    OuterRing(fm.dr, j);
  }

  /** Off the axis, the polar node's weights are those of a convex
      combination: `dr / r[j] <= 1` and the ring's angular number is at most
      the first ring's. */
  lemma InteriorNodeWithin(told: Field, fm: FinMesh, c: FinCoeffs, radius: real, m: nat, j: nat, lo: real, hi: real)
    requires |told| >= 2 && |fm.r| >= 2 && IsGrid(told, |told|, |fm.r|)
    requires fm.dr > 0.0 && fm.dtheta > 0.0 && radius > 0.0 && EvenRings(fm) && InnerRingsPositive(fm.r)
    requires fm.r[1] * fm.dtheta != 0.0 && radius * fm.dtheta != 0.0 && Monotone(c, fm, radius)
    requires 1 <= m < |told| - 1 && 1 <= j < |fm.r| - 1
    requires Within2(told, lo, hi)
    ensures lo <= InteriorNode(told, fm, c, m, j) <= hi
  {
    assert fm.r[1] == fm.dr;
    OuterRingOf(fm, j);
    assert 2.0 * (c.fr + Angular(c.fth, fm.dr, fm.dtheta)) <= 1.0;
    assert Within(told[m], lo, hi) && Within(told[m + 1], lo, hi) && Within(told[m - 1], lo, hi);
    PolarNodeWithin(told[m][j], told[m][j + 1], told[m][j - 1], told[m + 1][j], told[m - 1][j],
                    c.fr, c.fth, fm.dr, fm.r[j], fm.dtheta, lo, hi);
  }

  /** The polar update at radius `rj >= dr`, with numbers whose first-ring
      sum is at most 1/2, stays within the band of its inputs. */
  lemma PolarNodeWithin(v: real, e: real, w: real, n: real, s: real, fr: real, fth: real,
                        dr: real, rj: real, dtheta: real, lo: real, hi: real)
    requires dr > 0.0 && dtheta > 0.0 && dr <= rj && fr >= 0.0 && fth >= 0.0
    requires dr * dtheta != 0.0 && 2.0 * (fr + Angular(fth, dr, dtheta)) <= 1.0
    requires lo <= v <= hi && lo <= e <= hi && lo <= w <= hi && lo <= n <= hi && lo <= s <= hi
    ensures rj * dtheta != 0.0 && lo <= Radial(v, e, w, n, s, fr, dr / rj, Angular(fth, rj, dtheta)) <= hi
  {
    ProductPositive(rj, dtheta);
    AngularLargestInside(fth, dr, rj, dtheta);
    FractionInUnit(dr, rj);
    RadialConvex(v, e, w, n, s, fr, dr / rj, Angular(fth, rj, dtheta), lo, hi);
  }

  /** Discrete maximum principle for one node of the step's field. */
  lemma ReferenceNodeWithin(told: Field, fm: FinMesh, c: FinCoeffs, radius: real, tInf: real, m: nat, j: nat, lo: real, hi: real)
    requires |told| >= 2 && |fm.r| >= 2 && IsGrid(told, |told|, |fm.r|)
    requires fm.dr > 0.0 && fm.dtheta > 0.0 && radius > 0.0 && EvenRings(fm) && InnerRingsPositive(fm.r)
    requires fm.r[1] * fm.dtheta != 0.0 && radius * fm.dtheta != 0.0 && Monotone(c, fm, radius)
    requires m < |told| && j < |fm.r|
    requires Within2(told, lo, hi) && lo <= tInf <= hi
    ensures lo <= ReferenceNode(told, fm, c, radius, tInf, m, j) <= hi
  {
    var n, nr := |told|, |fm.r|;
    var row := SourceRow(n, m);
    assert Within(told[row], lo, hi);
    if j == 0 {
      assert Angular(c.fth, fm.r[1], fm.dtheta) >= 0.0;
      PullBetween(told[row][0], told[row][1], c.fr);
    } else if !(1 <= row < n - 1) {
    } else if j == nr - 1 {
      assert Within(told[row + 1], lo, hi) && Within(told[row - 1], lo, hi);
      ProductPositive(radius, fm.dtheta);
      FaceConvex(told[row][j], told[row + 1][j], told[row - 1][j], told[row][j - 1], tInf,
                 Angular(c.fth, radius, fm.dtheta), c.fr, c.ba, lo, hi);
    } else {
      InteriorNodeWithin(told, fm, c, radius, row, j, lo, hi);
    }
  }

  /** Discrete maximum principle for the whole step: under `Monotone`
      numbers on evenly spaced rings, the staged field stays within any band
      holding the old field and the air temperature. */
  lemma StagesWithin(told: Field, fm: FinMesh, c: FinCoeffs, radius: real, tInf: real, lo: real, hi: real)
    requires |told| >= 2 && |fm.r| >= 2 && IsGrid(told, |told|, |fm.r|)
    requires fm.dr > 0.0 && fm.dtheta > 0.0 && radius > 0.0 && EvenRings(fm) && InnerRingsPositive(fm.r)
    requires fm.r[1] * fm.dtheta != 0.0 && radius * fm.dtheta != 0.0 && Monotone(c, fm, radius)
    requires Within2(told, lo, hi) && lo <= tInf <= hi
    ensures Within2(Stages(told, fm, c, radius, tInf), lo, hi)
  {
    var r := Stages(told, fm, c, radius, tInf);
    StagesMatchReference(told, fm, c, radius, tInf);
    forall m, j | 0 <= m < |told| && 0 <= j < |fm.r|
      ensures lo <= r[m][j] <= hi
    {
      ReferenceNodeWithin(told, fm, c, radius, tInf, m, j, lo, hi);
    }
  }

  /** The staged field of a fin within a narrow band: it passes the output
      range check and moves no node by 50 K or more. */
  lemma StagesPassChecks(told: Field, fm: FinMesh, c: FinCoeffs, radius: real, tInf: real, lo: real, hi: real)
    requires |told| >= 2 && |fm.r| >= 2 && IsGrid(told, |told|, |fm.r|)
    requires fm.dr > 0.0 && fm.dtheta > 0.0 && radius > 0.0 && EvenRings(fm) && InnerRingsPositive(fm.r)
    requires fm.r[1] * fm.dtheta != 0.0 && radius * fm.dtheta != 0.0 && Monotone(c, fm, radius)
    requires Within2(told, lo, hi) && lo <= tInf <= hi && 200.0 <= lo && hi <= 500.0 && hi - lo < 50.0
    ensures Within2(Stages(told, fm, c, radius, tInf), 200.0, 500.0)
    ensures ChangeBelow(Stages(told, fm, c, radius, tInf), told, 50.0)
  {
    StagesWithin(told, fm, c, radius, tInf, lo, hi);
    var st := Stages(told, fm, c, radius, tInf);
    forall m | 0 <= m < |st| ensures Within(st[m], 200.0, 500.0) {
      assert Within(st[m], lo, hi);
    }
    forall m, j | 0 <= m < |told| && 0 <= j < |told[m]| ensures Abs(st[m][j] - told[m][j]) < 50.0 {
      assert Within(st[m], lo, hi) && Within(told[m], lo, hi);
    }
  }

  /** The axis values of a fin within [lo, hi] stay within it. */
  lemma CentreWithin(told: Field, nr: nat, fr: real, lo: real, hi: real)
    requires nr >= 2 && IsGrid(told, |told|, nr) && 0.0 <= fr <= 0.5 && Within2(told, lo, hi)
    ensures Within(CentreValues(told, nr, fr), lo, hi)
  {
    var centre := CentreValues(told, nr, fr);
    forall m | 0 <= m < |told| ensures lo <= centre[m] <= hi {
      assert Within(told[m], lo, hi);
      CentreBetween(told, nr, fr, m);
    }
  }

  /** The step cannot fail on a fin it is able to take: with `Monotone`
      numbers (strictly below 1/2 on the first ring, as the step demands) on
      evenly spaced rings, and the old fin and the air inside a band of
      [200, 500] K narrower than 50 K, the axis, range and 50 K checks all
      pass. A wider band is not enough: the maximum principle bounds each
      node's change only by the band's width. */
  lemma StableStepSucceeds(told: Field, p: Params, fins: seq<FinMesh>, k: int, dt: real, lo: real, hi: real)
    requires AllReady(p, fins) && ValidFin(k) && dt > 0.0
    requires EvenRings(fins[k]) && InnerRingsPositive(fins[k].r) && RimAtRadius(p, fins[k])
    requires fins[k].r[1] * fins[k].dtheta != 0.0 && p.radius * fins[k].dtheta != 0.0
    requires Monotone(CoeffsOf(p, fins[k], dt), fins[k], p.radius)
    requires CoeffsOf(p, fins[k], dt).fr > 0.0 && FirstRingNumber(CoeffsOf(p, fins[k], dt), fins[k]) < 0.5
    requires IsGrid(told, p.ntheta as nat, p.nr as nat) && Within2(told, lo, hi) && lo <= p.tInf <= hi
    requires 200.0 <= lo && hi <= 500.0 && hi - lo < 50.0
    ensures Step(told, p, fins, k, dt).Ok?
  {
    var fm := fins[k];
    var c := CoeffsOf(p, fm, dt);
    assert Angular(c.fth, fm.r[1], fm.dtheta) >= 0.0;
    CentreWithin(told, p.nr as nat, c.fr, lo, hi);
    Widen(CentreValues(told, p.nr as nat, c.fr), lo, hi, 200.0, 500.0);
    assert Within2(told, 200.0, 500.0) by {
      forall m | 0 <= m < |told| ensures Within(told[m], 200.0, 500.0) {
        Widen(told[m], lo, hi, 200.0, 500.0);
      }
    }
    StagesPassChecks(told, fm, c, p.radius, p.tInf, lo, hi);
    StagedSucceeds(told, p, fm, dt);
  }
}
