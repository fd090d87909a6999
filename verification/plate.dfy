/** The base plate: explicit FTCS conduction on the (Nx, Ny) Cartesian grid
    of its cross-section, `T[i][j]` with `i` along the flow and `j` across the
    thickness. Row `j = 0` is the wetted face, exchanging heat with the water
    below it through a Robin condition; row `j = Ny - 1` is the top face,
    exchanging heat with the ambient air; the two lateral ends are insulated
    by copying their inner neighbours.
 */
module Plate {
  import opened Outcomes
  import opened Fields
  import opened Interp
  import opened Parameters
  import opened Meshes
  import opened Stencil

  /** The numbers of one update: the Fourier numbers alpha dt / dx^2 and
      alpha dt / dy^2, and the Biot numbers h dy / k of the water face and of
      the air face. */
  datatype Coeffs = Coeffs(fox: real, foy: real, bw: real, ba: real)

  /** What the update needs of the parameters and the mesh: at least two nodes
      each way, positive spacings and conductivity, and one mesh coordinate
      per plate node (every constructed parameter set and mesh has all of these). */
  predicate Ready(p: Params, pm: PlateMesh) {
    p.nxPlate >= 2 && p.nyPlate >= 2 && pm.dx > 0.0 && pm.dy > 0.0 && p.solid.k > 0.0
    && |pm.x| == p.nxPlate
  }

  function CoeffsOf(p: Params, pm: PlateMesh, dt: real): Coeffs
    requires Ready(p, pm)
  {
    Coeffs(Fourier(p.solid.alpha, dt, pm.dx), Fourier(p.solid.alpha, dt, pm.dy),
           p.hWater * pm.dy / p.solid.k, p.hAir * pm.dy / p.solid.k)
  }

  /** The plate starts uniformly at the initial temperature; only the minimum
      is checked against the 200-400 K band. */
  function Init(p: Params): (r: Result<Field>)
    requires p.nxPlate >= 1 && p.nyPlate >= 1
    ensures r.Ok? <==> 200.0 < p.tInit < 400.0
    ensures r.Err? ==> r.error == PhysicalRange
    ensures r.Ok? ==> IsGrid(r.value, p.nxPlate, p.nyPlate) && Uniform2(r.value, p.tInit)
  {
    var t := Fill2(p.nxPlate, p.nyPlate, p.tInit);
    assert t[0][0] == p.tInit;
    if 200.0 < Min2(t) < 400.0 then Ok(t) else Err(PhysicalRange)
  }

  /** The water temperature on the plate nodes: copied when it already has one
      value per plate node, linearly interpolated from the fluid grid otherwise. */
  function FluidOnPlate(tFluid: seq<real>, xFluid: seq<real>, xPlate: seq<real>): (r: Result<seq<real>>)
    ensures |tFluid| == |xPlate| ==> r == Ok(tFluid)
    ensures |tFluid| != |xPlate| ==> r.Ok? == (|xFluid| == |tFluid| > 0)
    ensures r.Ok? ==> |r.value| == |xPlate|
  {
    if |tFluid| == |xPlate| then Ok(tFluid) else Interpolate(xPlate, xFluid, tFluid)
  }

  /** Whichever way it is obtained, the water temperature on the plate stays
      within any band holding the water temperatures. */
  lemma FluidOnPlateWithin(tFluid: seq<real>, xFluid: seq<real>, xPlate: seq<real>, lo: real, hi: real)
    requires Within(tFluid, lo, hi) && FluidOnPlate(tFluid, xFluid, xPlate).Ok?
    ensures Within(FluidOnPlate(tFluid, xFluid, xPlate).value, lo, hi)
  {
    if |tFluid| != |xPlate| {
      InterpolateWithin(xPlate, xFluid, tFluid, lo, hi);
    }
  }

  /** The new value of a node `(i, j)` off the lateral ends: diffusion along x,
      plus diffusion across y in the interior, or twice the half-cell flux
      balance at a face, where the exchange term pulls the node towards the
      water temperature `tf[i]` (bottom) or the ambient `tInf` (top). */
  function Node(t: Field, tf: seq<real>, c: Coeffs, tInf: real, ny: nat, i: nat, j: nat): real
    requires ny >= 2 && IsGrid(t, |t|, ny) && |tf| == |t|
    requires 1 <= i < |t| - 1 && j < ny
  {
    var v, e, w := t[i][j], t[i + 1][j], t[i - 1][j];
    if j == 0 then Face(v, e, w, t[i][1], tf[i], c.fox, c.foy, c.bw)
    else if j == ny - 1 then Face(v, e, w, t[i][ny - 2], tInf, c.fox, c.foy, c.ba)
    else Interior(v, e, w, t[i][j + 1], t[i][j - 1], c.fox, c.foy)
  }

  /** The updated row `i` of an inner x position. */
  function Row(t: Field, tf: seq<real>, c: Coeffs, tInf: real, ny: nat, i: nat): (row: seq<real>)
    requires ny >= 2 && IsGrid(t, |t|, ny) && |tf| == |t|
    requires 1 <= i < |t| - 1
    ensures |row| == ny
    ensures forall j {:trigger row[j]} :: 0 <= j < ny ==> row[j] == Node(t, tf, c, tInf, ny, i, j)
  {
    seq(ny, j requires 0 <= j < ny => Node(t, tf, c, tInf, ny, i, j))
  }

  /** The whole update: a zero field, the inner rows written, then row 0 copied
      from row 1 and row Nx-1 from row Nx-2. */
  function Advance(t: Field, tf: seq<real>, c: Coeffs, tInf: real, ny: nat): (r: Field)
    requires ny >= 2 && |t| >= 2 && IsGrid(t, |t|, ny) && |tf| == |t|
    ensures IsGrid(r, |t|, ny)
    ensures |t| >= 3 ==> forall i, j {:trigger r[i][j]} :: 1 <= i < |t| - 1 && 0 <= j < ny ==> r[i][j] == Node(t, tf, c, tInf, ny, i, j)
    ensures |t| >= 3 ==> r[0] == r[1] && r[|t| - 1] == r[|t| - 2]
    ensures |t| == 2 ==> Uniform2(r, 0.0)
  {
    CopyEnds(Written(t, tf, c, tInf, ny))
  }

  /** Row 0 overwritten with row 1, then the last row with the one before it. */
  function CopyEnds(w: Field): (r: Field)
    requires |w| >= 2
    ensures |r| == |w|
    ensures forall i {:trigger r[i]} :: 1 <= i < |w| - 1 ==> r[i] == w[i]
    ensures |w| >= 3 ==> r[0] == w[1] && r[|w| - 1] == w[|w| - 2]
    ensures |w| == 2 ==> r[0] == w[1] && r[1] == w[1]
  {
    var left := w[0 := w[1]];
    left[|w| - 1 := left[|w| - 2]]
  }

  /** A zero field with the inner rows written. */
  function Written(t: Field, tf: seq<real>, c: Coeffs, tInf: real, ny: nat): (w: Field)
    requires ny >= 2 && |t| >= 2 && IsGrid(t, |t|, ny) && |tf| == |t|
    ensures IsGrid(w, |t|, ny)
    ensures forall i {:trigger w[i]} :: 1 <= i < |t| - 1 ==> w[i] == Row(t, tf, c, tInf, ny, i)
    ensures w[0] == Fill(ny, 0.0) && w[|t| - 1] == Fill(ny, 0.0)
  {
    var n := |t|;
    seq(n, i requires 0 <= i < n => if 1 <= i < n - 1 then Row(t, tf, c, tInf, ny, i) else Fill(ny, 0.0))
  }

  /** The closing range check of the plate update. */
  function RangeChecked2(f: Field): (r: Result<Field>)
    requires NonEmpty2(f)
    ensures r.Ok? <==> StrictlyWithin2(f, 200.0, 400.0)
    ensures r.Ok? ==> r.value == f
    ensures r.Err? ==> r.error == PhysicalRange
  {
    InBand2Iff(f, 200.0, 400.0);
    if !InBand2(f, 200.0, 400.0) then Err(PhysicalRange) else Ok(f)
  }

  /** `actualizar_placa`: shape check, Fourier check, water temperature on the
      plate nodes, the update and the 200-400 K range check. A plate of two
      nodes along x has no inner row, so its update is all zeros and always
      fails the range check. */
  function Step(told: Field, tFluid: seq<real>, p: Params, pm: PlateMesh, xFluid: seq<real>, dt: real)
    : (r: Result<Field>)
    requires Ready(p, pm)
    ensures !IsGrid(told, p.nxPlate, p.nyPlate) ==> r == Err(ShapeMismatch)
    ensures IsGrid(told, p.nxPlate, p.nyPlate) && CoeffsOf(p, pm, dt).fox + CoeffsOf(p, pm, dt).foy >= 0.5
            ==> r == Err(Instability)
    ensures r.Ok? ==> CoeffsOf(p, pm, dt).fox + CoeffsOf(p, pm, dt).foy < 0.5
    ensures r.Ok? ==> p.nxPlate >= 3
    ensures r.Ok? ==> IsGrid(r.value, p.nxPlate, p.nyPlate) && StrictlyWithin2(r.value, 200.0, 400.0)
    ensures r.Ok? ==> var tf := FluidOnPlate(tFluid, xFluid, pm.x);
                      tf.Ok? && r.value == Advance(told, tf.value, CoeffsOf(p, pm, dt), p.tInf, p.nyPlate)
  {
    if !IsGrid(told, p.nxPlate, p.nyPlate) then Err(ShapeMismatch)
    else
      var c := CoeffsOf(p, pm, dt);
      if !(c.fox + c.foy < 0.5) then Err(Instability)
      else
        match FluidOnPlate(tFluid, xFluid, pm.x)
        case Err(e) => Err(e)
        case Ok(tf) =>
          var tnew := Advance(told, tf, c, p.tInf, p.nyPlate);
          assert |told| == 2 ==> tnew[0][0] == 0.0;
          RangeChecked2(tnew)
  }

  // ---------------------------------------------------------------------------
  // Properties
  // ---------------------------------------------------------------------------

  /** Non-negative numbers small enough that every node update, faces
      included, is a convex combination of old values. */
  predicate Monotone(c: Coeffs) {
    && c.fox >= 0.0 && c.foy >= 0.0 && c.bw >= 0.0 && c.ba >= 0.0
    && 2.0 * c.fox + 2.0 * c.foy * (1.0 + c.bw) <= 1.0
    && 2.0 * c.fox + 2.0 * c.foy * (1.0 + c.ba) <= 1.0
  }

  /** Under `Monotone` a node's new value lies within any band holding its
      neighbours, its water temperature and the ambient. */
  lemma NodeWithin(t: Field, tf: seq<real>, c: Coeffs, tInf: real, ny: nat, i: nat, j: nat, lo: real, hi: real)
    requires ny >= 2 && IsGrid(t, |t|, ny) && |tf| == |t|
    requires 1 <= i < |t| - 1 && j < ny
    requires Monotone(c) && Within2(t, lo, hi) && Within(tf, lo, hi) && lo <= tInf <= hi
    ensures lo <= Node(t, tf, c, tInf, ny, i, j) <= hi
  {
    var v, e, w := t[i][j], t[i + 1][j], t[i - 1][j];
    assert Within(t[i], lo, hi) && Within(t[i + 1], lo, hi) && Within(t[i - 1], lo, hi);
    if j == 0 {
      FaceConvex(v, e, w, t[i][1], tf[i], c.fox, c.foy, c.bw, lo, hi);
    } else if j == ny - 1 {
      FaceConvex(v, e, w, t[i][ny - 2], tInf, c.fox, c.foy, c.ba, lo, hi);
    } else {
      ProductNonNegative(c.foy, c.bw);
      InteriorConvex(v, e, w, t[i][j + 1], t[i][j - 1], c.fox, c.foy, lo, hi);
    }
  }

  /** Discrete maximum principle: the updated plate stays within any band
      holding the old plate, the water temperatures and the ambient. */
  lemma AdvanceWithin(t: Field, tf: seq<real>, c: Coeffs, tInf: real, ny: nat, lo: real, hi: real)
    requires ny >= 2 && |t| >= 3 && IsGrid(t, |t|, ny) && |tf| == |t|
    requires Monotone(c) && Within2(t, lo, hi) && Within(tf, lo, hi) && lo <= tInf <= hi
    ensures Within2(Advance(t, tf, c, tInf, ny), lo, hi)
  {
    var r := Advance(t, tf, c, tInf, ny);
    forall i, j | 1 <= i < |t| - 1 && 0 <= j < ny
      ensures lo <= r[i][j] <= hi
    {
      NodeWithin(t, tf, c, tInf, ny, i, j, lo, hi);
    }
    assert forall j :: 0 <= j < ny ==> r[0][j] == r[1][j] && r[|t| - 1][j] == r[|t| - 2][j];
  }

  /** A plate in equilibrium with water and air at the same temperature keeps it. */
  lemma AdvanceFixedPoint(nx: nat, ny: nat, v: real, c: Coeffs)
    requires nx >= 3 && ny >= 2
    ensures Advance(Fill2(nx, ny, v), Fill(nx, v), c, v, ny) == Fill2(nx, ny, v)
  {
    var t := Fill2(nx, ny, v);
    var r := Advance(t, Fill(nx, v), c, v, ny);
    InteriorUniform(v, c.fox, c.foy);
    FaceUniform(v, c.fox, c.foy, c.bw);
    FaceUniform(v, c.fox, c.foy, c.ba);
    forall i | 0 <= i < nx
      ensures r[i] == t[i]
    {
      var k := if i == 0 then 1 else if i == nx - 1 then nx - 2 else i;
      assert r[i] == r[k];
      forall j | 0 <= j < ny
        ensures r[k][j] == v
      {
        assert t[k][j] == v && t[k + 1][j] == v && t[k - 1][j] == v;
        assert 0 < j < ny - 1 ==> t[k][j + 1] == v && t[k][j - 1] == v;
        assert t[k][1] == v && t[k][ny - 2] == v;
      }
    }
  }

  /** The air term cools the top face exactly when it is hotter than the
      ambient: with a positive air Biot number the new top value is below the
      value without exchange if and only if the node is above `tInf`. */
  lemma AirFaceSign(t: Field, tf: seq<real>, c: Coeffs, tInf: real, ny: nat, i: nat)
    requires ny >= 2 && IsGrid(t, |t|, ny) && |tf| == |t| && 1 <= i < |t| - 1
    requires c.foy > 0.0 && c.ba > 0.0
    ensures Node(t, tf, c, tInf, ny, i, ny - 1) < Node(t, tf, c.(ba := 0.0), tInf, ny, i, ny - 1)
            <==> t[i][ny - 1] > tInf
  {
    FaceExchangeSign(t[i][ny - 1], t[i + 1][ny - 1], t[i - 1][ny - 1], t[i][ny - 2], tInf, c.fox, c.foy, c.ba);
  }

  /** The same for the wetted face: the water term cools node `(i, 0)` exactly
      when it is hotter than the water beneath it. */
  lemma WaterFaceSign(t: Field, tf: seq<real>, c: Coeffs, tInf: real, ny: nat, i: nat)
    requires ny >= 2 && IsGrid(t, |t|, ny) && |tf| == |t| && 1 <= i < |t| - 1
    requires c.foy > 0.0 && c.bw > 0.0
    ensures Node(t, tf, c, tInf, ny, i, 0) < Node(t, tf, c.(bw := 0.0), tInf, ny, i, 0)
            <==> t[i][0] > tf[i]
  {
    FaceExchangeSign(t[i][0], t[i + 1][0], t[i - 1][0], t[i][1], tf[i], c.fox, c.foy, c.bw);
  }

  /** A plate of two nodes along x passes every check but the last: its update
      is the zero field, outside the physical band. */
  lemma NarrowPlateOutOfRange(told: Field, tFluid: seq<real>, p: Params, pm: PlateMesh, xFluid: seq<real>, dt: real)
    requires Ready(p, pm) && p.nxPlate == 2 && IsGrid(told, 2, p.nyPlate)
    requires CoeffsOf(p, pm, dt).fox + CoeffsOf(p, pm, dt).foy < 0.5
    requires FluidOnPlate(tFluid, xFluid, pm.x).Ok?
    ensures Step(told, tFluid, p, pm, xFluid, dt) == Err(PhysicalRange)
  {
  }

  /** The step's equilibrium: plate, water and air all at one temperature
      inside the band, with a stable Fourier sum, give back the same plate. */
  lemma StepFixedPoint(p: Params, pm: PlateMesh, xFluid: seq<real>, dt: real, v: real)
    requires Ready(p, pm) && p.nxPlate >= 3 && p.tInf == v && 200.0 < v < 400.0
    requires CoeffsOf(p, pm, dt).fox + CoeffsOf(p, pm, dt).foy < 0.5
    ensures Step(Fill2(p.nxPlate, p.nyPlate, v), Fill(p.nxPlate, v), p, pm, xFluid, dt)
            == Ok(Fill2(p.nxPlate, p.nyPlate, v))
  {
    var t := Fill2(p.nxPlate, p.nyPlate, v);
    StepAdvances(t, Fill(p.nxPlate, v), p, pm, xFluid, dt);
    AdvanceFixedPoint(p.nxPlate, p.nyPlate, v, CoeffsOf(p, pm, dt));
    assert StrictlyWithin2(t, 200.0, 400.0);
  }

  /** With the shape and Fourier checks passed and water temperatures given
      per plate node, the step is the range-checked update. */
  lemma StepAdvances(told: Field, tFluid: seq<real>, p: Params, pm: PlateMesh, xFluid: seq<real>, dt: real)
    requires Ready(p, pm) && p.nxPlate >= 3 && IsGrid(told, p.nxPlate, p.nyPlate) && |tFluid| == p.nxPlate
    requires CoeffsOf(p, pm, dt).fox + CoeffsOf(p, pm, dt).foy < 0.5
    ensures Step(told, tFluid, p, pm, xFluid, dt) == RangeChecked2(Advance(told, tFluid, CoeffsOf(p, pm, dt), p.tInf, p.nyPlate))
  {
  }

  /** Under `Monotone` numbers the range check can never fail: plate, water
      and ambient inside (200, 400) K step to a plate inside it. */
  lemma StableStepSucceeds(told: Field, tFluid: seq<real>, p: Params, pm: PlateMesh, xFluid: seq<real>, dt: real)
    requires Ready(p, pm) && p.nxPlate >= 3 && IsGrid(told, p.nxPlate, p.nyPlate)
    requires Monotone(CoeffsOf(p, pm, dt)) && CoeffsOf(p, pm, dt).fox + CoeffsOf(p, pm, dt).foy < 0.5
    requires |tFluid| == p.nxPlate
    requires StrictlyWithin2(told, 200.0, 400.0) && StrictlyWithin(tFluid, 200.0, 400.0) && 200.0 < p.tInf < 400.0
    ensures Step(told, tFluid, p, pm, xFluid, dt).Ok?
  {
    var c := CoeffsOf(p, pm, dt);
    var lo, hi := InnerBand2(told, tFluid, p.tInf, 200.0, 400.0);
    AdvanceWithin(told, tFluid, c, p.tInf, p.nyPlate, lo, hi);
    Tighten2(Advance(told, tFluid, c, p.tInf, p.nyPlate), lo, hi, 200.0, 400.0);
  }
}
