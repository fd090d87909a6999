/** The water channel: a 1-D temperature profile along the flow, advanced by
    an explicit first-order upwind scheme with linear relaxation towards the
    plate surface temperature,

      T'[i] = T[i] - CFL (T[i] - T[i-1]) - gamma dt (T[i] - Ts[i]),

    a fixed inlet temperature at i = 0 and a zero-gradient outlet.
 */
module Fluid {
  import opened Outcomes
  import opened Fields
  import opened Interp
  import opened Parameters
  import opened Meshes

  /** What the step needs of the parameters: a channel of at least two nodes
      and a defined exchange coefficient (every constructed parameter set has both). */
  predicate Ready(p: Params) {
    p.nxFluid >= 2 && p.rhoWater > 0.0 && p.cpWater > 0.0 && p.eWater > 0.0
  }

  /** The initial profile: the solid's initial temperature everywhere, the
      inlet temperature at the inlet node, checked against the 200-400 K band. */
  function Init(p: Params): (r: Result<seq<real>>)
    requires p.nxFluid >= 1
    ensures r.Ok? <==> 200.0 < p.tIn < 400.0 && (p.nxFluid == 1 || 200.0 < p.tInit < 400.0)
    ensures r.Err? ==> r.error == PhysicalRange
    ensures r.Ok? ==> |r.value| == p.nxFluid && r.value[0] == p.tIn
    ensures r.Ok? ==> forall i :: 1 <= i < p.nxFluid ==> r.value[i] == p.tInit
  {
    var t := Fill(p.nxFluid, p.tInit)[0 := p.tIn];
    InBandIff(t, 200.0, 400.0);
    assert p.nxFluid > 1 ==> t[1] == p.tInit;
    if !InBand(t, 200.0, 400.0) then Err(PhysicalRange) else Ok(t)
  }

  /** The plate surface temperature on the fluid nodes: used as it is when it
      already has one value per fluid node, linearly interpolated from the
      plate nodes otherwise. */
  function SurfaceOnFluid(surface: seq<real>, xPlate: seq<real>, xFluid: seq<real>, nx: nat): (r: Result<seq<real>>)
    ensures |surface| == nx ==> r == Ok(surface)
    ensures |surface| != nx ==> r == Interpolate(xFluid, xPlate, surface)
  {
    if |surface| != nx then Interpolate(xFluid, xPlate, surface) else Ok(surface)
  }

  /** The Courant number u dt / dx of the channel grid. */
  function Courant(p: Params, fm: FluidMesh, dt: real): real
    requires fm.dx > 0.0
  {
    p.u * dt / fm.dx
  }

  /** The exchange number gamma dt, gamma = h_water / (rho_w cp_w e_water). */
  function Exchange(p: Params, dt: real): real
    requires Ready(p)
  {
    Gamma(p) * dt
  }

  /** One upwind node update from the upstream value `tw`, the node's own
      value `tc` and the surface temperature `ts`. */
  function Upwind(tw: real, tc: real, ts: real, cfl: real, gdt: real): real {
    tc - cfl * (tc - tw) - gdt * (tc - ts)
  }

  /** The node values before the outlet copy: the inlet value at 0, the upwind
      update elsewhere. */
  function Node(t: seq<real>, ts: seq<real>, cfl: real, gdt: real, tIn: real, i: nat): real
    requires i < |t| && |ts| == |t|
  {
    if i == 0 then tIn else Upwind(t[i - 1], t[i], ts[i], cfl, gdt)
  }

  /** The whole explicit update: inlet Dirichlet, upwind interior, and the
      outlet copying its upstream neighbour's new value. */
  function Advance(t: seq<real>, ts: seq<real>, cfl: real, gdt: real, tIn: real): (r: seq<real>)
    requires |t| >= 2 && |ts| == |t|
    ensures |r| == |t|
    ensures r[0] == tIn
    ensures r[|t| - 1] == r[|t| - 2]
    ensures forall i :: 1 <= i < |t| - 1 ==> r[i] == Upwind(t[i - 1], t[i], ts[i], cfl, gdt)
  {
    var n := |t|;
    seq(n, i requires 0 <= i < n => if i == n - 1 then Node(t, ts, cfl, gdt, tIn, n - 2) else Node(t, ts, cfl, gdt, tIn, i))
  }

  /** The closing range check of the fluid update. */
  function RangeChecked(t: seq<real>): (r: Result<seq<real>>)
    requires |t| > 0
    ensures r.Ok? <==> StrictlyWithin(t, 200.0, 400.0)
    ensures r.Ok? ==> r.value == t
    ensures r.Err? ==> r.error == PhysicalRange
  {
    InBandIff(t, 200.0, 400.0);
    if !InBand(t, 200.0, 400.0) then Err(PhysicalRange) else Ok(t)
  }

  /** `actualizar_fluido`: shape check, Courant check, surface temperature on
      the fluid nodes, the update, and the 200-400 K range check. */
  function Step(told: seq<real>, surface: seq<real>, p: Params, fm: FluidMesh, xPlate: seq<real>, dt: real)
    : (r: Result<seq<real>>)
    requires Ready(p) && fm.dx > 0.0
    ensures |told| != p.nxFluid ==> r == Err(ShapeMismatch)
    ensures |told| == p.nxFluid && Courant(p, fm, dt) >= 1.0 ==> r == Err(Instability)
    ensures r.Ok? ==> Courant(p, fm, dt) < 1.0
    ensures r.Ok? ==> |r.value| == |told| == p.nxFluid
    ensures r.Ok? ==> r.value[0] == p.tIn && r.value[|told| - 1] == r.value[|told| - 2]
    ensures r.Ok? ==> StrictlyWithin(r.value, 200.0, 400.0)
    ensures r.Ok? ==> var ts := SurfaceOnFluid(surface, xPlate, fm.x, p.nxFluid);
                      ts.Ok? && |ts.value| == |told| && r.value == Advance(told, ts.value, Courant(p, fm, dt), Exchange(p, dt), p.tIn)
  {
    if |told| != p.nxFluid then Err(ShapeMismatch)
    else
      var cfl := Courant(p, fm, dt);
      if !(cfl < 1.0) then Err(Instability)
      else
        match SurfaceOnFluid(surface, xPlate, fm.x, p.nxFluid)
        case Err(e) => Err(e)
        case Ok(ts) =>
          if |ts| != p.nxFluid then Err(ShapeMismatch)
          else RangeChecked(Advance(told, ts, cfl, Exchange(p, dt), p.tIn))
  }

  // ---------------------------------------------------------------------------
  // Properties
  // ---------------------------------------------------------------------------

  /** With non-negative Courant and exchange numbers summing to at most one,
      the update is a convex combination of the node, its upstream neighbour
      and the surface: it stays within any band holding all three. */
  lemma UpwindConvex(tw: real, tc: real, ts: real, cfl: real, gdt: real, lo: real, hi: real)
    requires 0.0 <= cfl && 0.0 <= gdt && cfl + gdt <= 1.0
    requires lo <= tw <= hi && lo <= tc <= hi && lo <= ts <= hi
    ensures lo <= Upwind(tw, tc, ts, cfl, gdt) <= hi
  {
    var w := 1.0 - cfl - gdt;
    assert Upwind(tw, tc, ts, cfl, gdt) == w * tc + cfl * tw + gdt * ts;
    ProductNonNegative(w, hi - tc);
    ProductNonNegative(cfl, hi - tw);
    ProductNonNegative(gdt, hi - ts);
    ProductNonNegative(w, tc - lo);
    ProductNonNegative(cfl, tw - lo);
    ProductNonNegative(gdt, ts - lo);
  }

  /** Discrete maximum principle: the new profile stays within any band that
      holds the old profile, the surface temperatures and the inlet value. */
  lemma AdvanceWithin(t: seq<real>, ts: seq<real>, cfl: real, gdt: real, tIn: real, lo: real, hi: real)
    requires |t| >= 2 && |ts| == |t|
    requires 0.0 <= cfl && 0.0 <= gdt && cfl + gdt <= 1.0
    requires Within(t, lo, hi) && Within(ts, lo, hi) && lo <= tIn <= hi
    ensures Within(Advance(t, ts, cfl, gdt, tIn), lo, hi)
  {
    var r := Advance(t, ts, cfl, gdt, tIn);
    forall i | 1 <= i < |t| - 1
      ensures lo <= r[i] <= hi
    {
      UpwindConvex(t[i - 1], t[i], ts[i], cfl, gdt, lo, hi);
    }
  }

  /** Past its shape and Courant checks, with a surface already on the fluid
      nodes, the step is the range-checked explicit update. */
  lemma StepUnfolds(told: seq<real>, surface: seq<real>, p: Params, fm: FluidMesh, xPlate: seq<real>, dt: real)
    requires Ready(p) && fm.dx > 0.0
    requires |told| == p.nxFluid && Courant(p, fm, dt) < 1.0 && |surface| == p.nxFluid
    ensures Step(told, surface, p, fm, xPlate, dt) == RangeChecked(Advance(told, surface, Courant(p, fm, dt), Exchange(p, dt), p.tIn))
  {
  }

  /** The step succeeds exactly when its checks pass, with the advanced profile. */
  lemma StepSucceeds(told: seq<real>, surface: seq<real>, p: Params, fm: FluidMesh, xPlate: seq<real>, dt: real)
    requires Ready(p) && fm.dx > 0.0
    requires |told| == p.nxFluid && Courant(p, fm, dt) < 1.0 && |surface| == p.nxFluid
    requires StrictlyWithin(Advance(told, surface, Courant(p, fm, dt), Exchange(p, dt), p.tIn), 200.0, 400.0)
    ensures Step(told, surface, p, fm, xPlate, dt) == Ok(Advance(told, surface, Courant(p, fm, dt), Exchange(p, dt), p.tIn))
  {
    var tnew := Advance(told, surface, Courant(p, fm, dt), Exchange(p, dt), p.tIn);
    StepUnfolds(told, surface, p, fm, xPlate, dt);
    assert RangeChecked(tnew) == Ok(tnew);
  }

  /** A channel at the inlet temperature over a surface at that temperature
      does not change. */
  lemma AdvanceFixedPoint(n: nat, cfl: real, gdt: real, tIn: real)
    requires n >= 2
    ensures Advance(Fill(n, tIn), Fill(n, tIn), cfl, gdt, tIn) == Fill(n, tIn)
  {
    var r := Advance(Fill(n, tIn), Fill(n, tIn), cfl, gdt, tIn);
    assert forall i :: 0 <= i < n ==> r[i] == tIn;
  }

  /** The step's equilibrium: with the channel and the surface at the inlet
      temperature and a stable Courant number, the step returns its input. */
  lemma StepFixedPoint(p: Params, fm: FluidMesh, xPlate: seq<real>, dt: real)
    requires Ready(p) && fm.dx > 0.0 && 200.0 < p.tIn < 400.0
    requires Courant(p, fm, dt) < 1.0
    ensures Step(Fill(p.nxFluid, p.tIn), Fill(p.nxFluid, p.tIn), p, fm, xPlate, dt) == Ok(Fill(p.nxFluid, p.tIn))
  {
    var t := Fill(p.nxFluid, p.tIn);
    AdvanceFixedPoint(p.nxFluid, Courant(p, fm, dt), Exchange(p, dt), p.tIn);
    assert StrictlyWithin(t, 200.0, 400.0);
    StepSucceeds(t, t, p, fm, xPlate, dt);
  }

  /** The new inlet value never depends on the old profile. */
  lemma InletIgnoresHistory(t1: seq<real>, t2: seq<real>, ts: seq<real>, cfl: real, gdt: real, tIn: real)
    requires |t1| >= 2 && |t2| == |t1| && |ts| == |t1|
    ensures Advance(t1, ts, cfl, gdt, tIn)[0] == Advance(t2, ts, cfl, gdt, tIn)[0] == tIn
  {
  }

  /** Under the stability bound the range check can never fail: a profile and
      surface inside (200, 400) K with an inlet inside it step to a profile
      inside it. */
  lemma StableStepSucceeds(told: seq<real>, surface: seq<real>, p: Params, fm: FluidMesh, xPlate: seq<real>, dt: real)
    requires Ready(p) && fm.dx > 0.0 && dt >= 0.0 && p.u >= 0.0 && p.hWater > 0.0 && 200.0 < p.tIn < 400.0
    requires |told| == p.nxFluid && |surface| == p.nxFluid
    requires Courant(p, fm, dt) + Exchange(p, dt) <= 1.0
    requires StrictlyWithin(told, 200.0, 400.0) && StrictlyWithin(surface, 200.0, 400.0)
    ensures Step(told, surface, p, fm, xPlate, dt).Ok?
  {
    var cfl := Courant(p, fm, dt);
    var gdt := Exchange(p, dt);
    assert cfl >= 0.0 by {
      ProductNonNegative(p.u, dt);
    }
    assert gdt >= 0.0 by {
      ProductNonNegative(Gamma(p), dt);
    }
    var lo, hi := InnerBand(told, surface, p.tIn, 200.0, 400.0);
    var tnew := Advance(told, surface, cfl, gdt, p.tIn);
    AdvanceWithin(told, surface, cfl, gdt, p.tIn, lo, hi);
    Tighten(tnew, lo, hi, 200.0, 400.0);
    StepSucceeds(told, surface, p, fm, xPlate, dt);
  }
}
