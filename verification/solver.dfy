/** The master time loop: the fluid, the plate and the three fins advanced
    in turn on two time scales (one plate step, several fin sub-steps per
    plate step), the steady-state test over every node of the system, and
    the history of saved states.
 */
module Solver {
  import opened Outcomes
  import opened Fields
  import opened Parameters
  import opened Meshes
  import Fluid
  import Plate
  import Fins
  import Coupling

  // ---------------------------------------------------------------------------
  // Time scales
  // ---------------------------------------------------------------------------

  /** The first ring's stability number, alpha dt / dr^2 + alpha dt / (dr dtheta)^2,
      of a fin step `dt`. */
  function FinNumber(alpha: real, dt: real, dr: real, dtheta: real): real
    requires dr > 0.0 && dtheta > 0.0
  {
    alpha * dt / (dr * dr) + alpha * dt / ((dr * dtheta) * (dr * dtheta))
  }

  /** 80% of the largest fin step whose first-ring number stays at 1/2. */
  function FinLimitStep(alpha: real, dr: real, dtheta: real): (t: real)
    requires alpha > 0.0 && dr > 0.0 && dtheta > 0.0
    ensures t > 0.0
    ensures FinNumber(alpha, t, dr, dtheta) == 0.4
    ensures forall dt :: dt <= t ==> FinNumber(alpha, dt, dr, dtheta) <= 0.4
  {
    ProductPositive(dr, dtheta);
    var t := 0.8 * FourierLimit(alpha, dr, dr * dtheta);
    forall dt | dt <= t ensures FinNumber(alpha, dt, dr, dtheta) <= 0.4 {
      UnderFourierLimit(alpha, dt, dr, dr * dtheta, 0.8);
    }
    UnderFourierLimit(alpha, t, dr, dr * dtheta, 0.8);
    t
  }

  /** `calcular_dt_aletas` on the fin mesh's spacings: 80% of the largest
      step whose first-ring number (r = dr) stays at 1/2, rejected unless
      positive and shorter than the plate step. A zero diffusivity `alpha`
      divides by zero. */
  function FinTimeStep(alpha: real, dr: real, dtheta: real, dtPlate: real): (r: Result<real>)
    requires dr > 0.0 && dtheta > 0.0
    ensures alpha == 0.0 ==> r == Err(InvalidArgument)
    ensures alpha < 0.0 ==> r == Err(InvalidConfiguration)
    ensures r.Ok? ==> 0.0 < r.value < dtPlate
    ensures r.Ok? ==> FinNumber(alpha, r.value, dr, dtheta) == 0.4
    ensures r.Ok? ==> forall dt :: dt <= r.value ==> FinNumber(alpha, dt, dr, dtheta) <= 0.4
    ensures alpha > 0.0 ==> (r.Err? <==> dtPlate <= FinLimitStep(alpha, dr, dtheta))
  {
    if alpha == 0.0 then Err(InvalidArgument)
    else if alpha < 0.0 then Err(InvalidConfiguration)
    else
      var dtSafe := FinLimitStep(alpha, dr, dtheta);
      if dtSafe < dtPlate then Ok(dtSafe) else Err(InvalidConfiguration)
  }

  /** Any step no longer than the computed fin step passes the fin update's
      stability check on a fin mesh whose first ring sits at r = dr: the
      checked number is at most 0.4, under the bound 1/2. */
  lemma FinStepStable(p: Params, fm: FinMesh, dtPlate: real, dt: real)
    requires Fins.Ready(p, fm) && fm.r[1] == fm.dr
    requires FinTimeStep(p.solid.alpha, fm.dr, fm.dtheta, dtPlate).Ok?
    requires 0.0 < dt <= FinTimeStep(p.solid.alpha, fm.dr, fm.dtheta, dtPlate).value
    ensures fm.r[1] * fm.dtheta != 0.0
    ensures Fins.FirstRingNumber(Fins.CoeffsOf(p, fm, dt), fm) <= 0.4
  {
    ProductPositive(fm.dr, fm.dtheta);
    FirstRingIsFinNumber(p, fm, dt);
  }

  /** On a mesh whose first ring is at r = dr the checked number is `FinNumber`. */
  lemma FirstRingIsFinNumber(p: Params, fm: FinMesh, dt: real)
    requires Fins.Ready(p, fm) && fm.r[1] == fm.dr
    ensures fm.r[1] * fm.dtheta != 0.0
    ensures Fins.FirstRingNumber(Fins.CoeffsOf(p, fm, dt), fm) == FinNumber(p.solid.alpha, dt, fm.dr, fm.dtheta)
  {
    ProductPositive(fm.dr, fm.dtheta);
    AngularIsQuotient(p.solid.alpha * dt, fm.dr, fm.dtheta);
  }

  lemma AngularIsQuotient(k: real, dr: real, dtheta: real)
    requires dr * dtheta != 0.0
    ensures Fins.Angular(k, dr, dtheta) == k / ((dr * dtheta) * (dr * dtheta))
  {
    OverIsTimesInverse(k, (dr * dtheta) * (dr * dtheta));
  }

  lemma OverIsTimesInverse(k: real, y: real)
    requires y != 0.0
    ensures k * (1.0 / y) == k / y
  {
  }

  /** The fin sub-steps of one plate step. */
  datatype Schedule = Schedule(count: nat, dt: real)

  /** `int(np.ceil(x))`. */
  function Ceil(x: real): (c: int)
    ensures x <= c as real < x + 1.0
  {
    -((-x).Floor)
  }

  /** `n_subpasos_aletas` and `dt_aletas_ajustado`: the fewest sub-steps no
      longer than `dtFin` that add up to exactly one plate step. */
  function SubSteps(dtPlate: real, dtFin: real): (s: Schedule)
    requires 0.0 < dtFin < dtPlate
    ensures s.count >= 2
    ensures s.count as real * s.dt == dtPlate
    ensures 0.0 < s.dt <= dtFin
    ensures (s.count - 1) as real * dtFin < dtPlate
  {
    var q := dtPlate / dtFin;
    var n := Ceil(q);
    CeilSteps(dtPlate, dtFin, n);
    Schedule(n as nat, dtPlate / n as real)
  }

  lemma CeilSteps(dtPlate: real, dtFin: real, n: int)
    requires 0.0 < dtFin < dtPlate
    requires dtPlate / dtFin <= n as real < dtPlate / dtFin + 1.0
    ensures n >= 2
    ensures n as real * (dtPlate / n as real) == dtPlate
    ensures 0.0 < dtPlate / n as real <= dtFin
    ensures (n - 1) as real * dtFin < dtPlate
  {
    QuotientAbove(dtPlate, dtFin);
    assert n >= 2;
    QuotientTimes(dtPlate, n as real);
    QuotientBelow(dtPlate, n as real, dtFin);
    QuotientStrictlyAbove(dtPlate, dtFin, (n - 1) as real);
  }

  lemma QuotientTimes(a: real, m: real)
    requires m > 0.0
    ensures m * (a / m) == a
  {
  }

  /** A quotient of a larger by a smaller positive number exceeds one. */
  lemma QuotientAbove(a: real, b: real)
    requires 0.0 < b < a
    ensures a / b > 1.0
  {
  }

  /** `a / m <= d` as soon as `m >= a / d`. */
  lemma QuotientBelow(a: real, m: real, d: real)
    requires a > 0.0 && d > 0.0 && m >= a / d
    ensures 0.0 < a / m <= d
  {
    assert m * d >= (a / d) * d;
  }

  /** `k * d < a` as soon as `k < a / d`. */
  lemma QuotientStrictlyAbove(a: real, d: real, k: real)
    requires d > 0.0 && k < a / d
    ensures k * d < a
  {
    assert (a / d - k) * d > 0.0;
  }

  // ---------------------------------------------------------------------------
  // Steady-state test
  // ---------------------------------------------------------------------------

  /** The temperatures of the whole system at one instant. */
  datatype State = State(fluid: seq<real>, plate: Field, fins: seq<Field>)

  /** |dT/dt| at one node: |new - old| / dt. */
  function Rate(a: real, b: real, dt: real): (r: real)
    requires dt > 0.0
    ensures r >= 0.0
    ensures r == 0.0 <==> a == b
  {
    Abs(b - a) / dt
  }

  function Rates(a: seq<real>, b: seq<real>, dt: real): (rs: seq<real>)
    requires |a| == |b| && dt > 0.0
    ensures |rs| == |a|
    ensures forall i :: 0 <= i < |a| ==> rs[i] == Rate(a[i], b[i], dt)
  {
    seq(|a|, i requires 0 <= i < |a| => Rate(a[i], b[i], dt))
  }

  predicate SameShape(a: Field, b: Field) {
    |a| == |b| && forall i :: 0 <= i < |a| ==> |a[i]| == |b[i]|
  }

  function Rates2(a: Field, b: Field, dt: real): (rs: Field)
    requires SameShape(a, b) && dt > 0.0
    ensures SameShape(rs, a)
    ensures forall i, j :: 0 <= i < |a| && 0 <= j < |a[i]| ==> rs[i][j] == Rate(a[i][j], b[i][j], dt)
  {
    seq(|a|, i requires 0 <= i < |a| => Rates(a[i], b[i], dt))
  }

  /** What the steady-state test can subtract and reduce: matching,
      non-empty shapes. Only the first three fins are read. */
  predicate Comparable(a: State, b: State) {
    && |a.fluid| == |b.fluid| > 0
    && SameShape(a.plate, b.plate) && NonEmpty2(a.plate)
    && |a.fins| >= 3 && |b.fins| >= 3
    && (forall k :: 0 <= k < 3 ==> SameShape(a.fins[k], b.fins[k]) && NonEmpty2(a.fins[k]))
  }

  /** Every node of one 2-D field changes at a rate of at most `m`. */
  predicate FieldAtMost(a: Field, b: Field, dt: real, m: real)
    requires SameShape(a, b) && dt > 0.0
  {
    forall i, j :: 0 <= i < |a| && 0 <= j < |a[i]| ==> Rate(a[i][j], b[i][j], dt) <= m
  }

  /** Every node of one 2-D field changes at a rate below `eps`. */
  predicate FieldBelow(a: Field, b: Field, dt: real, eps: real)
    requires SameShape(a, b) && dt > 0.0
  {
    forall i, j :: 0 <= i < |a| && 0 <= j < |a[i]| ==> Rate(a[i][j], b[i][j], dt) < eps
  }

  /** Some node of one 2-D field changes at exactly the rate `m`. */
  predicate FieldAttains(a: Field, b: Field, dt: real, m: real)
    requires SameShape(a, b) && dt > 0.0
  {
    exists i, j :: 0 <= i < |a| && 0 <= j < |a[i]| && Rate(a[i][j], b[i][j], dt) == m
  }

  /** Some node of the system (fluid, plate, first three fins) changes at
      exactly the rate `m`. */
  predicate RateAttained(a: State, b: State, dt: real, m: real)
    requires Comparable(a, b) && dt > 0.0
  {
    || (exists i :: 0 <= i < |a.fluid| && Rate(a.fluid[i], b.fluid[i], dt) == m)
    || FieldAttains(a.plate, b.plate, dt, m)
    || FieldAttains(a.fins[0], b.fins[0], dt, m)
    || FieldAttains(a.fins[1], b.fins[1], dt, m)
    || FieldAttains(a.fins[2], b.fins[2], dt, m)
  }

  /** Every node of the system (fluid, plate, first three fins) changes at a
      rate of at most `m`. */
  predicate RatesAtMost(a: State, b: State, dt: real, m: real)
    requires Comparable(a, b) && dt > 0.0
  {
    && (forall i :: 0 <= i < |a.fluid| ==> Rate(a.fluid[i], b.fluid[i], dt) <= m)
    && FieldAtMost(a.plate, b.plate, dt, m)
    && FieldAtMost(a.fins[0], b.fins[0], dt, m)
    && FieldAtMost(a.fins[1], b.fins[1], dt, m)
    && FieldAtMost(a.fins[2], b.fins[2], dt, m)
  }

  /** Every node of the system changes at a rate below `eps`. */
  predicate RatesBelow(a: State, b: State, dt: real, eps: real)
    requires Comparable(a, b) && dt > 0.0
  {
    && (forall i :: 0 <= i < |a.fluid| ==> Rate(a.fluid[i], b.fluid[i], dt) < eps)
    && FieldBelow(a.plate, b.plate, dt, eps)
    && FieldBelow(a.fins[0], b.fins[0], dt, eps)
    && FieldBelow(a.fins[1], b.fins[1], dt, eps)
    && FieldBelow(a.fins[2], b.fins[2], dt, eps)
  }

  /** The largest rate of one 2-D field bounds every node's rate, and lies
      below `eps` exactly when every node's rate does. */
  lemma FieldMax(a: Field, b: Field, dt: real, eps: real)
    requires SameShape(a, b) && NonEmpty2(a) && dt > 0.0
    ensures NonEmpty2(Rates2(a, b, dt))
    ensures FieldAtMost(a, b, dt, Max2(Rates2(a, b, dt)))
    ensures Max2(Rates2(a, b, dt)) < eps <==> FieldBelow(a, b, dt, eps)
  {
    var rs := Rates2(a, b, dt);
    assert NonEmpty2(rs);
    var i, j :| 0 <= i < |rs| && 0 <= j < |rs[i]| && rs[i][j] == Max2(rs);
    assert Rate(a[i][j], b[i][j], dt) == Max2(rs);
  }

  /** The largest rate of the fluid: the same two facts. */
  lemma LineMax(a: seq<real>, b: seq<real>, dt: real, eps: real)
    requires |a| == |b| > 0 && dt > 0.0
    ensures forall i :: 0 <= i < |a| ==> Rate(a[i], b[i], dt) <= Max(Rates(a, b, dt))
    ensures Max(Rates(a, b, dt)) < eps <==> forall i :: 0 <= i < |a| ==> Rate(a[i], b[i], dt) < eps
  {
    var rs := Rates(a, b, dt);
    var i :| 0 <= i < |rs| && rs[i] == Max(rs);
  }

  /** The largest rate of each group: fluid, plate, fin 0, fin 1, fin 2. */
  function Groups(a: State, b: State, dt: real): (gs: seq<real>)
    requires Comparable(a, b) && dt > 0.0
    ensures |gs| == 5
  {
    FieldMax(a.plate, b.plate, dt, 0.0);
    FieldMax(a.fins[0], b.fins[0], dt, 0.0);
    FieldMax(a.fins[1], b.fins[1], dt, 0.0);
    FieldMax(a.fins[2], b.fins[2], dt, 0.0);
    [Max(Rates(a.fluid, b.fluid, dt)), Max2(Rates2(a.plate, b.plate, dt)),
     Max2(Rates2(a.fins[0], b.fins[0], dt)), Max2(Rates2(a.fins[1], b.fins[1], dt)),
     Max2(Rates2(a.fins[2], b.fins[2], dt))]
  }

  /** `max_rate`: the largest |dT/dt| over the fluid, the plate and the
      three fins; it bounds every node's rate and is some node's rate. */
  function MaxRate(a: State, b: State, dt: real): (m: real)
    requires Comparable(a, b) && dt > 0.0
    ensures m >= 0.0
    ensures RatesAtMost(a, b, dt, m)
    ensures RateAttained(a, b, dt, m)
  {
    var gs := Groups(a, b, dt);
    MaxRateBounds(a, b, dt, gs);
    MaxRateAttained(a, b, dt);
    Max(gs)
  }

  /** The maximum of the groups is the rate of some node. */
  lemma MaxRateAttained(a: State, b: State, dt: real)
    requires Comparable(a, b) && dt > 0.0
    ensures RateAttained(a, b, dt, Max(Groups(a, b, dt)))
  {
    var gs := Groups(a, b, dt);
    var g :| 0 <= g < 5 && gs[g] == Max(gs);
    if g == 0 {
      var rs := Rates(a.fluid, b.fluid, dt);
      var i :| 0 <= i < |rs| && rs[i] == Max(rs);
      assert Rate(a.fluid[i], b.fluid[i], dt) == Max(gs);
    } else if g == 1 {
      FieldMaxAttained(a.plate, b.plate, dt);
    } else {
      FieldMaxAttained(a.fins[g - 2], b.fins[g - 2], dt);
    }
  }

  /** The largest rate of one 2-D field is the rate of one of its nodes. */
  lemma FieldMaxAttained(a: Field, b: Field, dt: real)
    requires SameShape(a, b) && NonEmpty2(a) && dt > 0.0
    ensures NonEmpty2(Rates2(a, b, dt))
    ensures FieldAttains(a, b, dt, Max2(Rates2(a, b, dt)))
  {
    var rs := Rates2(a, b, dt);
    assert NonEmpty2(rs);
    var i, j :| 0 <= i < |rs| && 0 <= j < |rs[i]| && rs[i][j] == Max2(rs);
    assert Rate(a[i][j], b[i][j], dt) == Max2(rs);
  }

  lemma MaxRateBounds(a: State, b: State, dt: real, gs: seq<real>)
    requires Comparable(a, b) && dt > 0.0 && gs == Groups(a, b, dt)
    ensures Max(gs) >= 0.0
    ensures RatesAtMost(a, b, dt, Max(gs))
  {
    LineMax(a.fluid, b.fluid, dt, 0.0);
    FieldMax(a.plate, b.plate, dt, 0.0);
    FieldMax(a.fins[0], b.fins[0], dt, 0.0);
    FieldMax(a.fins[1], b.fins[1], dt, 0.0);
    FieldMax(a.fins[2], b.fins[2], dt, 0.0);
    var m := Max(gs);
    assert Rates(a.fluid, b.fluid, dt)[0] >= 0.0;
    assert gs[0] <= m && gs[1] <= m && gs[2] <= m && gs[3] <= m && gs[4] <= m;
  }

  /** The largest rate lies below `eps` exactly when every node's rate does. */
  lemma MaxRateBelow(a: State, b: State, dt: real, eps: real)
    requires Comparable(a, b) && dt > 0.0
    ensures MaxRate(a, b, dt) < eps <==> RatesBelow(a, b, dt, eps)
  {
    var gs := Groups(a, b, dt);
    LineMax(a.fluid, b.fluid, dt, eps);
    FieldMax(a.plate, b.plate, dt, eps);
    FieldMax(a.fins[0], b.fins[0], dt, eps);
    FieldMax(a.fins[1], b.fins[1], dt, eps);
    FieldMax(a.fins[2], b.fins[2], dt, eps);
    GroupsMax(gs, Max(gs), eps);
  }

  lemma GroupsMax(groups: seq<real>, m: real, eps: real)
    requires |groups| > 0 && m == Max(groups)
    ensures m < eps <==> forall g :: 0 <= g < |groups| ==> groups[g] < eps
  {
    var g :| 0 <= g < |groups| && groups[g] == m;
  }

  /** The outcome of `verificar_convergencia`. */
  datatype Verdict = Verdict(converged: bool, maxRate: real)

  /** `verificar_convergencia`: the step is converged when every node of the
      system changes more slowly than `eps` (kelvin per second). */
  function Convergence(a: State, b: State, dt: real, eps: real): (r: Result<Verdict>)
    ensures r.Ok? <==> dt > 0.0 && eps > 0.0 && Comparable(a, b)
    ensures dt <= 0.0 || eps <= 0.0 ==> r == Err(InvalidArgument)
    ensures r.Ok? ==> r.value.maxRate >= 0.0 && RatesAtMost(a, b, dt, r.value.maxRate)
    ensures r.Ok? ==> RateAttained(a, b, dt, r.value.maxRate) && r.value.maxRate == MaxRate(a, b, dt)
    ensures r.Ok? ==> (r.value.converged <==> RatesBelow(a, b, dt, eps))
    ensures r.Ok? ==> (r.value.converged <==> r.value.maxRate < eps)
  {
    if dt <= 0.0 || eps <= 0.0 then Err(InvalidArgument)
    else if !Comparable(a, b) then Err(ShapeMismatch)
    else
      var m := MaxRate(a, b, dt);
      MaxRateBelow(a, b, dt, eps);
      Ok(Verdict(m < eps, m))
  }

  /** A step that changes nothing has rate zero and is converged. */
  lemma UnchangedConverges(s: State, dt: real, eps: real)
    requires Comparable(s, s) && dt > 0.0 && eps > 0.0
    ensures Convergence(s, s, dt, eps) == Ok(Verdict(true, 0.0))
  {
    var m := MaxRate(s, s, dt);
    assert RatesBelow(s, s, dt, eps);
    MaxRateBelow(s, s, dt, m);
  }

  /** A steady-state test: a verdict for an old and a new state. */
  type Test = (State, State) -> Result<Verdict>

  /** The test declares convergence exactly when its rate is below `eps`. */
  ghost predicate Decisive(test: Test, eps: real) {
    forall a, b :: test(a, b).Ok? ==> (test(a, b).value.converged <==> test(a, b).value.maxRate < eps)
  }

  /** `verificar_convergencia` at a fixed step and tolerance, as a test. */
  function TestOf(dt: real, eps: real): (test: Test)
    ensures forall a, b :: test(a, b) == Convergence(a, b, dt, eps)
    ensures Decisive(test, eps)
  {
    (a, b) => Convergence(a, b, dt, eps)
  }

  // ---------------------------------------------------------------------------
  // One plate step of the whole system
  // ---------------------------------------------------------------------------

  /** What the time loop assumes of the parameters and the meshes it is
      given; every constructed parameter set with its meshes meets it. */
  predicate Ready(p: Params, ms: Meshes) {
    && Fluid.Ready(p) && ms.fluid.dx > 0.0 && |ms.fluid.x| == p.nxFluid
    && Plate.Ready(p, ms.plate)
    && Fins.AllReady(p, ms.fins)
    && Coupling.Fits(p, ms.plate, ms.fins)
  }

  /** `inicializar_fluido`, `inicializar_placa` and `inicializar_aleta` for
      the three fins, in that order. */
  function Initial(p: Params, ms: Meshes): (r: Result<State>)
    requires Ready(p, ms)
    ensures r.Ok? <==> 200.0 < p.tIn < 400.0 && 200.0 < p.tInit < 400.0
    ensures r.Err? ==> r.error == PhysicalRange
    ensures r.Ok? ==> |r.value.fluid| == p.nxFluid && r.value.fluid[0] == p.tIn
                      && forall i :: 1 <= i < p.nxFluid ==> r.value.fluid[i] == p.tInit
    ensures r.Ok? ==> IsGrid(r.value.plate, p.nxPlate, p.nyPlate) && Uniform2(r.value.plate, p.tInit)
    ensures r.Ok? ==> |r.value.fins| == 3 && forall k :: 0 <= k < 3 ==>
                        IsGrid(r.value.fins[k], p.ntheta as nat, p.nr as nat) && Uniform2(r.value.fins[k], p.tInit)
  {
    // With two or more water nodes the water's range check already covers
    // the initial temperature, so the plate's and the fins' checks pass.
    var fluid :- Fluid.Init(p);
    var plate := Plate.Init(p).value;
    var f0 := Fins.Init(p, ms.fins, 0).value;
    var f1 := Fins.Init(p, ms.fins, 1).value;
    var f2 := Fins.Init(p, ms.fins, 2).value;
    Ok(State(fluid, plate, [f0, f1, f2]))
  }

  /** The plate's wetted face as the water sees it. */
  function SurfaceForFluid(t: Field, p: Params, ms: Meshes): (r: Result<seq<real>>)
    requires Ready(p, ms)
    ensures r.Ok? ==> |r.value| == p.nxFluid
  {
    var ts :- Coupling.Surface(t, p);
    Coupling.ForFluid(ts, ms.plate.x, ms.fluid.x, p)
  }

  /** One fin sub-step: the plate's top face imposed on every fin's edges,
      then every fin advanced by `dt`. */
  function FinRound(tp: Field, tfins: seq<Field>, p: Params, ms: Meshes, dt: real): (r: Result<seq<Field>>)
    requires Ready(p, ms)
    ensures r.Ok? ==> Coupling.Couple(tp, tfins, p, ms.plate, ms.fins).Ok?
    ensures r.Ok? ==> |r.value| == 3 && forall k :: 0 <= k < 3 ==>
              IsGrid(r.value[k], p.ntheta as nat, p.nr as nat) && Within2(r.value[k], 200.0, 500.0)
  {
    var c :- Coupling.Couple(tp, tfins, p, ms.plate, ms.fins);
    var f0 :- Fins.Step(c[0], p, ms.fins, 0, dt);
    var f1 :- Fins.Step(c[1], p, ms.fins, 1, dt);
    var f2 :- Fins.Step(c[2], p, ms.fins, 2, dt);
    StepInBand(f0, p, ms, dt, c[0], 0);
    StepInBand(f1, p, ms, dt, c[1], 1);
    StepInBand(f2, p, ms, dt, c[2], 2);
    AllInBand(f0, f1, f2, p.ntheta as nat, p.nr as nat);
    Ok([f0, f1, f2])
  }

  lemma AllInBand(f0: Field, f1: Field, f2: Field, rows: nat, cols: nat)
    requires IsGrid(f0, rows, cols) && Within2(f0, 200.0, 500.0)
    requires IsGrid(f1, rows, cols) && Within2(f1, 200.0, 500.0)
    requires IsGrid(f2, rows, cols) && Within2(f2, 200.0, 500.0)
    ensures forall k :: 0 <= k < 3 ==> IsGrid([f0, f1, f2][k], rows, cols) && Within2([f0, f1, f2][k], 200.0, 500.0)
  {
  }

  lemma StepInBand(f: Field, p: Params, ms: Meshes, dt: real, c: Field, k: nat)
    requires Ready(p, ms) && k < 3
    requires Fins.Step(c, p, ms.fins, k, dt) == Ok(f)
    ensures IsGrid(f, p.ntheta as nat, p.nr as nat) && Within2(f, 200.0, 500.0)
  {
  }

  /** The `n` fin sub-steps of one plate step. */
  function FinSubSteps(tp: Field, tfins: seq<Field>, p: Params, ms: Meshes, dt: real, n: nat): (r: Result<seq<Field>>)
    requires Ready(p, ms)
    decreases n
    ensures n == 0 ==> r == Ok(tfins)
    ensures r.Ok? && n > 0 ==> |r.value| == 3 && forall k :: 0 <= k < 3 ==>
              IsGrid(r.value[k], p.ntheta as nat, p.nr as nat) && Within2(r.value[k], 200.0, 500.0)
  {
    if n == 0 then Ok(tfins)
    else
      var next :- FinRound(tp, tfins, p, ms, dt);
      FinSubSteps(tp, next, p, ms, dt, n - 1)
  }

  /** One plate step of the whole system, in the program's order: the water
      against the old plate, then the plate against the new water, then the
      fin sub-steps against the new plate. */
  function Advance(s: State, p: Params, ms: Meshes, sub: Schedule): (r: Result<State>)
    requires Ready(p, ms)
    ensures r.Ok? ==> SurfaceForFluid(s.plate, p, ms).Ok?
                      && Fluid.Step(s.fluid, SurfaceForFluid(s.plate, p, ms).value, p, ms.fluid, ms.plate.x, p.dt) == Ok(r.value.fluid)
    ensures r.Ok? ==> Plate.Step(s.plate, r.value.fluid, p, ms.plate, ms.fluid.x, p.dt) == Ok(r.value.plate)
    ensures r.Ok? ==> FinSubSteps(r.value.plate, s.fins, p, ms, sub.dt, sub.count) == Ok(r.value.fins)
    ensures r.Ok? ==> |r.value.fluid| == p.nxFluid && r.value.fluid[0] == p.tIn && StrictlyWithin(r.value.fluid, 200.0, 400.0)
    ensures r.Ok? ==> IsGrid(r.value.plate, p.nxPlate, p.nyPlate) && StrictlyWithin2(r.value.plate, 200.0, 400.0)
  {
    var ts :- SurfaceForFluid(s.plate, p, ms);
    var tf :- Fluid.Step(s.fluid, ts, p, ms.fluid, ms.plate.x, p.dt);
    var tp :- Plate.Step(s.plate, tf, p, ms.plate, ms.fluid.x, p.dt);
    var tfins :- FinSubSteps(tp, s.fins, p, ms, sub.dt, sub.count);
    Ok(State(tf, tp, tfins))
  }

  /** One plate step of the whole system as a step function. */
  function StepOf(p: Params, ms: Meshes, sub: Schedule): (step: State -> Result<State>)
    requires Ready(p, ms)
    ensures forall t :: step(t) == Advance(t, p, ms, sub)
  {
    t => Advance(t, p, ms, sub)
  }

  /** Every state the whole-system step produces has its water and its plate
      inside the physical band. */
  lemma StepOfInBand(p: Params, ms: Meshes, sub: Schedule, t: State)
    requires Ready(p, ms) && StepOf(p, ms, sub)(t).Ok?
    ensures |StepOf(p, ms, sub)(t).value.fluid| == p.nxFluid
    ensures StrictlyWithin(StepOf(p, ms, sub)(t).value.fluid, 200.0, 400.0)
    ensures IsGrid(StepOf(p, ms, sub)(t).value.plate, p.nxPlate, p.nyPlate)
    ensures StrictlyWithin2(StepOf(p, ms, sub)(t).value.plate, 200.0, 400.0)
  {
    assert StepOf(p, ms, sub)(t) == Advance(t, p, ms, sub);
  }

  // ---------------------------------------------------------------------------
  // Iterating a step
  // ---------------------------------------------------------------------------

  /** The state after `n` applications of `step` from `s`; the first error
      stops the iteration. */
  function Iterate(step: State -> Result<State>, s: State, n: nat): (r: Result<State>)
    decreases n
    ensures n == 0 ==> r == Ok(s)
  {
    if n == 0 then Ok(s)
    else
      match Iterate(step, s, n - 1)
      case Err(e) => Err(e)
      case Ok(t) => step(t)
  }

  /** One more step of the iteration. */
  lemma IterateNext(step: State -> Result<State>, s0: State, n: nat, s: State, next: State)
    requires Iterate(step, s0, n) == Ok(s) && step(s) == Ok(next)
    ensures Iterate(step, s0, n + 1) == Ok(next)
  {
  }

  /** Every iterate before a successful one succeeds as well. */
  lemma {:induction false} IteratePrefix(step: State -> Result<State>, s0: State, m: nat, n: nat)
    requires m <= n && Iterate(step, s0, n).Ok?
    ensures Iterate(step, s0, m).Ok?
    decreases n
  {
    if m < n {
      IteratePrefix(step, s0, m, n - 1);
    }
  }

  /** A fixed point of the step is a fixed point of any number of steps. */
  lemma {:induction false} IterateFixed(step: State -> Result<State>, s: State, n: nat)
    requires step(s) == Ok(s)
    ensures Iterate(step, s, n) == Ok(s)
  {
    if n > 0 {
      IterateFixed(step, s, n - 1);
    }
  }

  // ---------------------------------------------------------------------------
  // Equilibrium: the uniform state at the common water and air temperature
  // ---------------------------------------------------------------------------

  /** Water, plate and fins all at `v`. */
  function Equilibrium(p: Params, v: real): (s: State)
    requires p.nxFluid >= 0 && p.nxPlate >= 0 && p.nyPlate >= 0 && p.ntheta >= 0 && p.nr >= 0
    ensures Uniform(s.fluid, v) && Uniform2(s.plate, v)
    ensures |s.fins| == 3 && forall k :: 0 <= k < 3 ==> Uniform2(s.fins[k], v)
  {
    State(Fill(p.nxFluid, v), Fill2(p.nxPlate, p.nyPlate, v), Coupling.UniformFins(p.ntheta as nat, p.nr as nat, v))
  }

  /** A fin mesh whose sub-step admits the uniform state: the checks of the
      fin step all pass. */
  predicate FinAtRest(p: Params, fm: FinMesh, dt: real)
    requires Fins.Ready(p, fm)
  {
    && fm.r[1] * fm.dtheta != 0.0
    && Fins.FirstRingNumber(Fins.CoeffsOf(p, fm, dt), fm) < 0.5
    && Fins.InnerRingsPositive(fm.r) && Fins.RimAtRadius(p, fm)
  }

  /** When the uniform state at `v` is an equilibrium of the time loop: the
      inlet water and the ambient air are both at `v`, there are as many
      water nodes as plate columns, and every explicit scheme is inside its
      stability bound. */
  predicate AtRest(p: Params, ms: Meshes, sub: Schedule, v: real)
    requires Ready(p, ms)
  {
    && Coupling.Placed(p, ms.plate, ms.fins)
    && p.tIn == v && p.tInf == v && 200.0 < v < 400.0
    && p.nxFluid == p.nxPlate && p.nxPlate >= 3
    && Fluid.Courant(p, ms.fluid, p.dt) < 1.0
    && Plate.CoeffsOf(p, ms.plate, p.dt).fox + Plate.CoeffsOf(p, ms.plate, p.dt).foy < 0.5
    && sub.dt > 0.0 && p.solid.alpha > 0.0
    && FinAtRest(p, ms.fins[0], sub.dt) && FinAtRest(p, ms.fins[1], sub.dt) && FinAtRest(p, ms.fins[2], sub.dt)
  }

  /** A uniform plate shows the water its own temperature. */
  lemma SurfaceAtRest(p: Params, ms: Meshes, v: real)
    requires Ready(p, ms) && 200.0 < v < 500.0
    ensures SurfaceForFluid(Fill2(p.nxPlate, p.nyPlate, v), p, ms) == Ok(Fill(p.nxFluid, v))
  {
    var t := Fill2(p.nxPlate, p.nyPlate, v);
    assert StrictlyWithin(Column(t, 0), 200.0, 500.0);
    var ts := Coupling.Surface(t, p).value;
    assert ts == Fill(p.nxPlate, v);
    assert Min(ts) == v && Max(ts) == v;
    var tf := Coupling.ForFluid(ts, ms.plate.x, ms.fluid.x, p).value;
    assert tf == Fill(p.nxFluid, v);
  }

  lemma FinAtRestStep(p: Params, ms: Meshes, sub: Schedule, v: real, k: nat)
    requires Ready(p, ms) && AtRest(p, ms, sub, v) && k < 3
    ensures Fins.Step(Fill2(p.ntheta as nat, p.nr as nat, v), p, ms.fins, k, sub.dt)
            == Ok(Fill2(p.ntheta as nat, p.nr as nat, v))
  {
    assert FinAtRest(p, ms.fins[k], sub.dt);
    Fins.StepFixedPoint(p, ms.fins, k, sub.dt);
  }

  /** The sub-step is the coupling followed by the three fin steps. */
  lemma RoundOf(tp: Field, c: seq<Field>, f0: Field, f1: Field, f2: Field, p: Params, ms: Meshes, dt: real)
    requires Ready(p, ms)
    requires Coupling.Couple(tp, c, p, ms.plate, ms.fins) == Ok(c) && |c| == 3
    requires Fins.Step(c[0], p, ms.fins, 0, dt) == Ok(f0)
    requires Fins.Step(c[1], p, ms.fins, 1, dt) == Ok(f1)
    requires Fins.Step(c[2], p, ms.fins, 2, dt) == Ok(f2)
    ensures FinRound(tp, c, p, ms, dt) == Ok([f0, f1, f2])
  {
  }

  lemma ThreeFins(c: seq<Field>)
    requires |c| == 3
    ensures [c[0], c[1], c[2]] == c
  {
  }

  /** Fins that the coupling and each fin step leave unchanged are a fixed
      point of the sub-step. */
  lemma RoundFixed(tp: Field, fs: seq<Field>, p: Params, ms: Meshes, dt: real)
    requires Ready(p, ms) && |fs| == 3
    requires Coupling.Couple(tp, fs, p, ms.plate, ms.fins) == Ok(fs)
    requires Fins.Step(fs[0], p, ms.fins, 0, dt) == Ok(fs[0])
    requires Fins.Step(fs[1], p, ms.fins, 1, dt) == Ok(fs[1])
    requires Fins.Step(fs[2], p, ms.fins, 2, dt) == Ok(fs[2])
    ensures FinRound(tp, fs, p, ms, dt) == Ok(fs)
  {
    RoundOf(tp, fs, fs[0], fs[1], fs[2], p, ms, dt);
    ThreeFins(fs);
  }

  /** One more sub-step from a fixed point stays there. */
  lemma SubStepFixed(tp: Field, fs: seq<Field>, p: Params, ms: Meshes, dt: real, n: nat)
    requires Ready(p, ms) && FinRound(tp, fs, p, ms, dt) == Ok(fs)
    requires n > 0 && FinSubSteps(tp, fs, p, ms, dt, n - 1) == Ok(fs)
    ensures FinSubSteps(tp, fs, p, ms, dt, n) == Ok(fs)
  {
  }

  /** A fixed point of the sub-step is one of any number of sub-steps. */
  lemma SubStepsFixed(tp: Field, fs: seq<Field>, p: Params, ms: Meshes, dt: real, n: nat)
    requires Ready(p, ms) && FinRound(tp, fs, p, ms, dt) == Ok(fs)
    ensures FinSubSteps(tp, fs, p, ms, dt, n) == Ok(fs)
  {
    var k := 0;
    while k < n
      invariant k <= n && FinSubSteps(tp, fs, p, ms, dt, k) == Ok(fs)
    {
      SubStepFixed(tp, fs, p, ms, dt, k + 1);
      k := k + 1;
    }
  }

  /** Any number of fin sub-steps leaves uniform fins on a uniform plate
      unchanged. */
  lemma FinSubStepsAtRest(p: Params, ms: Meshes, sub: Schedule, v: real, n: nat)
    requires Ready(p, ms) && AtRest(p, ms, sub, v)
    ensures FinSubSteps(Fill2(p.nxPlate, p.nyPlate, v), Coupling.UniformFins(p.ntheta as nat, p.nr as nat, v), p, ms, sub.dt, n)
            == Ok(Coupling.UniformFins(p.ntheta as nat, p.nr as nat, v))
  {
    var fs := Coupling.UniformFins(p.ntheta as nat, p.nr as nat, v);
    var tp := Fill2(p.nxPlate, p.nyPlate, v);
    Coupling.CoupleUniform(p, ms.plate, ms.fins, v);
    FinAtRestStep(p, ms, sub, v, 0);
    FinAtRestStep(p, ms, sub, v, 1);
    FinAtRestStep(p, ms, sub, v, 2);
    RoundFixed(tp, fs, p, ms, sub.dt);
    SubStepsFixed(tp, fs, p, ms, sub.dt, n);
  }

  /** The uniform state is a fixed point of one plate step. */
  lemma AdvanceAtRest(p: Params, ms: Meshes, sub: Schedule, v: real)
    requires Ready(p, ms) && AtRest(p, ms, sub, v)
    ensures Advance(Equilibrium(p, v), p, ms, sub) == Ok(Equilibrium(p, v))
  {
    SurfaceAtRest(p, ms, v);
    Fluid.StepFixedPoint(p, ms.fluid, ms.plate.x, p.dt);
    Plate.StepFixedPoint(p, ms.plate, ms.fluid.x, p.dt, v);
    FinSubStepsAtRest(p, ms, sub, v, sub.count);
  }

  /** The uniform state is a fixed point of any number of plate steps. */
  lemma IterateAtRest(p: Params, ms: Meshes, sub: Schedule, v: real, n: nat)
    requires Ready(p, ms) && AtRest(p, ms, sub, v)
    ensures Iterate(StepOf(p, ms, sub), Equilibrium(p, v), n) == Ok(Equilibrium(p, v))
  {
    AdvanceAtRest(p, ms, sub, v);
    IterateFixed(StepOf(p, ms, sub), Equilibrium(p, v), n);
  }

  /** With the solid and the inlet water starting at `v`, the initial state
      is the uniform state at `v`. */
  lemma InitialAtRest(p: Params, ms: Meshes, v: real)
    requires Ready(p, ms) && p.tIn == v && p.tInit == v && 200.0 < v < 400.0
    ensures Initial(p, ms) == Ok(Equilibrium(p, v))
  {
    var s := Initial(p, ms).value;
    var e := Equilibrium(p, v);
    UniformIsFill(s.fluid, v);
    UniformIsFill2(s.plate, p.nxPlate, p.nyPlate, v);
    UniformIsFill2(s.fins[0], p.ntheta as nat, p.nr as nat, v);
    UniformIsFill2(s.fins[1], p.ntheta as nat, p.nr as nat, v);
    UniformIsFill2(s.fins[2], p.ntheta as nat, p.nr as nat, v);
    assert s.fins == e.fins;
  }

  /** Started at equilibrium, the convergence test passes at the first step
      with a zero rate. */
  lemma EquilibriumConverges(p: Params, ms: Meshes, sub: Schedule, v: real, eps: real)
    requires Ready(p, ms) && AtRest(p, ms, sub, v) && p.dt > 0.0 && eps > 0.0
    ensures Advance(Equilibrium(p, v), p, ms, sub).Ok?
    ensures Convergence(Equilibrium(p, v), Advance(Equilibrium(p, v), p, ms, sub).value, p.dt, eps)
            == Ok(Verdict(true, 0.0))
  {
    var s := Equilibrium(p, v);
    AdvanceAtRest(p, ms, sub, v);
    EquilibriumComparable(p, v);
    UnchangedConverges(s, p.dt, eps);
  }

  /** The uniform state has the shape the convergence test accepts. */
  lemma EquilibriumComparable(p: Params, v: real)
    requires p.nxFluid > 0 && p.nxPlate > 0 && p.nyPlate > 0 && p.ntheta > 0 && p.nr > 0
    ensures Comparable(Equilibrium(p, v), Equilibrium(p, v))
  {
    var s := Equilibrium(p, v);
    forall k | 0 <= k < 3 ensures SameShape(s.fins[k], s.fins[k]) && NonEmpty2(s.fins[k]) {
      assert s.fins[k] == Fill2(p.ntheta as nat, p.nr as nat, v);
    }
  }

  // ---------------------------------------------------------------------------
  // The energy-balance record
  // ---------------------------------------------------------------------------

  /** Whether step `n` (counted from 0) saves the state: every `every`-th
      step, the converged step and the last step. */
  predicate SaveDue(n: nat, every: int, converged: bool, nMax: int)
    requires every != 0
  {
    n % every == 0 || converged || n == nMax - 1
  }

  /** Whether step `n` records an energy balance. */
  predicate BalanceDue(n: nat, every: int, converged: bool, withBalance: bool)
    requires every != 0
  {
    withBalance && (n % every == 0 || converged)
  }

  /** The time stamp of the balance record as the loop writes it: it reads
      a name the function never binds, so every due record raises instead of
      being stored. */
  function BalanceStampAsWritten(n: nat, every: int, converged: bool, withBalance: bool): (r: Result<Option<real>>)
    requires every != 0
    ensures r.Err? <==> BalanceDue(n, every, converged, withBalance)
    ensures r.Err? ==> r.error == UndefinedName
    ensures r.Ok? ==> r.value == None
  {
    if BalanceDue(n, every, converged, withBalance) then Err(UndefinedName) else Ok(None)
  }

  /** The evidently intended record: a due balance is stamped with the
      current step's time `tNow`. */
  function BalanceStamp(n: nat, every: int, converged: bool, withBalance: bool, tNow: real): (r: Option<real>)
    requires every != 0
    ensures r.Some? <==> BalanceDue(n, every, converged, withBalance)
    ensures r.Some? ==> r.value == tNow
  {
    if BalanceDue(n, every, converged, withBalance) then Some(tNow) else None
  }

  /** Every step that records a balance also saves its state, so each
      stamp is a saved time. */
  lemma BalanceStampSaved(n: nat, every: int, converged: bool, withBalance: bool, tNow: real, nMax: int)
    requires every != 0 && BalanceStamp(n, every, converged, withBalance, tNow).Some?
    ensures SaveDue(n, every, converged, nMax)
  {
  }

  /** The first step is always due for a balance. As written, a run with
      the balance switched on (the loop's default) therefore stops with an
      undefined-name error at its first step, where the intended record is
      stamped with that step's time. */
  lemma FirstBalanceFails(every: int, converged: bool, tNow: real)
    requires every != 0
    ensures BalanceStampAsWritten(0, every, converged, true) == Err(UndefinedName)
    ensures BalanceStamp(0, every, converged, true, tNow) == Some(tNow)
  {
  }

  // ---------------------------------------------------------------------------
  // The time loop
  // ---------------------------------------------------------------------------

  /** `int(x)`: truncation towards zero. */
  function Trunc(x: real): (n: int)
    ensures x >= 0.0 ==> 0 <= n && n as real <= x < n as real + 1.0
    ensures x < 0.0 ==> n <= 0 && n as real - 1.0 < x <= n as real
  {
    if x >= 0.0 then x.Floor else -((-x).Floor)
  }

  /** `t_actual`: the time reached after `n` plate steps of length `dt`. */
  function TimeAt(n: nat, dt: real): real {
    n as real * dt
  }

  /** One more plate step adds `dt` to the time. */
  lemma TimeAtNext(n: nat, dt: real)
    ensures TimeAt(n + 1, dt) == TimeAt(n, dt) + dt
  {
  }

  /** Later steps have later times. */
  lemma TimeAtMonotone(i: nat, j: nat, dt: real)
    requires i <= j && dt > 0.0
    ensures TimeAt(i, dt) <= TimeAt(j, dt)
  {
    if i < j {
      ScaledOrder(i, j, dt);
    }
  }

  /** The initial state and the fin sub-step schedule. */
  datatype Start = Start(state: State, sub: Schedule)

  /** The fin time step and the sub-step schedule it gives the plate step. */
  function FinSchedule(alpha: real, dr: real, dtheta: real, dtPlate: real): (r: Result<Schedule>)
    requires dr > 0.0 && dtheta > 0.0
    ensures r.Ok? <==> FinTimeStep(alpha, dr, dtheta, dtPlate).Ok?
    ensures r.Ok? ==> dtPlate > 0.0 && r.value.count >= 2 && r.value.count as real * r.value.dt == dtPlate
    ensures r.Ok? ==> 0.0 < r.value.dt <= FinTimeStep(alpha, dr, dtheta, dtPlate).value
  {
    var dtFin :- FinTimeStep(alpha, dr, dtheta, dtPlate);
    Ok(SubSteps(dtPlate, dtFin))
  }

  /** Initialisation and the time scales, in the program's order: the three
      initial fields, then the fin step from fin 0's spacings, then the
      number of sub-steps per plate step. */
  function Setup(p: Params, ms: Meshes): (r: Result<Start>)
    requires Ready(p, ms)
    ensures r.Ok? <==> Initial(p, ms).Ok? && FinTimeStep(p.solid.alpha, ms.fins[0].dr, ms.fins[0].dtheta, p.dt).Ok?
    ensures Initial(p, ms).Err? ==> r == Err(PhysicalRange)
    ensures r.Ok? ==> r.value.state == Initial(p, ms).value && p.dt > 0.0
    ensures r.Ok? ==> r.value.sub == FinSchedule(p.solid.alpha, ms.fins[0].dr, ms.fins[0].dtheta, p.dt).value
  {
    var s0 :- Initial(p, ms);
    var sub :- FinSchedule(p.solid.alpha, ms.fins[0].dr, ms.fins[0].dtheta, p.dt);
    Ok(Start(s0, sub))
  }

  /** The outcome of a run: the saved history (times, the step index of each
      saved state, the states), the rate of every step, the balance time
      stamps, and the convergence verdict with its time. */
  datatype Run = Run(times: seq<real>, steps: seq<nat>, states: seq<State>,
                     rates: seq<real>, balances: seq<real>,
                     converged: bool, tConv: Option<real>)

  /** The saved history starts with the initial state at time 0 and then
      holds, at strictly increasing steps, the iterate of the initial state
      at that step, stamped with the step's time. */
  predicate Saved(times: seq<real>, steps: seq<nat>, states: seq<State>, step: State -> Result<State>, s0: State, dt: real) {
    && |times| == |steps| == |states| > 0
    && steps[0] == 0 && times[0] == 0.0 && states[0] == s0
    && (forall i :: 0 <= i < |steps| ==> times[i] == TimeAt(steps[i], dt))
    && (forall i :: 0 <= i < |steps| ==> Iterate(step, s0, steps[i]) == Ok(states[i]))
    && (forall i, j :: 0 <= i < j < |steps| ==> steps[i] < steps[j])
  }

  /** `rate` is the test's rate between the iterates at steps `i` and
      `i + 1`. */
  predicate TestedAt(rate: real, i: nat, step: State -> Result<State>, test: Test, s0: State, eps: real) {
    && Iterate(step, s0, i).Ok? && Iterate(step, s0, i + 1).Ok?
    && test(Iterate(step, s0, i).value, Iterate(step, s0, i + 1).value) == Ok(Verdict(rate < eps, rate))
  }

  /** `rates[i]` is the rate of step `i`. */
  predicate Tested(rates: seq<real>, step: State -> Result<State>, test: Test, s0: State, eps: real) {
    forall i :: 0 <= i < |rates| ==> TestedAt(rates[i], i, step, test, s0, eps)
  }

  /** Appending the rate of the next step keeps the rate history. */
  lemma TestedNext(rates: seq<real>, step: State -> Result<State>, test: Test, s0: State, eps: real,
                   s: State, next: State, v: Verdict)
    requires Tested(rates, step, test, s0, eps) && Decisive(test, eps)
    requires Iterate(step, s0, |rates|) == Ok(s) && Iterate(step, s0, |rates| + 1) == Ok(next)
    requires test(s, next) == Ok(v)
    ensures Tested(rates + [v.maxRate], step, test, s0, eps)
  {
    assert v == Verdict(v.maxRate < eps, v.maxRate);
    var r := rates + [v.maxRate];
    forall i | 0 <= i < |r| ensures TestedAt(r[i], i, step, test, s0, eps) {
      if i < |rates| {
        assert r[i] == rates[i];
      }
    }
  }

  /** Saving the next step's state keeps the saved history. */
  lemma SavedNext(times: seq<real>, steps: seq<nat>, states: seq<State>, step: State -> Result<State>, s0: State, dt: real,
                  n: nat, next: State)
    requires Saved(times, steps, states, step, s0, dt)
    requires forall i :: 0 <= i < |steps| ==> steps[i] <= n
    requires Iterate(step, s0, n + 1) == Ok(next)
    ensures Saved(times + [TimeAt(n + 1, dt)], steps + [n + 1], states + [next], step, s0, dt)
  {
  }

  function AtLeastZero(n: int): nat {
    if n > 0 then n else 0
  }

  /** Exactly the due steps are saved: step `i` (counted from 0, its state
      being iterate `i + 1`) is in the saved history if and only if the save
      is due, by the interval, by the verdict of that step or by being the
      last step allowed. */
  predicate SavedWhenDue(steps: seq<nat>, rates: seq<real>, every: int, eps: real, nMax: int) {
    forall i :: 0 <= i < |rates| ==> every != 0 && ((i + 1) in steps <==> SaveDue(i, every, rates[i] < eps, nMax))
  }

  /** Exactly the due steps carry a balance: the time of step `i` (counted
      from 0, reached at `TimeAt(i + 1, dt)`) is among the stamps if and only
      if a balance is due at that step. */
  predicate BalancedWhenDue(balances: seq<real>, rates: seq<real>, every: int, eps: real, withBalance: bool, dt: real) {
    forall i :: 0 <= i < |rates| ==>
      every != 0 && (TimeAt(i + 1, dt) in balances <==> BalanceDue(i, every, rates[i] < eps, withBalance))
  }

  /** Every step from `s0` up to `m` succeeds and its test returns a verdict:
      the loop cannot stop on an error within `m` steps. */
  predicate Runs(step: State -> Result<State>, test: Test, s0: State, m: nat) {
    forall k :: 0 <= k < m ==> StepRuns(step, test, s0, k)
  }

  /** Step `k + 1` from `s0` succeeds and its test returns a verdict. */
  predicate StepRuns(step: State -> Result<State>, test: Test, s0: State, k: nat) {
    && Iterate(step, s0, k).Ok? && Iterate(step, s0, k + 1).Ok?
    && test(Iterate(step, s0, k).value, Iterate(step, s0, k + 1).value).Ok?
  }

  /** What a finished run promises, for the step function `step` from `s0`
      with plate step `dt`, at most `nMax` steps, tolerance `eps`, saving
      every `every`-th step: the history and the rates are those of the
      iteration; the last step is saved; the run stops at the first step
      whose rate is below `eps`, and only then before `nMax` steps; the
      convergence time is that step's time; exactly the due steps are
      saved and exactly the due steps carry a balance stamp, the time of
      their step; every balance stamp is a saved
      time, the first one that of the first step. */
  predicate Outcome(run: Run, step: State -> Result<State>, test: Test, s0: State, dt: real, nMax: int, eps: real,
                    every: int, withBalance: bool) {
    && Saved(run.times, run.steps, run.states, step, s0, dt)
    && Tested(run.rates, step, test, s0, eps)
    && run.steps[|run.steps| - 1] == |run.rates|
    && (run.converged <==> |run.rates| > 0 && run.rates[|run.rates| - 1] < eps)
    && (forall i :: 0 <= i < |run.rates| - 1 ==> run.rates[i] >= eps)
    && |run.rates| <= AtLeastZero(nMax)
    && (!run.converged ==> |run.rates| == AtLeastZero(nMax))
    && run.tConv == (if run.converged then Some(TimeAt(|run.rates|, dt)) else None)
    && SavedWhenDue(run.steps, run.rates, every, eps, nMax)
    && BalancedWhenDue(run.balances, run.rates, every, eps, withBalance, dt)
    && (forall t :: t in run.balances ==> t in run.times)
    && (withBalance && |run.rates| > 0 ==> |run.balances| > 0 && run.balances[0] == dt)
    && (!withBalance ==> run.balances == [])
    && (|run.rates| > 0 ==> every != 0)
  }

  /** The bookkeeping of the time loop after `n` steps, the last of which
      reached `s`: the history and the rates so far are those of the
      iteration, the run has stopped at the first rate below `eps` if any,
      and the balance stamps are saved times. */
  ghost predicate Progress(run: Run, n: nat, s: State, step: State -> Result<State>, test: Test, s0: State,
                           dt: real, nMax: int, eps: real, every: int, withBalance: bool) {
    && |run.rates| == n
    && Iterate(step, s0, n) == Ok(s)
    && Saved(run.times, run.steps, run.states, step, s0, dt)
    && Tested(run.rates, step, test, s0, eps)
    && (forall i :: 0 <= i < |run.steps| ==> run.steps[i] <= n)
    && (n > 0 && (run.converged || n == nMax) ==> run.steps[|run.steps| - 1] == n)
    && (n == 0 ==> run.steps == [0] && run.balances == [])
    && (run.converged <==> n > 0 && run.rates[n - 1] < eps)
    && (forall i :: 0 <= i < n - 1 ==> run.rates[i] >= eps)
    && SavedWhenDue(run.steps, run.rates, every, eps, nMax)
    && BalancedWhenDue(run.balances, run.rates, every, eps, withBalance, dt)
    && (forall t :: t in run.balances ==> t <= TimeAt(n, dt))
    && (forall t :: t in run.balances ==> t in run.times)
    && (withBalance && n > 0 ==> |run.balances| > 0 && run.balances[0] == dt)
    && (!withBalance ==> run.balances == [])
  }

  /** The record keeping of one step of the loop: test verdict `v` for the
      step from `s` to `next`, the balance stamp and the saved state when
      due, and the rate. */
  method Record(run: Run, n: nat, s: State, next: State, v: Verdict, step: State -> Result<State>, test: Test,
                s0: State, dt: real, nMax: int, eps: real, every: int, withBalance: bool)
    returns (r: Run)
    requires dt > 0.0 && Decisive(test, eps) && every != 0 && n < nMax && !run.converged
    requires Progress(run, n, s, step, test, s0, dt, nMax, eps, every, withBalance)
    requires step(s) == Ok(next) && test(s, next) == Ok(v)
    ensures Progress(r, n + 1, next, step, test, s0, dt, nMax, eps, every, withBalance)
    ensures r.converged == v.converged
  {
    IterateNext(step, s0, n, s, next);
    TestedNext(run.rates, step, test, s0, eps, s, next, v);
    assert v.converged <==> v.maxRate < eps;
    var tNow := TimeAt(n + 1, dt);
    var times, steps, states := SaveRecord(run, n, next, step, s0, dt, every, v.converged, nMax);
    var balances := BalanceRecord(run.balances, run.times, times, n, every, v.converged, withBalance, dt, nMax);
    TimeAtNext(n, dt);
    RatesNext(run.rates, v.maxRate, eps);
    var rates := run.rates + [v.maxRate];
    SavedWhenDueNext(run.steps, steps, run.rates, v.maxRate, n, every, eps, nMax);
    BalancedWhenDueNext(run.balances, balances, run.rates, v.maxRate, n, every, eps, withBalance, dt);
    r := Run(times, steps, states, rates, balances, v.converged, None);
  }

  /** Saving step `n` exactly when due keeps `SavedWhenDue`. */
  lemma SavedWhenDueNext(before: seq<nat>, after: seq<nat>, rates: seq<real>, rate: real, n: nat,
                         every: int, eps: real, nMax: int)
    requires |rates| == n && every != 0 && SavedWhenDue(before, rates, every, eps, nMax)
    requires SaveDue(n, every, rate < eps, nMax) <==> n + 1 in after
    requires forall i: nat :: i != n + 1 ==> (i in after <==> i in before)
    ensures SavedWhenDue(after, rates + [rate], every, eps, nMax)
  {
    var rs := rates + [rate];
    forall i | 0 <= i < |rs| ensures every != 0 && ((i + 1) in after <==> SaveDue(i, every, rs[i] < eps, nMax)) {
      if i < n {
        assert rs[i] == rates[i];
      }
    }
  }

  /** Stamping step `n` exactly when a balance is due keeps `BalancedWhenDue`:
      the earlier steps' times all lie before the new one. */
  lemma BalancedWhenDueNext(before: seq<real>, after: seq<real>, rates: seq<real>, rate: real, n: nat,
                            every: int, eps: real, withBalance: bool, dt: real)
    requires |rates| == n && every != 0 && dt > 0.0 && BalancedWhenDue(before, rates, every, eps, withBalance, dt)
    requires TimeAt(n + 1, dt) in after <==> BalanceDue(n, every, rate < eps, withBalance)
    requires forall t :: t != TimeAt(n + 1, dt) ==> (t in after <==> t in before)
    ensures BalancedWhenDue(after, rates + [rate], every, eps, withBalance, dt)
  {
    var rs := rates + [rate];
    forall i | 0 <= i < |rs|
      ensures every != 0 && (TimeAt(i + 1, dt) in after <==> BalanceDue(i, every, rs[i] < eps, withBalance))
    {
      if i < n {
        assert rs[i] == rates[i];
        TimeAtMonotone(i + 1, n, dt);
        TimeAtNext(n, dt);
      }
    }
  }

  /** The saving part of one step: the state after step `n + 1` is appended
      with its time when the save is due. */
  method SaveRecord(run: Run, n: nat, next: State, step: State -> Result<State>, s0: State, dt: real,
                    every: int, converged: bool, nMax: int)
    returns (times: seq<real>, steps: seq<nat>, states: seq<State>)
    requires every != 0 && Saved(run.times, run.steps, run.states, step, s0, dt)
    requires (forall i :: 0 <= i < |run.steps| ==> run.steps[i] <= n) && Iterate(step, s0, n + 1) == Ok(next)
    ensures Saved(times, steps, states, step, s0, dt)
    ensures forall i :: 0 <= i < |steps| ==> steps[i] <= n + 1
    ensures SaveDue(n, every, converged, nMax) ==> steps[|steps| - 1] == n + 1 && TimeAt(n + 1, dt) in times
    ensures SaveDue(n, every, converged, nMax) <==> n + 1 in steps
    ensures forall i: nat :: i != n + 1 ==> (i in steps <==> i in run.steps)
    ensures forall t :: t in run.times ==> t in times
  {
    times, steps, states := run.times, run.steps, run.states;
    if SaveDue(n, every, converged, nMax) {
      SavedNext(times, steps, states, step, s0, dt, n, next);
      times, steps, states := times + [TimeAt(n + 1, dt)], steps + [n + 1], states + [next];
    }
  }

  /** The balance part of one step: the stamp of step `n + 1` is appended
      when a balance is due, and every stamp stays a saved time. */
  method BalanceRecord(balances: seq<real>, before: seq<real>, times: seq<real>, n: nat, every: int, converged: bool,
                       withBalance: bool, dt: real, nMax: int)
    returns (b: seq<real>)
    requires every != 0 && dt > 0.0 && (forall t :: t in balances ==> t in before) && (forall t :: t in before ==> t in times)
    requires forall t :: t in balances ==> t <= TimeAt(n, dt)
    requires SaveDue(n, every, converged, nMax) ==> TimeAt(n + 1, dt) in times
    requires n == 0 ==> balances == []
    requires withBalance && n > 0 ==> |balances| > 0 && balances[0] == dt
    requires !withBalance ==> balances == []
    ensures forall t :: t in b ==> t in times
    ensures TimeAt(n + 1, dt) in b <==> BalanceDue(n, every, converged, withBalance)
    ensures forall t :: t != TimeAt(n + 1, dt) ==> (t in b <==> t in balances)
    ensures forall t :: t in b ==> t <= TimeAt(n + 1, dt)
    ensures withBalance ==> |b| > 0 && b[0] == dt
    ensures !withBalance ==> b == []
  {
    b := balances;
    var tNow := TimeAt(n + 1, dt);
    TimeAtNext(n, dt);
    var stamp := BalanceStamp(n, every, converged, withBalance, tNow);
    if stamp.Some? {
      BalanceStampSaved(n, every, converged, withBalance, tNow, nMax);
      b := b + [stamp.value];
    }
    assert n == 0 ==> 0 % every == 0;
  }

  /** A rate appended to rates that all missed the tolerance: only the new
      one can meet it. */
  lemma RatesNext(rates: seq<real>, rate: real, eps: real)
    requires forall i :: 0 <= i < |rates| - 1 ==> rates[i] >= eps
    requires |rates| > 0 ==> rates[|rates| - 1] >= eps
    ensures forall i :: 0 <= i < |rates| ==> (rates + [rate])[i] >= eps
    ensures (rates + [rate])[|rates|] == rate
  {
  }

  /** The main loop of `resolver_sistema` for any step function: step, test
      for steady state, record the balance and save the state when due, and
      stop at convergence or after `nMax` steps. A zero saving period divides
      by zero at the first step. */
  method TimeLoop(step: State -> Result<State>, test: Test, s0: State, dt: real, nMax: int, eps: real,
                  every: int, withBalance: bool)
    returns (r: Result<Run>)
    requires dt > 0.0 && Decisive(test, eps)
    ensures r.Ok? ==> Outcome(r.value, step, test, s0, dt, nMax, eps, every, withBalance)
    ensures nMax > 0 && every == 0 ==> r.Err?
    ensures nMax > 0 && step(s0).Err? ==> r.Err?
    ensures (nMax <= 0 || every != 0) && Runs(step, test, s0, AtLeastZero(nMax)) ==> r.Ok?
  {
    var s := s0;
    var run := Run([0.0], [0], [s0], [], [], false, None);
    var n: nat := 0;
    while n < nMax && !run.converged
      invariant (nMax > 0 ==> n <= nMax) && (nMax <= 0 ==> n == 0)
      invariant Progress(run, n, s, step, test, s0, dt, nMax, eps, every, withBalance)
      invariant n > 0 ==> every != 0 && step(s0).Ok?
    {
      if Runs(step, test, s0, AtLeastZero(nMax)) {
        assert StepRuns(step, test, s0, n);
      }
      var next :- step(s);
      var v :- test(s, next);
      if every == 0 {
        return Err(InvalidArgument);
      }
      run := Record(run, n, s, next, v, step, test, s0, dt, nMax, eps, every, withBalance);
      s := next;
      n := n + 1;
    }
    Finished(run, n, s, step, test, s0, dt, nMax, eps, every, withBalance);
    r := Ok(Stopped(run, dt));
  }

  /** The finished run, stamped with its convergence time. */
  function Stopped(run: Run, dt: real): (r: Run)
    ensures r.tConv == (if run.converged then Some(TimeAt(|run.rates|, dt)) else None)
    ensures r.times == run.times && r.steps == run.steps && r.states == run.states
    ensures r.rates == run.rates && r.balances == run.balances && r.converged == run.converged
  {
    run.(tConv := if run.converged then Some(TimeAt(|run.rates|, dt)) else None)
  }

  /** A loop that has stopped, at convergence or after `nMax` steps, has
      finished its run. */
  lemma Finished(run: Run, n: nat, s: State, step: State -> Result<State>, test: Test, s0: State,
                 dt: real, nMax: int, eps: real, every: int, withBalance: bool)
    requires Progress(run, n, s, step, test, s0, dt, nMax, eps, every, withBalance)
    requires (nMax > 0 ==> n <= nMax) && (nMax <= 0 ==> n == 0) && !(n < nMax && !run.converged)
    requires n > 0 ==> every != 0
    ensures Outcome(Stopped(run, dt), step, test, s0, dt, nMax, eps, every, withBalance)
  {
  }

  /** `resolver_sistema`: initialise, fix the time scales, then run the time
      loop on the whole-system step for `int(tMax / dt)` steps at most. */
  method Solve(p: Params, ms: Meshes, tMax: real, eps: real, every: int, withBalance: bool)
    returns (r: Result<Run>)
    requires Ready(p, ms)
    ensures Setup(p, ms).Err? ==> r.Err?
    ensures Initial(p, ms).Err? ==> r == Err(PhysicalRange)
    ensures r.Ok? ==> Setup(p, ms).Ok?
    ensures r.Ok? ==> Outcome(r.value, StepOf(p, ms, Setup(p, ms).value.sub), TestOf(p.dt, eps), Setup(p, ms).value.state,
                              p.dt, Trunc(tMax / p.dt), eps, every, withBalance)
    ensures Setup(p, ms).Ok? && (Trunc(tMax / p.dt) <= 0 || every != 0)
            && Runs(StepOf(p, ms, Setup(p, ms).value.sub), TestOf(p.dt, eps), Setup(p, ms).value.state,
                    AtLeastZero(Trunc(tMax / p.dt)))
            ==> r.Ok?
  {
    var st :- Setup(p, ms);
    r := TimeLoop(StepOf(p, ms, st.sub), TestOf(p.dt, eps), st.state, p.dt, Trunc(tMax / p.dt), eps, every, withBalance);
  }

  /** A run whose step leaves its initial state unchanged stops after its
      first step, converged with a zero rate. */
  lemma FixedStartStops(run: Run, step: State -> Result<State>, test: Test, s0: State, dt: real, nMax: int, eps: real,
                        every: int, withBalance: bool)
    requires Outcome(run, step, test, s0, dt, nMax, eps, every, withBalance) && nMax > 0
    requires step(s0) == Ok(s0) && test(s0, s0) == Ok(Verdict(true, 0.0))
    ensures run.converged && run.rates == [0.0] && run.tConv == Some(dt)
  {
    assert |run.rates| > 0;
    assert TestedAt(run.rates[0], 0, step, test, s0, eps);
    assert Iterate(step, s0, 1) == Ok(s0);
    assert run.rates[0] == 0.0;
    assert run.converged && |run.rates| == 1;
    assert run.tConv == Some(TimeAt(1, dt));
    assert TimeAt(1, dt) == dt;
  }

  /** Every step from equilibrium succeeds and is tested, however many are
      asked for. */
  lemma RunsAtRest(p: Params, ms: Meshes, sub: Schedule, v: real, eps: real, m: nat)
    requires Ready(p, ms) && AtRest(p, ms, sub, v) && p.dt > 0.0 && eps > 0.0
    ensures Runs(StepOf(p, ms, sub), TestOf(p.dt, eps), Equilibrium(p, v), m)
  {
    var e := Equilibrium(p, v);
    EquilibriumComparable(p, v);
    UnchangedConverges(e, p.dt, eps);
    forall k | 0 <= k < m ensures StepRuns(StepOf(p, ms, sub), TestOf(p.dt, eps), e, k) {
      IterateAtRest(p, ms, sub, v, k);
      IterateAtRest(p, ms, sub, v, k + 1);
    }
  }

  /** `resolver_sistema` started at equilibrium: the run succeeds and stops
      after one plate step, converged with a zero rate, at t = dt. */
  method SolveAtRest(p: Params, ms: Meshes, v: real, tMax: real, eps: real, every: int, withBalance: bool)
    returns (r: Result<Run>)
    requires Ready(p, ms) && Setup(p, ms).Ok?
    requires p.tInit == v && AtRest(p, ms, Setup(p, ms).value.sub, v) && eps > 0.0 && Trunc(tMax / p.dt) > 0
    requires every != 0
    ensures r.Ok? && r.value.converged && r.value.rates == [0.0] && r.value.tConv == Some(p.dt)
  {
    var st := Setup(p, ms).value;
    InitialAtRest(p, ms, v);
    assert st.state == Equilibrium(p, v);
    RunsAtRest(p, ms, st.sub, v, eps, AtLeastZero(Trunc(tMax / p.dt)));
    r := Solve(p, ms, tMax, eps, every, withBalance);
    AdvanceAtRest(p, ms, st.sub, v);
    EquilibriumComparable(p, v);
    UnchangedConverges(st.state, p.dt, eps);
    FixedStartStops(r.value, StepOf(p, ms, st.sub), TestOf(p.dt, eps), st.state, p.dt, Trunc(tMax / p.dt), eps,
                    every, withBalance);
  }

}
