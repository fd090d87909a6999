/** The physical and numerical parameters of the cooling system: geometry of
    the plate and its three half-cylinder fins (domes), water and air
    operating conditions, the two selectable solid materials, the mesh
    resolutions, and the time step chosen from the fluid and plate
    stability limits.

    A parameter set is built once by `New` and then only read. Every sanity
    check the constructor performs is modelled as a condition that turns the
    result into an `Err`.
 */
module Parameters {
  import opened Outcomes
  import opened Fields

  /** The value of pi as a double (numpy's `np.pi`). */
  const Pi: real := 3.141592653589793

  datatype Material = Aluminium | Stainless

  /** Thermophysical properties of a solid: conductivity k, density rho,
      specific heat cp and diffusivity alpha. */
  datatype Solid = Solid(k: real, rho: real, cp: real, alpha: real)

  /** The material names the constructor and `set_material` accept. */
  function ParseMaterial(name: string): (r: Result<Material>)
    ensures r.Ok? <==> name == "Al" || name == "SS"
    ensures r.Ok? ==> (r.value == Aluminium <==> name == "Al") && (r.value == Stainless <==> name == "SS")
    ensures r.Err? ==> r.error == InvalidMaterial
  {
    if name == "Al" then Ok(Aluminium)
    else if name == "SS" then Ok(Stainless)
    else Err(InvalidMaterial)
  }

  /** The tabulated properties: aluminium 6061 and stainless steel 304. */
  function Table(m: Material): Solid {
    match m
    case Aluminium => Solid(167.0, 2700.0, 900.0, 6.87e-5)
    case Stainless => Solid(16.2, 8000.0, 500.0, 4.05e-6)
  }

  /** numpy's `isclose(a, b, rtol)` with its default absolute tolerance 1e-8. */
  predicate IsClose(a: real, b: real, rtol: real) {
    Abs(a - b) <= 1e-8 + rtol * Abs(b)
  }

  /** A solid's tabulated diffusivity agrees with k / (rho cp) and every property is positive. */
  predicate ConsistentSolid(s: Solid) {
    && s.rho * s.cp != 0.0
    && IsClose(s.alpha, s.k / (s.rho * s.cp), 1e-3)
    && s.k > 0.0 && s.rho > 0.0 && s.cp > 0.0 && s.alpha > 0.0
  }

  /** The checks `set_material` runs on the properties it has just stored. A
      zero heat capacity would raise a division error before the tolerance
      check; it is reported as the same configuration failure. */
  function CheckSolid(s: Solid): Result<Solid> {
    if ConsistentSolid(s) then Ok(s) else Err(InvalidConfiguration)
  }

  /** Both tabulated materials pass the diffusivity consistency check. */
  lemma TablesConsistent(m: Material)
    ensures ConsistentSolid(Table(m))
    ensures CheckSolid(Table(m)) == Ok(Table(m))
  {
    var s := Table(m);
    if m == Aluminium {
      // 167 / (2700 * 900) = 6.8724e-5, within 1e-3 of 6.87e-5 relative
      assert s.k / (s.rho * s.cp) == 167.0 / 2430000.0;
    }
  }

  /** A complete parameter set. Lengths in metres, temperatures in kelvin. */
  datatype Params = Params(
    material: Material,
    solid: Solid,
    // geometry
    lx: real,           // plate length along the flow
    width: real,        // plate depth (z)
    eBase: real,        // base plate thickness
    eWater: real,       // water channel gap
    diameter: real,     // dome diameter
    radius: real,       // dome radius R
    pitch: real,        // distance between dome centres
    gap: real,          // flat separation between domes
    nFins: nat,
    finCenters: seq<real>,
    // operation
    flow: real,         // volumetric flow rate
    u: real,            // mean water velocity
    hWater: real,       // water-side convection coefficient
    hAir: real,         // air-side convection coefficient
    tInf: real,         // ambient air temperature
    tInit: real,        // initial solid temperature
    tInInitial: real,   // water inlet temperature before the step change
    tIn: real,          // water inlet temperature
    // water properties
    kWater: real,
    rhoWater: real,
    cpWater: real,
    // discretisation
    nxFluid: int,
    dxFluid: real,
    nxPlate: int,
    nyPlate: int,
    dxPlate: real,
    dyPlate: real,
    nr: int,
    ntheta: int,
    dr: real,
    dtheta: real,
    dt: real)

  /** The mesh spacings are the uniform spacings of their node counts over the domain. */
  predicate Spacings(p: Params) {
    && p.nxFluid > 1 && p.nxPlate > 1 && p.nyPlate > 1 && p.nr > 1 && p.ntheta > 1
    && p.dxFluid == p.lx / (p.nxFluid - 1) as real
    && p.dxPlate == p.lx / (p.nxPlate - 1) as real
    && p.dyPlate == p.eBase / (p.nyPlate - 1) as real
    && p.dr == p.radius / (p.nr - 1) as real
  }

  /** The angular spacing is the uniform spacing of the fin's angular nodes over [0, pi]. */
  predicate AngularSpacing(p: Params) {
    p.ntheta > 1 && p.dtheta == Pi / (p.ntheta - 1) as real
  }

  /** The divisors of every derived quantity are non-zero. */
  predicate Divisible(p: Params) {
    p.dxFluid > 0.0 && p.dxPlate > 0.0 && p.dyPlate > 0.0 && p.dr > 0.0 && p.radius > 0.0
  }

  /** Every sanity assertion of the constructor other than stability holds. */
  predicate Sane(p: Params) {
    // geometry
    && p.lx > 0.0 && p.width > 0.0 && p.eBase > 0.0 && p.eWater > 0.0
    && p.radius == p.diameter / 2.0 && p.gap == p.pitch - p.diameter
    // operation
    && p.flow > 0.0 && p.u > 0.0 && p.hWater > 0.0 && p.hAir > 0.0
    && 200.0 < p.tInf < 400.0 && 200.0 < p.tInit < 400.0 && 200.0 < p.tIn < 400.0
    // water
    && p.kWater > 0.0 && p.rhoWater > 0.0 && p.cpWater > 0.0
    // solid
    && ConsistentSolid(p.solid)
    // time step and resolutions
    && 1e-6 < p.dt < 5e-2
    && p.nxFluid > 1 && p.nxPlate > 1 && p.nyPlate > 1 && p.nr > 1 && p.ntheta > 1
    && p.dt > 0.0
  }

  /** Coupling coefficient gamma = h_w / (rho_w cp_w e_w) of the fluid equation. */
  function Gamma(p: Params): (g: real)
    requires p.rhoWater > 0.0 && p.cpWater > 0.0 && p.eWater > 0.0
    ensures p.hWater > 0.0 ==> g > 0.0
    ensures g * (p.rhoWater * p.cpWater * p.eWater) == p.hWater
  {
    p.hWater / (p.rhoWater * p.cpWater * p.eWater)
  }

  /** Courant number u dt / dx of the fluid mesh. */
  function Cfl(p: Params): real
    requires p.dxFluid > 0.0
  {
    p.u * p.dt / p.dxFluid
  }

  /** A Fourier number has the sign of alpha dt. */
  lemma FourierSign(alpha: real, dt: real, d: real)
    requires d > 0.0
    ensures alpha > 0.0 && dt > 0.0 ==> alpha * dt / (d * d) > 0.0
    ensures alpha >= 0.0 && dt >= 0.0 ==> alpha * dt / (d * d) >= 0.0
  {
    ProductPositive(d, d);
    ReciprocalPositive(d * d);
    assert alpha * dt / (d * d) == (alpha * dt) * (1.0 / (d * d));
    if alpha > 0.0 && dt > 0.0 {
      ProductPositive(alpha, dt);
      ProductPositive(alpha * dt, 1.0 / (d * d));
    }
    if alpha >= 0.0 && dt >= 0.0 {
      ProductNonNegative(alpha, dt);
      ProductNonNegative(alpha * dt, 1.0 / (d * d));
    }
  }

  /** The Fourier number alpha dt / d^2 of a grid spacing d. */
  function Fourier(alpha: real, dt: real, d: real): (f: real)
    requires d > 0.0
    ensures alpha > 0.0 && dt > 0.0 ==> f > 0.0
    ensures alpha >= 0.0 && dt >= 0.0 ==> f >= 0.0
  {
    FourierSign(alpha, dt, d);
    alpha * dt / (d * d)
  }

  /** Fourier number alpha dt / dx^2 along the plate. */
  function FoX(p: Params): real
    requires p.dxPlate > 0.0
  {
    Fourier(p.solid.alpha, p.dt, p.dxPlate)
  }

  /** Fourier number alpha dt / dy^2 across the plate. */
  function FoY(p: Params): real
    requires p.dyPlate > 0.0
  {
    Fourier(p.solid.alpha, p.dt, p.dyPlate)
  }

  /** Radial Fourier number alpha dt / dr^2 of the fins. */
  function FoR(p: Params): real
    requires p.dr > 0.0
  {
    Fourier(p.solid.alpha, p.dt, p.dr)
  }

  /** Angular Fourier number alpha dt, still to be divided by (r dtheta)^2 or r^2 at each use. */
  function FoTheta(p: Params): real {
    p.solid.alpha * p.dt
  }

  /** The three stability criteria of `_verificar_estabilidad`; the fin one is
      evaluated at the dome radius. */
  predicate Stable(p: Params)
    requires Divisible(p)
  {
    && Cfl(p) <= 1.0
    && FoX(p) + FoY(p) <= 0.5
    && FoR(p) + FoTheta(p) / (p.radius * p.radius) <= 0.5
  }

  /** 1/dx^2 + 1/dy^2, the plate's combined inverse squared spacing. */
  function InverseSquares(dx: real, dy: real): (s: real)
    requires dx > 0.0 && dy > 0.0
    ensures s > 0.0
  {
    ProductPositive(dx, dx);
    ProductPositive(dy, dy);
    ReciprocalPositive(dx * dx);
    ReciprocalPositive(dy * dy);
    1.0 / (dx * dx) + 1.0 / (dy * dy)
  }

  /** The largest step the plate's explicit scheme admits: Fo_x + Fo_y == 0.5. */
  function FourierLimit(alpha: real, dx: real, dy: real): (t: real)
    requires alpha > 0.0 && dx > 0.0 && dy > 0.0
    ensures t > 0.0
  {
    var s := InverseSquares(dx, dy);
    ProductPositive(alpha, s);
    0.5 / (alpha * s)
  }

  /** The time step rule: 80% of the smaller of the plate's Fourier limit and
      the fluid's Courant limit dx_f / u. */
  function TimeStep(alpha: real, dxFluid: real, dxPlate: real, dyPlate: real, u: real): real
    requires alpha > 0.0 && dxFluid > 0.0 && dxPlate > 0.0 && dyPlate > 0.0 && u > 0.0
  {
    var fourier := FourierLimit(alpha, dxPlate, dyPlate);
    var courant := dxFluid / u;
    0.8 * (if fourier <= courant then fourier else courant)
  }

  /** The plate Fourier sum is alpha dt (1/dx^2 + 1/dy^2). */
  lemma FourierSum(alpha: real, dt: real, dx: real, dy: real)
    requires alpha > 0.0 && dx > 0.0 && dy > 0.0
    ensures alpha * dt / (dx * dx) + alpha * dt / (dy * dy) == (alpha * InverseSquares(dx, dy)) * dt
  {
    ProductPositive(dx, dx);
    ProductPositive(dy, dy);
    assert alpha * dt / (dx * dx) == (alpha * dt) * (1.0 / (dx * dx));
    assert alpha * dt / (dy * dy) == (alpha * dt) * (1.0 / (dy * dy));
  }

  /** A step no longer than `f * limit` gives a Fourier sum of at most `f / 2`. */
  lemma UnderFourierLimit(alpha: real, dt: real, dx: real, dy: real, f: real)
    requires alpha > 0.0 && dx > 0.0 && dy > 0.0 && f >= 0.0
    requires dt <= f * FourierLimit(alpha, dx, dy)
    ensures alpha * dt / (dx * dx) + alpha * dt / (dy * dy) <= f * 0.5
    ensures dt == f * FourierLimit(alpha, dx, dy) ==> alpha * dt / (dx * dx) + alpha * dt / (dy * dy) == f * 0.5
  {
    var a := alpha * InverseSquares(dx, dy);
    ProductPositive(alpha, InverseSquares(dx, dy));
    FourierSum(alpha, dt, dx, dy);
    assert a * FourierLimit(alpha, dx, dy) == 0.5;
    ProductLe(a, dt, f * FourierLimit(alpha, dx, dy));
    assert a * (f * FourierLimit(alpha, dx, dy)) == f * 0.5;
  }

  /** A step no longer than `f * dx / u` gives a Courant number of at most `f`. */
  lemma UnderCourantLimit(u: real, dt: real, dx: real, f: real)
    requires u > 0.0 && dx > 0.0
    requires dt <= f * (dx / u)
    ensures u * dt / dx <= f
    ensures dt == f * (dx / u) ==> u * dt / dx == f
  {
    ProductLe(u / dx, dt, f * (dx / u));
    assert u * dt / dx == (u / dx) * dt;
    assert (u / dx) * (dx / u) == 1.0;
    assert (u / dx) * (f * (dx / u)) == f * ((u / dx) * (dx / u));
  }

  /** The rule's time step keeps the Courant number at most 0.8 and the plate
      Fourier sum at most 0.4, and one of the two sits exactly on its bound. */
  lemma TimeStepRule(alpha: real, dxFluid: real, dxPlate: real, dyPlate: real, u: real)
    requires alpha > 0.0 && dxFluid > 0.0 && dxPlate > 0.0 && dyPlate > 0.0 && u > 0.0
    ensures var dt := TimeStep(alpha, dxFluid, dxPlate, dyPlate, u);
      && dt > 0.0
      && u * dt / dxFluid <= 0.8
      && alpha * dt / (dxPlate * dxPlate) + alpha * dt / (dyPlate * dyPlate) <= 0.4
      && (u * dt / dxFluid == 0.8
          || alpha * dt / (dxPlate * dxPlate) + alpha * dt / (dyPlate * dyPlate) == 0.4)
  {
    var dt := TimeStep(alpha, dxFluid, dxPlate, dyPlate, u);
    var fourier := FourierLimit(alpha, dxPlate, dyPlate);
    UnderFourierLimit(alpha, dt, dxPlate, dyPlate, 0.8);
    UnderCourantLimit(u, dt, dxFluid, 0.8);
  }

  /** The parameter set the constructor assembles for a material, before its
      checks run. */
  function Assemble(m: Material, s: Solid): (p: Params)
    requires s.alpha > 0.0
    ensures p.material == m && p.solid == s
    ensures Spacings(p) && AngularSpacing(p) && Divisible(p)
  {
    var lx, eBase, radius, u := 0.03, 0.01, 0.004, 0.111;
    var nxFluid, nxPlate, nyPlate, nr, ntheta := 60, 60, 20, 10, 20;
    var dxFluid := lx / (nxFluid - 1) as real;
    var dxPlate := lx / (nxPlate - 1) as real;
    var dyPlate := eBase / (nyPlate - 1) as real;
    Params(
      m, s,
      lx, 0.10, eBase, 0.003, 0.008, radius, 0.010, 0.002, 3, [0.005, 0.015, 0.025],
      3.33e-5, u, 600.0, 10.0, 296.15, 296.15, 323.15, 353.15,
      0.563, 980.5, 4180.0,
      nxFluid, dxFluid, nxPlate, nyPlate, dxPlate, dyPlate,
      nr, ntheta, radius / (nr - 1) as real, Pi / (ntheta - 1) as real,
      TimeStep(s.alpha, dxFluid, dxPlate, dyPlate, u))
  }

  /** The constructor's sanity checks (configuration errors first, then the
      stability errors of `_verificar_estabilidad`). */
  function Validate(p: Params): (r: Result<Params>)
    requires Divisible(p)
    ensures r.Ok? <==> Sane(p) && Stable(p)
    ensures r.Ok? ==> r.value == p
    ensures r.Err? && Sane(p) ==> r.error == Instability
    ensures r.Err? && !Sane(p) ==> r.error == InvalidConfiguration
  {
    if !Sane(p) then Err(InvalidConfiguration)
    else if !Stable(p) then Err(Instability)
    else Ok(p)
  }

  /** `Parametros(material)`. */
  function New(name: string): (r: Result<Params>)
    ensures r.Ok? <==> name == "Al" || name == "SS"
    ensures r.Err? ==> r.error == InvalidMaterial
    ensures r.Ok? ==> && Sane(r.value) && Spacings(r.value) && AngularSpacing(r.value) && Divisible(r.value) && Stable(r.value)
                      && r.value.solid == Table(r.value.material)
                      && (r.value.material == Aluminium <==> name == "Al")
  {
    var m :- ParseMaterial(name);
    TablesConsistent(m);
    match CheckSolid(Table(m))
    case Err(e) => Err(e)
    case Ok(s) =>
      DefaultsValid(m);
      Validate(Assemble(m, s))
  }

  /** The default parameter set passes every check for both materials. */
  lemma DefaultsValid(m: Material)
    ensures Sane(Assemble(m, Table(m))) && Stable(Assemble(m, Table(m)))
  {
    TablesConsistent(m);
    var p := Assemble(m, Table(m));
    TimeStepRule(p.solid.alpha, p.dxFluid, p.dxPlate, p.dyPlate, p.u);
    if m == Aluminium {
      // the Fourier limit binds: dt = 0.4 / (alpha (1/dx^2 + 1/dy^2))
      assert p.dxPlate == 0.03 / 59.0 && p.dyPlate == 0.01 / 19.0;
      assert p.dt == 0.4 / (6.87e-5 * (3481.0 / 0.0009 + 361.0 / 0.0001));
      assert p.dr == 0.004 / 9.0;
    } else {
      // the Courant limit binds: dt = 0.8 dx_f / u
      assert p.dt == 0.8 * (0.03 / 59.0) / 0.111;
      assert p.dr == 0.004 / 9.0;
    }
  }

  /** `set_material` on an existing parameter set: swaps the material and its
      properties and keeps everything else, the time step included. */
  function SetMaterial(p: Params, name: string): (r: Result<Params>)
    ensures r.Ok? <==> name == "Al" || name == "SS"
    ensures r.Err? ==> r.error == InvalidMaterial
    ensures r.Ok? ==> (r.value.material == Aluminium <==> name == "Al") && (r.value.material == Stainless <==> name == "SS")
    ensures r.Ok? ==> r.value.solid == Table(r.value.material)
    ensures r.Ok? ==> r.value.(material := p.material, solid := p.solid) == p
  {
    var m :- ParseMaterial(name);
    TablesConsistent(m);
    match CheckSolid(Table(m))
    case Err(e) => Err(e)
    case Ok(s) => Ok(p.(material := m, solid := s))
  }

  /** A successful constructor call yields the assembled defaults of its material. */
  lemma NewIsAssembled(name: string)
    requires name == "Al" || name == "SS"
    ensures var m := if name == "Al" then Aluminium else Stainless;
      New(name) == Ok(Assemble(m, Table(m)))
  {
    var m := if name == "Al" then Aluminium else Stainless;
    TablesConsistent(m);
    DefaultsValid(m);
  }

  /** The geometry every constructed parameter set shares. */
  lemma DefaultGeometry(name: string)
    requires New(name).Ok?
    ensures var p := New(name).value;
      p.lx == 0.03 && p.eBase == 0.01 && p.radius == 0.004 && p.finCenters == [0.005, 0.015, 0.025]
  {
    NewIsAssembled(name);
  }

  /** Switching a stainless-steel parameter set to aluminium keeps the steel
      time step, which is about four times the aluminium plate limit. */
  lemma SetMaterialKeepsStaleTimeStep()
    ensures New("SS").Ok?
    ensures SetMaterial(New("SS").value, "Al").Ok?
    ensures var p := SetMaterial(New("SS").value, "Al").value;
      Divisible(p) && FoX(p) + FoY(p) > 0.5 && !Stable(p)
  {
    NewIsAssembled("SS");
    var ss := Assemble(Stainless, Table(Stainless));
    var p := SetMaterial(ss, "Al").value;
    var dx := 0.03 / 59.0;
    assert ss.dxFluid == dx && ss.dxPlate == dx && ss.dyPlate == 0.01 / 19.0;
    // the Courant limit binds for steel
    assert FourierLimit(4.05e-6, dx, 0.01 / 19.0) > dx / 0.111;
    assert p.dt == ss.dt == 0.8 * (dx / 0.111);
    assert p.solid.alpha == 6.87e-5;
    // Fo_x alone is 0.8 alpha / (u dx), about 0.97
    assert FoX(p) == 6.87e-5 * (0.8 * (dx / 0.111)) / (dx * dx);
    assert FoX(p) > 0.9;
    assert FoY(p) >= 0.0;
  }

  /** A material switch that also recomputes the time step from the new
      diffusivity and re-runs the stability checks, as the constructor does. */
  function SwitchMaterial(p: Params, name: string): (r: Result<Params>)
    requires Divisible(p) && p.u > 0.0
    ensures r.Ok? ==> r.value.(material := p.material, solid := p.solid, dt := p.dt) == p
    ensures r.Ok? ==> Divisible(r.value) && Stable(r.value) && r.value.solid == Table(r.value.material)
    ensures r.Ok? ==> r.value.dt == TimeStep(r.value.solid.alpha, p.dxFluid, p.dxPlate, p.dyPlate, p.u)
    ensures !(name == "Al" || name == "SS") ==> r == Err(InvalidMaterial)
  {
    var m :- ParseMaterial(name);
    TablesConsistent(m);
    match CheckSolid(Table(m))
    case Err(e) => Err(e)
    case Ok(s) => Validate(p.(material := m, solid := s, dt := TimeStep(s.alpha, p.dxFluid, p.dxPlate, p.dyPlate, p.u)))
  }

  /** On a constructed parameter set, the corrected switch yields exactly what
      the constructor yields for the new material. */
  lemma SwitchMaterialMatchesNew(before: string, name: string)
    requires New(before).Ok?
    ensures SwitchMaterial(New(before).value, name) == New(name)
  {
    var p := New(before).value;
    if name == "Al" || name == "SS" {
      var m := ParseMaterial(name).value;
      TablesConsistent(m);
      DefaultsValid(m);
      assert p.(material := m, solid := Table(m), dt := TimeStep(Table(m).alpha, p.dxFluid, p.dxPlate, p.dyPlate, p.u))
          == Assemble(m, Table(m));
    }
  }
}
