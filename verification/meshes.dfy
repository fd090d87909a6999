/** The computational meshes: a 1-D grid along the water channel, a 2-D
    Cartesian grid over the plate cross-section, and three identical polar
    grids, one per half-cylinder fin.

    Every mesh is a uniform `linspace` grid. The plate and fin coordinate
    arrays are `meshgrid(..., indexing='ij')` arrays: entry `[i][j]` pairs the
    first axis' `i`-th coordinate with the second axis' `j`-th.
 */
module Meshes {
  import opened Outcomes
  import opened Fields
  import opened Parameters

  /** `np.linspace(a, b, n)` for n >= 2: n equally spaced points from a to b inclusive. */
  function Linspace(a: real, b: real, n: nat): (s: seq<real>)
    requires n >= 2
    ensures |s| == n
    ensures s[0] == a && s[n - 1] == b
    ensures forall i :: 0 <= i < n - 1 ==> s[i + 1] - s[i] == (b - a) / (n - 1) as real
  {
    var step := (b - a) / (n - 1) as real;
    var s := seq(n, i requires 0 <= i < n => a + i as real * step);
    assert s[n - 1] == a + ((n - 1) as real) * ((b - a) / (n - 1) as real);
    s
  }

  /** A grid over a non-empty interval is strictly increasing. */
  lemma LinspaceIncreasing(a: real, b: real, n: nat)
    requires n >= 2 && a < b
    ensures Increasing(Linspace(a, b, n))
  {
    var s := Linspace(a, b, n);
    var step := (b - a) / (n - 1) as real;
    LinspaceNodes(a, b, n);
    assert step > 0.0 by {
      ReciprocalPositive((n - 1) as real);
      assert step == (b - a) * (1.0 / (n - 1) as real);
      ProductPositive(b - a, 1.0 / (n - 1) as real);
    }
    forall i, j | 0 <= i < j < n
      ensures s[i] < s[j]
    {
      var d: real := (j - i) as real;
      ProductPositive(step, d);
      assert s[j] == a + j as real * step && s[i] == a + i as real * step;
      assert j as real * step - i as real * step == step * d;
      assert step * d > 0.0;
      assert s[j] - s[i] == step * d;
    }
  }

  /** The first array of `meshgrid(x, y, indexing='ij')`: `X[i][j] == x[i]`. */
  function GridX(x: seq<real>, ny: nat): (g: Field)
    ensures IsGrid(g, |x|, ny)
    ensures forall i, j :: 0 <= i < |x| && 0 <= j < ny ==> g[i][j] == x[i]
  {
    seq(|x|, i requires 0 <= i < |x| => Fill(ny, x[i]))
  }

  /** The second array of `meshgrid(x, y, indexing='ij')`: `Y[i][j] == y[j]`. */
  function GridY(nx: nat, y: seq<real>): (g: Field)
    ensures IsGrid(g, nx, |y|)
    ensures forall i, j :: 0 <= i < nx && 0 <= j < |y| ==> g[i][j] == y[j]
  {
    seq(nx, _ => y)
  }

  datatype FluidMesh = FluidMesh(x: seq<real>, dx: real, nx: nat)

  datatype PlateMesh = PlateMesh(
    x: seq<real>, y: seq<real>, dx: real, dy: real, nx: nat, ny: nat,
    gx: Field, gy: Field)

  /** One fin's polar mesh; `gr` and `gtheta` are the (Nr, Ntheta) meshgrid
      arrays, `xCenter` the fin's axis position along the plate, `index` its
      number 0, 1 or 2. */
  datatype FinMesh = FinMesh(
    r: seq<real>, theta: seq<real>, dr: real, dtheta: real, nr: nat, ntheta: nat,
    gr: Field, gtheta: Field, xCenter: real, index: nat)

  datatype Meshes = Meshes(fluid: FluidMesh, plate: PlateMesh, fins: seq<FinMesh>, totalNodes: nat)

  /** Scaling by a positive factor keeps the order of two indices. */
  lemma ScaledOrder(i: int, j: int, d: real)
    requires i < j && d > 0.0
    ensures i as real * d < j as real * d
  {
    ProductPositive((j - i) as real, d);
    assert j as real * d - i as real * d == (j - i) as real * d;
  }

  /** Nodes `i * d` with a positive spacing `d` increase strictly. */
  lemma EvenNodesIncreasing(s: seq<real>, d: real)
    requires d > 0.0 && forall i :: 0 <= i < |s| ==> s[i] == i as real * d
    ensures Increasing(s)
  {
    forall i, j | 0 <= i < j < |s| ensures s[i] < s[j] {
      ScaledOrder(i, j, d);
    }
  }

  /** The fluid grid along the channel. */
  function FluidGrid(p: Params): (m: FluidMesh)
    requires Spacings(p)
    ensures m.nx == p.nxFluid && |m.x| == m.nx && m.dx == p.dxFluid
    ensures m.x[0] == 0.0 && m.x[m.nx - 1] == p.lx
    ensures forall i :: 0 <= i < m.nx ==> m.x[i] == i as real * m.dx
  {
    var x := Linspace(0.0, p.lx, p.nxFluid);
    LinspaceNodes(0.0, p.lx, p.nxFluid);
    FluidMesh(x, p.dxFluid, p.nxFluid)
  }

  /** On a grid starting at zero, node `i` sits at `i` spacings. */
  lemma LinspaceNodes(a: real, b: real, n: nat)
    requires n >= 2
    ensures var s := Linspace(a, b, n);
      forall i :: 0 <= i < n ==> s[i] == a + i as real * ((b - a) / (n - 1) as real)
  {
  }

  /** The plate grid over [0, Lx] x [0, e_base]. */
  function PlateGrid(p: Params): (m: PlateMesh)
    requires Spacings(p)
    ensures m.nx == p.nxPlate && m.ny == p.nyPlate && |m.x| == m.nx && |m.y| == m.ny
    ensures m.dx == p.dxPlate && m.dy == p.dyPlate
    ensures m.x[0] == 0.0 && m.x[m.nx - 1] == p.lx && m.y[0] == 0.0 && m.y[m.ny - 1] == p.eBase
    ensures forall i :: 0 <= i < m.nx ==> m.x[i] == i as real * m.dx
    ensures forall j :: 0 <= j < m.ny ==> m.y[j] == j as real * m.dy
    ensures IsGrid(m.gx, m.nx, m.ny) && IsGrid(m.gy, m.nx, m.ny)
    ensures forall i, j :: 0 <= i < m.nx && 0 <= j < m.ny ==> m.gx[i][j] == m.x[i] && m.gy[i][j] == m.y[j]
  {
    var x := Linspace(0.0, p.lx, p.nxPlate);
    var y := Linspace(0.0, p.eBase, p.nyPlate);
    LinspaceNodes(0.0, p.lx, p.nxPlate);
    LinspaceNodes(0.0, p.eBase, p.nyPlate);
    PlateMesh(x, y, p.dxPlate, p.dyPlate, p.nxPlate, p.nyPlate, GridX(x, p.nyPlate), GridY(p.nxPlate, y))
  }

  /** Both plate axes increase strictly. */
  lemma PlateGridIncreasing(p: Params)
    requires Spacings(p) && Divisible(p)
    ensures Increasing(PlateGrid(p).x) && Increasing(PlateGrid(p).y)
  {
    EvenNodesIncreasing(PlateGrid(p).x, p.dxPlate);
    EvenNodesIncreasing(PlateGrid(p).y, p.dyPlate);
  }

  /** The three fin grids: identical polar meshes over [0, R] x [0, pi],
      told apart only by their axis position and their index. */
  function FinGrids(p: Params): (ms: seq<FinMesh>)
    requires Spacings(p) && |p.finCenters| == 3
    ensures |ms| == 3
    ensures forall k :: 0 <= k < 3 ==> ms[k].xCenter == p.finCenters[k] && ms[k].index == k
    ensures forall k :: 0 <= k < 3 ==> ms[k].(xCenter := ms[0].xCenter, index := 0) == ms[0]
    ensures var m := ms[0];
      && m.nr == p.nr && m.ntheta == p.ntheta && |m.r| == m.nr && |m.theta| == m.ntheta
      && m.dr == p.dr && m.dtheta == p.dtheta
      && m.r[0] == 0.0 && m.r[m.nr - 1] == p.radius
      && m.theta[0] == 0.0 && m.theta[m.ntheta - 1] == Pi
      && (forall j :: 0 <= j < m.nr ==> m.r[j] == j as real * m.dr)
      && (AngularSpacing(p) ==> forall k :: 0 <= k < m.ntheta ==> m.theta[k] == k as real * m.dtheta)
      && IsGrid(m.gr, m.nr, m.ntheta) && IsGrid(m.gtheta, m.nr, m.ntheta)
      && (forall j, k :: 0 <= j < m.nr && 0 <= k < m.ntheta ==> m.gr[j][k] == m.r[j] && m.gtheta[j][k] == m.theta[k])
  {
    var r := Linspace(0.0, p.radius, p.nr);
    var theta := Linspace(0.0, Pi, p.ntheta);
    LinspaceNodes(0.0, p.radius, p.nr);
    LinspaceNodes(0.0, Pi, p.ntheta);
    var base := FinMesh(r, theta, p.dr, p.dtheta, p.nr, p.ntheta,
                        GridX(r, p.ntheta), GridY(p.nr, theta), p.finCenters[0], 0);
    seq(3, k requires 0 <= k < 3 => base.(xCenter := p.finCenters[k], index := k))
  }

  /** The angular check of `generar_malla_aletas`: the mesh's spacing dtheta
      agrees, to numpy's `isclose` with relative tolerance 1e-6, with the
      spacing of its own angular nodes. */
  predicate AngularChecked(m: FinMesh)
    requires |m.theta| >= 2
  {
    IsClose(m.theta[1] - m.theta[0], m.dtheta, 1e-6)
  }

  /** `generar_todas_mallas`: every mesh, the fin meshes with their angular
      spacing checked, then the node count checked against 1860. */
  function AllMeshes(p: Params): (r: Result<Meshes>)
    requires Spacings(p) && |p.finCenters| == 3
    ensures |FinGrids(p)[0].theta| >= 2
    ensures r.Ok? <==> AngularChecked(FinGrids(p)[0])
                       && p.nxFluid + p.nxPlate * p.nyPlate + 3 * (p.nr * p.ntheta) == 1860
    ensures r.Err? ==> r.error == InvalidConfiguration
    ensures r.Ok? ==> && r.value.fluid == FluidGrid(p) && r.value.plate == PlateGrid(p)
                      && r.value.fins == FinGrids(p) && r.value.totalNodes == 1860
    ensures r.Ok? ==> forall k :: 0 <= k < 3 ==> |r.value.fins[k].theta| >= 2 && AngularChecked(r.value.fins[k])
  {
    var fluid := FluidGrid(p);
    var plate := PlateGrid(p);
    var fins := FinGrids(p);
    assert forall k :: 0 <= k < 3 ==> fins[k].theta == fins[0].theta && fins[k].dtheta == fins[0].dtheta by {
      forall k | 0 <= k < 3 ensures fins[k].theta == fins[0].theta && fins[k].dtheta == fins[0].dtheta {
        assert fins[k].(xCenter := fins[0].xCenter, index := 0) == fins[0];
      }
    }
    var total := fluid.nx + plate.nx * plate.ny + fins[0].nr * fins[0].ntheta
                 + fins[1].nr * fins[1].ntheta + fins[2].nr * fins[2].ntheta;
    if !AngularChecked(fins[0]) then Err(InvalidConfiguration)
    else if total != 1860 then Err(InvalidConfiguration)
    else Ok(Meshes(fluid, plate, fins, total))
  }

  /** A parameter set whose dtheta is the uniform angular spacing passes the
      angular check. */
  lemma AngularSpacingChecked(p: Params)
    requires Spacings(p) && AngularSpacing(p) && |p.finCenters| == 3
    ensures |FinGrids(p)[0].theta| >= 2 && AngularChecked(FinGrids(p)[0])
  {
    var m := FinGrids(p)[0];
    assert m.theta[1] == 1 as real * m.dtheta;
  }

  /** The default resolutions give 60 + 60 * 20 + 3 * 10 * 20 = 1860 nodes, so the
      mesh generation of every constructed parameter set succeeds. */
  lemma DefaultMeshesExist(name: string)
    requires New(name).Ok?
    ensures Spacings(New(name).value) && |New(name).value.finCenters| == 3
    ensures AllMeshes(New(name).value).Ok?
  {
    NewIsAssembled(name);
    AngularSpacingChecked(New(name).value);
  }

  /** Every fin radius lies in [0, R]. */
  lemma FinRadiiWithin(p: Params)
    requires Spacings(p) && Divisible(p) && |p.finCenters| == 3
    ensures forall k :: 0 <= k < 3 ==> Within(FinGrids(p)[k].r, 0.0, p.radius)
  {
    var fs := FinGrids(p);
    EvenNodesIncreasing(fs[0].r, fs[0].dr);
    IncreasingWithin(fs[0].r);
    forall k | 0 <= k < 3 ensures fs[k].r == fs[0].r {
      assert fs[k].(xCenter := fs[0].xCenter, index := 0) == fs[0];
    }
  }

  /** Fin radii: the centre is at zero and every other ring has a positive radius. */
  lemma FinRadiiPositive(p: Params, j: nat)
    requires Spacings(p) && p.radius > 0.0 && |p.finCenters| == 3
    requires 1 <= j < p.nr
    ensures FinGrids(p)[0].r[j] > 0.0
    ensures FinGrids(p)[0].r[0] == 0.0
  {
    var m := FinGrids(p)[0];
    assert m.dr > 0.0;
    ProductPositive(j as real, m.dr);
  }
}
