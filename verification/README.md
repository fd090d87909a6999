# GPU cooling system — a verified model of the transient solver

This project models the numerical core of a transient thermal simulation of a GPU cooling
block. Three coupled domains make up the block:

- a water channel (1-D, advected upwind, exchanging heat with the plate's wet face);
- a rectangular base plate (2-D Cartesian, explicit FTCS, water below and air above);
- three semicircular fins (2-D polar, explicit FTCS, air on the rim, glued to the plate
  along their diameter).

The model covers:

- the parameter set with its material table, derived numbers and stability checks;
- the meshes;
- the per-domain explicit updates, with the range and shape checks the source asserts;
- the plate–fluid and plate–fin coupling, including the two interpolators the source
  borrows from numpy and scipy, written out explicitly;
- the continuity diagnostic;
- the time loop with its fin sub-stepping, convergence test and history recording.

Temperatures are real numbers in kelvin and fields are sequences of sequences of reals:

- the plate is indexed `T[i][j]` with `i` along x and `j` across the thickness;
- a fin is indexed `T[m][j]` with `m` the angular row and `j` the radius.

Every assertion or array error of the source becomes an `Err` of a `Result` whose label
names its kind:

- a bad material;
- a bad configuration;
- a shape mismatch;
- an instability;
- a temperature out of its physical range;
- a query point out of bounds;
- a bad argument;
- an undefined name.

Modules follow the source files:

| module | file | source file |
|---|---|---|
| `Outcomes` | `outcomes.dfy` | results and error kinds |
| `Fields` | `fields.dfy` | fields, bands, extremes |
| `Interp` | `interp.dfy` | `np.interp` and the linear `RegularGridInterpolator` |
| `Parameters` | `parameters.dfy` | `src/parametros.py` |
| `Meshes` | `meshes.dfy` | `src/mallas.py` |
| `Stencil` | `stencil.dfy` | the finite-difference node formulas shared by the solids |
| `Fluid` | `fluid.dfy` | `src/fluido.py` |
| `Plate` | `plate.dfy` | `src/placa.py` |
| `Fins` | `fins.dfy` | `src/aletas.py` |
| `Coupling` | `coupling.dfy` | `src/acoplamiento.py` |
| `Solver` | `solver.dfy` | `src/solucionador.py` |

The main properties proved are these:

- Every explicit update is a convex combination of its inputs under a monotonicity
  condition on its numbers: CFL + gamma*dt <= 1 for the fluid, 2Fo_x + 2Fo_y(1 + Bi) <= 1
  for the plate, and for the fins twice the first-ring number at most 1 together with a
  rim bound that counts the air Biot number. These conditions are stronger than the
  source's own checks (CFL < 1, Fo_x + Fo_y < 1/2, first-ring number < 1/2) and are
  assumed, not derived from the constructed parameters. Under them a state inside the
  physical band stays inside it, and the fluid and plate range checks cannot fail; the
  fin step cannot fail when the old fin and the air also lie within a band narrower
  than its 50 K change limit.
- A uniform state at the ambient or inlet temperature is a fixed point of every update,
  of the coupling and of the whole time step. The solver started there returns a run
  that converges at its first step.
- Both interpolators return the data at the data's own nodes and never overshoot the
  data's band.
- The coupling makes the continuity diagnostic report zero error.
- The time loop's outcome is exactly what iterating the step from the initial state
  yields: every saved state is the iterate of its step, and exactly the steps due by the
  save interval, the verdict or the step budget are saved; every rate is the test's
  maximum rate of its step; every rate before the last is at least the tolerance; the
  run stops converged exactly when the last rate is below it. Exactly the steps due for a
  balance carry their time as a stamp. The loop returns a run whenever every step within
  its budget succeeds and is tested.

## Model

| member | source | states |
|---|---|---|
| Parameters.ParseMaterial | src/parametros.py:103-106 | only "Al" and "SS" are accepted, "Al" naming aluminium and "SS" stainless steel; anything else is an invalid-material error |
| Parameters.TablesConsistent | src/parametros.py:249-273 | both tabulated solids pass the source's own check that the tabulated diffusivity agrees with k/(rho cp) to rtol 1e-3, and have positive properties |
| Parameters.Gamma | src/parametros.py:345-361 | the fluid coupling coefficient times rho_w cp_w e_w gives back h_water, and it is positive with h_water |
| Parameters.Fourier | src/parametros.py:381-443 | a Fourier number alpha dt/d^2 has the sign of alpha dt |
| Parameters.FourierSign | src/parametros.py:381-443 | alpha dt/d^2 is positive, or non-negative, when alpha and dt are |
| Parameters.InverseSquares | src/parametros.py:200-208 | the plate's combined inverse squared spacing is positive |
| Parameters.FourierLimit | src/parametros.py:200-208 | the plate's largest admissible step is positive |
| Parameters.FourierSum | src/parametros.py:381-410 | Fo_x + Fo_y equals alpha dt (1/dx^2 + 1/dy^2) |
| Parameters.UnderFourierLimit | src/parametros.py:200-208 | a step at most f times the plate limit gives Fo_x + Fo_y at most f/2, with equality at the bound |
| Parameters.UnderCourantLimit | src/parametros.py:200-208 | a step at most f dx/u gives a Courant number at most f, with equality at the bound |
| Parameters.TimeStepRule | src/parametros.py:200-208 | the rule's step keeps the fluid Courant number at most 0.8 and the plate Fourier sum at most 0.4, so the plate and fluid criteria of the stability check hold |
| Parameters.Assemble | src/parametros.py:90-208 | the assembled set carries the chosen material, and its spacings are the uniform spacings of its node counts |
| Parameters.Validate | src/parametros.py:127-223 | accepts exactly the sane sets that pass the three stability criteria (CFL <= 1, Fo_x + Fo_y <= 1/2, the fin criterion) and returns them unchanged; a sane but unstable set is an instability error, anything else a configuration error |
| Parameters.New | src/parametros.py:90-223 | the constructor succeeds exactly for "Al" and "SS", and then yields a sane, stable set with consistent spacings |
| Parameters.DefaultsValid | src/parametros.py:127-223 | the default geometry, operating point and resolution pass every sanity and stability check for both materials |
| Parameters.NewIsAssembled | src/parametros.py:90-223 | a successful constructor call is the validated assembly of its material's table row |
| Parameters.DefaultGeometry | src/parametros.py:107-125 | every constructed set has Lx = 30 mm, e_base = 10 mm, R = 4 mm and fins centred at 5, 15 and 25 mm |
| Parameters.SetMaterial | src/parametros.py:225-273 | switching to "Al" gives aluminium and to "SS" stainless steel, with that material's table properties; every other field is kept, the time step included; any other name is an invalid-material error |
| Parameters.SetMaterialKeepsStaleTimeStep | src/parametros.py:225-273 | switching a constructed steel set to aluminium yields a set that violates the plate stability criterion |
| Parameters.SwitchMaterial | src/parametros.py:200-273 | the corrected switch recomputes the time step from the new diffusivity, and its result is stable and otherwise unchanged |
| Parameters.SwitchMaterialMatchesNew | src/parametros.py:90-273 | on a constructed set, the corrected switch to a material gives exactly what the constructor gives for it |
| Meshes.Linspace | src/mallas.py:51 | n points from a to b inclusive with constant step (b - a)/(n - 1) |
| Meshes.LinspaceIncreasing | src/mallas.py:53-58 | a grid over a non-empty interval is strictly increasing |
| Meshes.LinspaceNodes | src/mallas.py:51 | on a grid starting at zero, node i sits at i spacings |
| Meshes.GridX | src/mallas.py:113 | the first meshgrid array (indexing 'ij') repeats x[i] along each row |
| Meshes.GridY | src/mallas.py:113 | the second meshgrid array repeats y[j] down each column |
| Meshes.EvenNodesIncreasing | src/mallas.py:116-123 | nodes at i times a positive spacing increase strictly |
| Meshes.FluidGrid | src/mallas.py:20-65 | the channel grid has Nx nodes from 0 to Lx, node i at i dx |
| Meshes.PlateGrid | src/mallas.py:67-134 | the plate grid spans [0, Lx] x [0, e_base] with uniform spacings, and its coordinate arrays are the meshgrid of its axes |
| Meshes.PlateGridIncreasing | src/mallas.py:116-123 | both plate axes increase strictly |
| Meshes.FinGrids | src/mallas.py:137-224 | three fins identical except for their centre and index, radii on [0, R], angles on [0, pi] |
| Meshes.AllMeshes | src/mallas.py:198-285 | the mesh set exists exactly when the fin mesh's dtheta matches its own angular node spacing (isclose, rtol 1e-6) and the node total is 1860; it then holds the fluid, plate and fin grids, each fin passing the angular check |
| Meshes.AngularSpacingChecked | src/mallas.py:200-201 | a parameter set whose dtheta is pi/(Ntheta-1) passes the fin mesh's angular check |
| Meshes.DefaultMeshesExist | src/mallas.py:267-274 | the default resolutions give 60 + 60*20 + 3*10*20 = 1860 nodes, so mesh generation succeeds |
| Meshes.FinRadiiWithin | src/mallas.py:189-205 | every fin radius lies in [0, R] |
| Meshes.FinRadiiPositive | src/mallas.py:189-205 | the centre ring is at radius 0 and every other ring is at a positive radius |
| Interp.LerpWithin | src/fluido.py:99 | a fraction in [0, 1] keeps the interpolated value inside any band holding both ends |
| Interp.WholeFraction | src/acoplamiento.py:270-282 | the fraction reaching the right end of a non-empty cell is one |
| Interp.ZeroFraction | src/acoplamiento.py:270-282 | the fraction staying at the left end of a non-empty cell is zero |
| Interp.ScanWithin | src/fluido.py:99 | the segment scan returns a value within the band of the data |
| Interp.LinearWithin | src/fluido.py:99 | np.interp never overshoots the band of its data values, extrapolation included |
| Interp.LinearOfUniform | src/fluido.py:99 | interpolating constant data gives that constant everywhere |
| Interp.Interpolate | src/fluido.py:73-107 | vector interpolation succeeds exactly when the data is non-empty and matched, and then interpolates pointwise |
| Interp.InterpolateWithin | src/fluido.py:73-107 | interpolated vectors stay within the band of the data |
| Interp.SearchLeft | src/acoplamiento.py:270-282 | returns the first index whose grid value is at least x |
| Interp.Locate | src/acoplamiento.py:270-282 | the located cell holds x, is the leftmost such cell, and x is at fraction t in [0, 1] of it |
| Interp.LocateNode | src/acoplamiento.py:270-282 | at a node, the located cell's interpolant is that node's value |
| Interp.LinearMatchesCell | src/acoplamiento.py:135 | inside the grid, np.interp and the grid interpolator's cell search compute the same value |
| Interp.ScanReaches | src/fluido.py:99 | the segment scan ends in the cell holding x |
| Interp.LinearAtNode | src/fluido.py:99 | np.interp at a data node returns the data value there |
| Interp.InterpolateOntoSelf | src/acoplamiento.py:129-139 | interpolating onto the data's own nodes is the identity |
| Interp.CornerWeights | src/acoplamiento.py:270-282 | the four corner weights equal one interpolation in y of two interpolations in x |
| Interp.BilinearWithin | src/acoplamiento.py:270-291 | the bilinear value never leaves the band of the grid values |
| Interp.BilinearAtNode | src/acoplamiento.py:270-282 | at a grid node, the bilinear lookup returns the node value |
| Interp.BilinearOnLastColumn | src/acoplamiento.py:270-282 | on the top grid line, the bilinear lookup is np.interp along that line |
| Stencil.InteriorConvex | src/placa.py:201-208 | with non-negative Fourier numbers summing to at most 1/2, an interior node stays within the band of its neighbours |
| Stencil.FaceConvex | src/placa.py:214-241 | a convective face node stays within the band of its neighbours and the medium when 2Fo_a + 2Fo_b(1 + Bi) <= 1 |
| Stencil.InteriorUniform | src/placa.py:201-208 | a node among equal neighbours does not move |
| Stencil.FaceUniform | src/placa.py:214-241 | a face node in equilibrium with its neighbours and the medium does not move |
| Stencil.FaceExchange | src/placa.py:214-241 | the face update is the adiabatic update minus 2 Fo Bi (T - T_medium) |
| Stencil.FaceExchangeSign | src/placa.py:214-241 | the exchange lowers the face node below the adiabatic update exactly when the node is hotter than the medium |
| Stencil.PullBetween | src/aletas.py:134-138 | with 0 <= Fo_r <= 1/2, the axis node moves towards its first ring without overshooting it |
| Stencil.RadialConvex | src/aletas.py:218-235 | off the axis, a polar node stays within the band of its neighbours when 2Fo_r + 2Fo_theta <= 1 |
| Stencil.RadialUniform | src/aletas.py:218-235 | a polar node among equal neighbours does not move |
| Stencil.PullUniform | src/aletas.py:134-138 | the axis node does not move when its ring has its value |
| Fluid.Init | src/fluido.py:26-70 | the initial profile is T_inlet at node 0 and T_initial elsewhere; it is a range error unless both are strictly inside (200, 400) K |
| Fluid.SurfaceOnFluid | src/fluido.py:176-183 | the plate surface is used as it is when its length matches the channel, and is interpolated onto the fluid nodes otherwise |
| Fluid.Advance | src/fluido.py:188-204 | inlet fixed at T_inlet, each interior node the upwind update of its upstream neighbour, the outlet a copy of its neighbour |
| Fluid.RangeChecked | src/fluido.py:214-218 | passes a profile unchanged exactly when it lies strictly inside (200, 400) K |
| Fluid.Step | src/fluido.py:110-220 | a wrong-length profile is a shape error; CFL >= 1 is an instability; success means CFL < 1, the inlet and outlet conditions, the physical range, and the upwind update of the profile |
| Fluid.UpwindConvex | src/fluido.py:194-196 | with CFL + gamma dt <= 1, the upwind node stays within the band of its upstream neighbour, itself and the wall |
| Fluid.AdvanceWithin | src/fluido.py:188-204 | under that condition, the whole update stays within any band holding the old profile, the wall and the inlet |
| Fluid.StepUnfolds | src/fluido.py:163-218 | a well-shaped, CFL-stable step is the range check of the explicit update |
| Fluid.StepSucceeds | src/fluido.py:214-218 | a stable step whose update is in range returns that update |
| Fluid.AdvanceFixedPoint | src/fluido.py:188-204 | a channel and wall at the inlet temperature stay there |
| Fluid.StepFixedPoint | src/fluido.py:110-220 | the equilibrium profile at the inlet temperature is a fixed point of the checked step |
| Fluid.InletIgnoresHistory | src/fluido.py:201 | the inlet node after a step is T_inlet whatever the old profile |
| Fluid.StableStepSucceeds | src/fluido.py:169-218 | when CFL + gamma dt <= 1 and the profile, wall and inlet are in range, the step never fails its checks |
| Plate.Init | src/placa.py:26-66 | the initial plate is uniform at T_initial, and a range error outside (200, 400) K |
| Plate.FluidOnPlate | src/placa.py:69-105 | the fluid profile is copied when it matches the plate grid and interpolated onto it otherwise, failing only on empty or mismatched data |
| Plate.FluidOnPlateWithin | src/placa.py:94-105 | the transferred profile stays within the band of the fluid temperatures |
| Plate.Row | src/placa.py:201-241 | each updated row holds the node update at every y |
| Plate.Advance | src/placa.py:196-252 | interior rows follow the FTCS, water-face and air-face stencils; the x-ends copy their neighbours; a two-row plate stays all zeros |
| Plate.CopyEnds | src/placa.py:249-252 | the lateral edges copy their inner neighbours (both ends copy row 1 on a two-row plate), and interior rows are untouched |
| Plate.Written | src/placa.py:196-241 | the zero-initialised array with every interior row written and the edge rows still zero |
| Plate.RangeChecked2 | src/placa.py:266-270 | passes a field unchanged exactly when it lies strictly inside (200, 400) K |
| Plate.Step | src/placa.py:108-272 | a wrong shape is a shape error; Fo_x + Fo_y >= 1/2 is an instability; success implies stability, at least three columns, the physical range, and the stencil update of the old field |
| Plate.NodeWithin | src/placa.py:201-241 | under the monotonicity condition, every node update stays within a band holding the plate, the water and the air |
| Plate.AdvanceWithin | src/placa.py:196-252 | under that condition, the whole update stays in the band |
| Plate.AdvanceFixedPoint | src/placa.py:196-252 | a plate and water at the ambient temperature stay there |
| Plate.AirFaceSign | src/placa.py:231-241 | convection to the air cools the air face below its adiabatic update |
| Plate.WaterFaceSign | src/placa.py:214-224 | convection to the water cools the wet face below its adiabatic update |
| Plate.NarrowPlateOutOfRange | src/placa.py:196-270 | a plate two nodes wide is never written and so always fails its range check |
| Plate.StepFixedPoint | src/placa.py:108-272 | the uniform plate at the ambient temperature is a fixed point of the checked step |
| Plate.StepAdvances | src/placa.py:174-270 | a well-shaped, stable step is the range check of the explicit update |
| Plate.StableStepSucceeds | src/placa.py:180-270 | under the monotonicity condition, with every input in range, the step never fails its checks |
| Fins.Angular | src/aletas.py:207-215 | the angular Fourier number at radius r is non-negative with Fo_theta |
| Fins.AngularSign | src/aletas.py:207-215 | dividing Fo_theta by a squared non-zero length keeps its sign |
| Fins.AngularLargestInside | src/aletas.py:455-469 | the angular number is largest on the innermost ring, which is why the stability check looks there |
| Fins.Init | src/aletas.py:35-92 | a fin index outside 0..2 is an argument error; a fin starts uniform at T_initial on its (Ntheta, Nr) grid |
| Fins.CentreValues | src/aletas.py:134-138 | each axis node is pulled towards its own row's first ring with factor 2 Fo_r |
| Fins.Centre | src/aletas.py:95-147 | the axis update fails on a shape mismatch, on Fo_r outside (0, 1), or on a value outside [200, 500] K, and otherwise returns the pulled values |
| Fins.InteriorFill | src/aletas.py:218-248 | interior nodes follow the polar FTCS stencil; boundary rows and rings keep their old values |
| Fins.InteriorUpdate | src/aletas.py:150-250 | the interior update fails on a wrong shape, a non-positive step or a non-positive inner radius, and otherwise is the polar stencil |
| Fins.SetColumn | src/aletas.py:144 | writing one ring changes that ring only |
| Fins.SurfaceFill | src/aletas.py:328-345 | only the rim nodes of the interior rows change, to their convective update |
| Fins.SurfaceUpdate | src/aletas.py:253-350 | the rim update succeeds exactly for well-shaped fields with the rim at radius R, and is then the convective update |
| Fins.ThetaEdges | src/aletas.py:353-396 | the angular edge rows copy their inner neighbours and every other row is kept |
| Fins.Staged | src/aletas.py:472-498 | the staged update equals the composed stages, stays in [200, 500] K and changes no node by 50 K or more |
| Fins.StagedSucceeds | src/aletas.py:472-498 | the stages succeed exactly under their own shape, sign and range conditions |
| Fins.Step | src/aletas.py:399-498 | wrong shape and out-of-range input are rejected; success implies stability on the first ring and the range and change bounds, and is the staged update |
| Fins.SourceRow | src/aletas.py:387-390 | the row a node's value comes from after the angular copy |
| Fins.StagesMatchReference | src/aletas.py:472-484 | the composed stages compute, node by node, an independent reference formula |
| Fins.CentreBetween | src/aletas.py:134-144 | the axis update lies between the old axis value and its first ring |
| Fins.ReferenceNodeUniform | src/aletas.py:472-484 | every reference node of a fin uniform at the ambient temperature keeps that temperature |
| Fins.StagesFixedPoint | src/aletas.py:472-484 | a fin uniform at the ambient temperature is a fixed point of the stages |
| Fins.ReferenceFieldUniform | src/aletas.py:472-484 | a field built from uniform reference nodes is the uniform field |
| Fins.StagedFixedPoint | src/aletas.py:472-498 | the checked staged update keeps the ambient-temperature fin |
| Fins.StagedKeeps | src/aletas.py:472-498 | any in-range fixed point of the stages passes every check unchanged |
| Fins.StepFixedPoint | src/aletas.py:399-498 | a stable fin step keeps the ambient-temperature fin |
| Fins.OuterRing | src/aletas.py:222 | ring j >= 1 lies at least one spacing from the axis |
| Fins.OuterRingOf | src/aletas.py:222 | on an evenly spaced fin grid, every ring off the axis is at radius at least dr |
| Fins.InteriorNodeWithin | src/aletas.py:218-235 | under the fin stability condition, an interior node stays in the band of the old field |
| Fins.PolarNodeWithin | src/aletas.py:218-235 | the polar stencil at any radius at least dr stays in the band of its neighbours |
| Fins.ReferenceNodeWithin | src/aletas.py:472-484 | every reference node stays in a band holding the old fin and the air |
| Fins.StagesWithin | src/aletas.py:472-484 | the whole staged update stays in a band holding the old fin and the air |
| Fins.StagesPassChecks | src/aletas.py:486-496 | within a band of [200, 500] K narrower than 50 K, the staged field passes the output range check and moves no node by 50 K |
| Fins.CentreWithin | src/aletas.py:134-148 | the axis values stay within any band holding the old fin |
| Fins.StableStepSucceeds | src/aletas.py:399-498 | under Monotone numbers, with the old fin and the air in a band of [200, 500] K narrower than 50 K, the fin step never fails |
| Coupling.Surface | src/acoplamiento.py:25-80 | the wet-face column of the plate, a shape error on a wrong shape, a range error unless strictly inside (200, 500) K |
| Coupling.ExtremesWithin | src/acoplamiento.py:146-149 | a band holding every value holds the minimum and the maximum |
| Coupling.ForFluid | src/acoplamiento.py:83-151 | the surface is copied when the grids coincide and np.interp'd onto the fluid nodes otherwise, and it stays within its own extremes, so the +-1 K check cannot fail |
| Coupling.TransferredWithin | src/acoplamiento.py:129-149 | both transfer branches stay within the surface's extremes and have the target length |
| Coupling.SurfaceReachesFluidUnchanged | src/acoplamiento.py:129-131 | on coinciding grids, the fluid sees the plate surface exactly |
| Coupling.MapToPlate | src/acoplamiento.py:154-207 | each fin node on an edge maps to a point at distance r from the centre, on the right at theta = 0 and on the left at theta = pi, at the plate top |
| Coupling.Along | src/acoplamiento.py:198-200 | x = x_k + r cos(theta) lies at distance r from x_k on the edge's side |
| Coupling.MapMirror | src/acoplamiento.py:198-200 | the two edges are mirror images about the fin centre |
| Coupling.MapInside | src/acoplamiento.py:189-200 | a fin placed at least R from both plate ends maps inside the plate |
| Coupling.BilinearAll | src/acoplamiento.py:270-282 | the interpolator evaluated at every query point |
| Coupling.Lookup | src/acoplamiento.py:210-293 | mismatched queries are a shape error and points off the grid an out-of-bounds error; success yields the bilinear value at each point, within the plate's extremes |
| Coupling.RangeChecked | src/acoplamiento.py:288-291 | the +-1 K sanity check passes any values inside the field's extremes unchanged |
| Coupling.LookupWithin | src/acoplamiento.py:270-291 | interpolated values stay within the field's minimum and maximum |
| Coupling.LookupAtNode | src/acoplamiento.py:210-293 | a lookup at a plate node returns that node's temperature |
| Coupling.LookupSingle | src/acoplamiento.py:210-293 | a one-point lookup returns the bilinear value at that point |
| Coupling.OneLookupValue | src/acoplamiento.py:270-282 | the single value of a one-point lookup is the bilinear value |
| Coupling.OneLookupSeq | src/acoplamiento.py:270-282 | the one-point result is the one-element sequence of that value |
| Coupling.NodeInDomain | src/acoplamiento.py:255-262 | every node of an increasing grid lies within the grid's bounds |
| Coupling.LookupOnTopFace | src/acoplamiento.py:382-411 | on the top face, the lookup is np.interp along the plate's air-side row |
| Coupling.TopFaceValues | src/acoplamiento.py:270-282 | top-face bilinear values are np.interp along the top row |
| Coupling.TopFaceValue | src/acoplamiento.py:270-282 | a single top-face bilinear value is np.interp along the top row |
| Coupling.EdgeValues | src/acoplamiento.py:374-411 | a fin edge's plate temperatures have one value per ring and lie within the plate's extremes |
| Coupling.AllEdges | src/acoplamiento.py:367-415 | both edges of each of the three fins |
| Coupling.CoupleFin | src/acoplamiento.py:392-414 | the theta = 0 row becomes the right edge values, the theta = pi row the left ones, and every other row is kept |
| Coupling.CoupleFrom | src/acoplamiento.py:364-415 | coupling fins from k on succeeds exactly when each fin's coupling does, fin by fin |
| Coupling.CoupleWith | src/acoplamiento.py:364-429 | all fins coupled exactly when each can be, then checked strictly inside (200, 500) K |
| Coupling.CoupledFrom | src/acoplamiento.py:364-415 | the list built from fin 0 holds each fin's own coupling |
| Coupling.Couple | src/acoplamiento.py:296-429 | anything but three fins is a shape error, and three fins are coupled to their edges |
| Coupling.InRange | src/acoplamiento.py:417-427 | the output check passes the fins unchanged exactly when each lies strictly inside (200, 500) K |
| Coupling.FinsInBand | src/acoplamiento.py:424-427 | fins passing the min/max check lie strictly in the band node by node |
| Coupling.MeshesPlaced | src/acoplamiento.py:189-195 | meshes whose fins sit at least R from the plate ends meet the coupling's domain requirements |
| Coupling.DefaultsPlaced | src/acoplamiento.py:189-195 | the default meshes meet those requirements |
| Coupling.EdgeValuesOk | src/acoplamiento.py:382-411 | on placed meshes, edge interpolation never fails |
| Coupling.CoupledFinInRange | src/acoplamiento.py:392-427 | a fin in range, with edge values in range, couples and passes the output check |
| Coupling.EdgesInBand | src/acoplamiento.py:417-427 | values within a plate that is in range are themselves in range |
| Coupling.CoupleSucceeds | src/acoplamiento.py:296-429 | on placed meshes, with the plate and fins in range, coupling always succeeds |
| Coupling.UniformFins | src/acoplamiento.py:364 | three fins uniform at one temperature |
| Coupling.UniformEdge | src/acoplamiento.py:270-291 | values within a uniform field are that field's value |
| Coupling.CoupledUniformFin | src/acoplamiento.py:392-414 | coupling a uniform fin to uniform edges at its temperature changes nothing |
| Coupling.UniformEdges | src/acoplamiento.py:382-411 | a uniform plate yields uniform edge values |
| Coupling.UniformInRange | src/acoplamiento.py:417-427 | a uniform fin strictly inside (200, 500) K passes the output check |
| Coupling.CoupleWithKeeps | src/acoplamiento.py:364-429 | fins that each coupling keeps, and that are in range, come back unchanged |
| Coupling.CoupleUniform | src/acoplamiento.py:296-429 | a uniform plate and uniform fins at the same temperature are a fixed point of the coupling |
| Coupling.MaxDeviation | src/acoplamiento.py:493-494 | the largest absolute difference between two profiles, attained at some node |
| Coupling.FinError | src/acoplamiento.py:469-495 | a fin's continuity error is non-negative, and zero exactly when both edge rows equal the plate values |
| Coupling.DeviationZero | src/acoplamiento.py:493-495 | the maximum deviation is zero exactly when the profiles are equal |
| Coupling.ContinuityWith | src/acoplamiento.py:436-509 | the diagnosis lists each fin's error, its maximum bounds every entry and is one of them, the mean is the sum of the three errors over three and lies between zero and the maximum, and it passes exactly when the maximum is below the tolerance |
| Coupling.Summarize | src/acoplamiento.py:499-509 | the maximum is one of the three errors and bounds them all, the mean is (e0 + e1 + e2)/3 and lies below the maximum, and the verdict is max < tolerance |
| Coupling.Continuity | src/acoplamiento.py:436-509 | a diagnosis has three fin errors, their mean as (e0 + e1 + e2)/3 at most their maximum, and passes exactly when the maximum is below the tolerance; the edge points are placed inline with no check on the radius sign, and wherever the coupling's edges all exist the check reads exactly those edges |
| Coupling.Place | src/acoplamiento.py:479-490 | every edge point sits at height e_base and at distance abs(r) from the fin centre, whatever the sign of r |
| Coupling.CheckedEdgeValues | src/acoplamiento.py:472-490 | the check's edge temperatures have one value per ring within the plate's extremes, and equal the coupling's edge values wherever the mapping succeeds |
| Coupling.CheckedEdgesAgree | src/acoplamiento.py:382-411 | when every edge of the coupling maps and looks up, the continuity check's edges are the coupling's edges |
| Coupling.CoupledEdgesMapped | src/acoplamiento.py:382-429 | a coupling that succeeds has mapped and looked up both edges of all three fins |
| Coupling.ContinuousAfterCoupling | src/acoplamiento.py:392-414 | after coupling, every fin's continuity error is exactly zero and the diagnosis passes any positive tolerance |
| Coupling.CoupledFinZero | src/acoplamiento.py:392-414 | each coupled fin has continuity error zero against the edges it was coupled to |
| Coupling.CoupledFinExact | src/acoplamiento.py:392-414 | one coupled fin matches its edges exactly |
| Coupling.CouplingIsContinuous | src/acoplamiento.py:296-509 | the continuity diagnostic of the coupled fins against the same plate reports zero error |
| Solver.FinLimitStep | src/solucionador.py:61-70 | the fin step limit is positive, puts the first-ring fin number at exactly 0.4 after the 0.8 safety factor, and any shorter step stays at or below it |
| Solver.FinTimeStep | src/solucionador.py:38-80 | a zero diffusivity is an argument error and a negative one a configuration error; success gives a step below the plate step with first-ring number 0.4, and fails exactly when the plate step is not above it |
| Solver.FinStepStable | src/solucionador.py:38-80 | any sub-step no longer than the fin step keeps the first-ring number at most 0.4, so the fin update's stability check passes |
| Solver.FirstRingIsFinNumber | src/solucionador.py:64-67 | the fin update's first-ring number is the one the step rule limits |
| Solver.Ceil | src/solucionador.py:418 | np.ceil: the least integer at or above x |
| Solver.SubSteps | src/solucionador.py:416-419 | at least two sub-steps whose total is exactly the plate step, each no longer than the fin step, and no more of them than needed |
| Solver.CeilSteps | src/solucionador.py:418-419 | the ceiling count gives sub-steps that tile the plate step and respect the fin limit |
| Solver.Rate | src/solucionador.py:124-127 | a rate of change is non-negative and zero exactly when the value did not change |
| Solver.Rates | src/solucionador.py:124 | pointwise rates of a profile |
| Solver.Rates2 | src/solucionador.py:125-127 | pointwise rates of a field |
| Solver.FieldMax | src/solucionador.py:130-137 | the field's maximum rate bounds every node, and is below eps exactly when every node's rate is |
| Solver.LineMax | src/solucionador.py:130-137 | the profile's maximum rate bounds every node, and is below eps exactly when every node's rate is |
| Solver.Groups | src/solucionador.py:130-134 | the five domain maxima: fluid, plate and three fins |
| Solver.MaxRate | src/solucionador.py:130-134 | the maximum rate is non-negative, bounds the rate of every node of every domain, and is the rate of some node |
| Solver.MaxRateAttained | src/solucionador.py:130-134 | the maximum of the five group maxima is the rate of some node of the fluid, the plate or a fin |
| Solver.FieldMaxAttained | src/solucionador.py:130-134 | a field's maximum rate is the rate of one of its nodes |
| Solver.MaxRateBounds | src/solucionador.py:130-134 | the maximum of the group maxima bounds every node's rate |
| Solver.MaxRateBelow | src/solucionador.py:130-137 | the maximum rate is below eps exactly when every node of every domain changes slower than eps |
| Solver.GroupsMax | src/solucionador.py:130-137 | a maximum is below eps exactly when every group is |
| Solver.Convergence | src/solucionador.py:83-143 | non-positive dt or eps is an argument error; otherwise the recorded rate is the true maximum rate (attained at some node, bounding all), and the step is converged exactly when every node's rate is below eps, equivalently when that maximum is |
| Solver.UnchangedConverges | src/solucionador.py:83-143 | an unchanged state converges with rate zero |
| Solver.TestOf | src/solucionador.py:524 | the loop's convergence test is the convergence function, and it decides exactly by max rate < eps |
| Solver.Initial | src/solucionador.py:400-402 | the initial state is the fluid, plate and fin initial fields; it fails with a range error exactly when T_inlet or T_initial is out of range |
| Solver.SurfaceForFluid | src/solucionador.py:478-484 | the plate surface handed to the fluid has one value per fluid node |
| Solver.FinRound | src/solucionador.py:500-508 | one sub-step couples the fins to the plate and then advances each fin; success keeps every fin in range on its grid |
| Solver.AllInBand | src/solucionador.py:505-508 | three in-range fins form an in-range list |
| Solver.StepInBand | src/solucionador.py:505-508 | an advanced fin is on its grid and in range |
| Solver.FinSubSteps | src/solucionador.py:498-508 | zero sub-steps leave the fins unchanged; otherwise the result has three in-range fins |
| Solver.Advance | src/solucionador.py:478-508 | one time step: fluid from the plate surface, then the plate from the new fluid, then the fin sub-steps against the new plate, each domain in its range |
| Solver.StepOf | src/solucionador.py:466-508 | the step function the loop iterates is the one-step advance |
| Solver.StepOfInBand | src/solucionador.py:486-493 | a successful step leaves the fluid and plate on their grids and in (200, 400) K |
| Solver.IterateNext | src/solucionador.py:466 | iterating one more time applies the step once more |
| Solver.IteratePrefix | src/solucionador.py:466 | if n iterations succeed, every earlier iterate exists |
| Solver.IterateFixed | src/solucionador.py:466 | iterating a fixed point of the step stays there |
| Solver.Equilibrium | src/solucionador.py:400-402 | the state uniform at one temperature in every domain |
| Solver.SurfaceAtRest | src/solucionador.py:478-484 | a uniform plate hands the fluid a uniform surface |
| Solver.FinAtRestStep | src/solucionador.py:505-508 | each fin step keeps a uniform fin at rest |
| Solver.RoundOf | src/solucionador.py:500-508 | a sub-step is the coupling followed by the three fin steps |
| Solver.ThreeFins | src/solucionador.py:505 | a list of three fins is its three elements |
| Solver.RoundFixed | src/solucionador.py:500-508 | fins fixed by coupling and by each fin step are fixed by a sub-step |
| Solver.SubStepFixed | src/solucionador.py:498 | one more sub-step keeps a sub-step fixed point |
| Solver.SubStepsFixed | src/solucionador.py:498 | any number of sub-steps keeps a sub-step fixed point |
| Solver.FinSubStepsAtRest | src/solucionador.py:498-508 | the fin sub-steps keep the uniform fins against a uniform plate |
| Solver.AdvanceAtRest | src/solucionador.py:478-508 | the equilibrium state is a fixed point of the whole time step |
| Solver.IterateAtRest | src/solucionador.py:466-508 | every iterate of the equilibrium state is the equilibrium state |
| Solver.InitialAtRest | src/solucionador.py:400-402 | when inlet and initial temperatures agree, the initial state is the equilibrium |
| Solver.EquilibriumConverges | src/solucionador.py:513-524 | the step from equilibrium succeeds and converges with rate zero |
| Solver.EquilibriumComparable | src/solucionador.py:119-127 | the equilibrium state is shape-compatible with itself |
| Solver.BalanceStampAsWritten | src/solucionador.py:530-537 | every step that is due for a balance raises on the undefined time name, and only those |
| Solver.BalanceStamp | src/solucionador.py:530-537 | a balance record is made exactly when due, stamped with the current step's time |
| Solver.BalanceStampSaved | src/solucionador.py:530-544 | every step that records a balance also saves its state |
| Solver.FirstBalanceFails | src/solucionador.py:530-537 | with balances on, the first step is due, so the loop as written fails there, while the intended record is stamped |
| Solver.Trunc | src/solucionador.py:433 | int() truncation toward zero, for either sign |
| Solver.FinSchedule | src/solucionador.py:416-419 | the sub-step schedule exists exactly when the fin step does, and tiles the plate step with sub-steps no longer than the fin step |
| Solver.Setup | src/solucionador.py:400-433 | setup succeeds exactly when initialisation and the fin step do, and returns the initial state and the schedule |
| Solver.TestedNext | src/solucionador.py:524 | appending the next tested rate keeps the rate history faithful to the iterates |
| Solver.SavedNext | src/solucionador.py:543-544 | appending the next iterate keeps the history of saved states faithful to the iterates |
| Solver.Record | src/solucionador.py:513-544 | recording a step keeps the loop invariant: saved states are iterates, rates are the tested rates, and the converged flag is the verdict |
| Solver.SaveRecord | src/solucionador.py:543-544 | the new iterate is appended at its time exactly when the save is due; no other step enters or leaves the saved history |
| Solver.SavedWhenDueNext | src/solucionador.py:543-544 | saving step n exactly when due extends "exactly the due steps are saved" to the new step |
| Solver.BalanceRecord | src/solucionador.py:530-537 | the current step's time is stamped exactly when a balance is due, no other stamp is added or lost, every stamp is a saved time no later than the current step, the first is the first step's time when balances are on, and there are none otherwise |
| Solver.BalancedWhenDueNext | src/solucionador.py:530-537 | stamping step n exactly when due extends "exactly the due steps carry their time as a balance stamp" to the new step |
| Solver.TimeAtMonotone | src/solucionador.py:467 | a later step has a later or equal time t_actual |
| Solver.RatesNext | src/solucionador.py:524-583 | the loop only continues past rates at or above eps, and the new rate is the last entry |
| Solver.TimeLoop | src/solucionador.py:464-583 | the outcome records the iterates, their rates and the converged flag; exactly the due steps are saved and exactly the due steps carry a balance stamp, the intended step time; a zero save interval and a failing first step are errors; and the loop succeeds whenever every step up to the budget succeeds and is tested, with a non-zero save interval |
| Solver.Stopped | src/solucionador.py:590-602 | the result reports the convergence time exactly when converged, and passes every history through |
| Solver.Finished | src/solucionador.py:575-602 | a loop that stopped, by convergence or step budget, has an outcome that meets its specification |
| Solver.Solve | src/solucionador.py:332-613 | setup errors propagate (initial range errors unchanged); success runs the time loop from the initial state with the fin schedule; and a successful setup whose steps all succeed within the budget, with a non-zero save interval, gives a run |
| Solver.FixedStartStops | src/solucionador.py:524-583 | a run started at a fixed point stops converged after one step, with rate zero at time dt |
| Solver.RunsAtRest | src/solucionador.py:466-529 | from equilibrium, every step within any budget succeeds and its convergence test returns a verdict |
| Solver.SolveAtRest | src/solucionador.py:332-613 | the solver started at equilibrium returns a run, converged after one plate step with rate zero, at time dt |

## Left out

- Energy balance values (`calcular_balance_energetico`): the model records only whether and when a balance is due. As written, the time stamp raises before any value is used; see Findings.
- File output (`guardar_resultados`), the progress file, the `verbose` prints and the `__str__`/`__repr__` text: I/O with no bearing on the computed fields.
- The NaN/Inf assertions: real numbers have no NaN or infinity, so these checks cannot fail in the model.
- Floating-point rounding: every quantity is an exact real. The stability and range comparisons are decided on exact values.
- `np.pi` is the decimal value of the double, and `cos` is evaluated only at 0 and pi, the two angles the coupling uses.
- Derived geometry properties that no update reads (`A_c`, `D_h`, `P_s`, `l_aire`, `A_aire`) are not modelled.
- `src/visualizacion.py` and the scripts are not part of this model.
- `scipy.interpolate.RegularGridInterpolator` is modelled by its linear method on the plate grid. That is the only use the source makes of it.
- `np.interp` is modelled with its clamping at both ends. Its behaviour on non-increasing abscissae is not modelled; every grid here is increasing.
- Solver.FinTimeStep: requires positive spacings. With a zero spacing the source divides by zero; the meshes never produce one.
- Solver.Setup: uses the spacings of fin 0 only, as the source does.
- Solver.TimeLoop: the loop stamps each due balance with the intended time of its step. As written, the stamp reads an unbound name, so a run with balances switched on (the default) fails with UndefinedName at step 0; Solver.BalanceStampAsWritten and Solver.FirstBalanceFails model that behaviour (see Findings).
- Solver.Solve: balance records carry only their time stamp, not the balance dictionary. Like Solver.TimeLoop, it uses the intended stamp, so it returns a run where the source as written raises NameError whenever balances are on.
- Fluid.Step: requires a channel of at least two nodes, positive water properties and a positive spacing. The meshes and the parameter checks guarantee these; the source indexes `[-2]` and divides by them.
- Plate.Step: requires at least two nodes along each axis, positive spacings and a positive conductivity, which the meshes and the parameter checks guarantee.
- Fins.Step: requires each fin mesh to have at least two rings and two rows, positive spacings, a positive radius and a positive conductivity, which the meshes and the parameter checks guarantee.
- Coupling.Lookup: the +-1 K tolerance check is modelled and shown never to fail, because bilinear values stay within the field's extremes.

## Findings

| source | as written | input that shows it | evidently intended | confidence | as-written member | corrected member |
|---|---|---|---|---|---|---|
| src/parametros.py:225-273 | `set_material` replaces the solid's properties but keeps the time step computed for the previous material and does not rerun the stability check | `Parametros("SS").set_material("Al")`: the steel step is kept, and aluminium then has Fo_x + Fo_y > 1/2 | recompute `dt` from the new diffusivity and re-validate, as the constructor does | not executed | Parameters.SetMaterialKeepsStaleTimeStep | Parameters.SwitchMaterialMatchesNew |
| src/solucionador.py:537 | the balance record is stamped with `t`, a name `resolver_sistema` never binds | `resolver_sistema(..., calcular_balance=True)`: step 0 is due (0 % guardar_cada == 0) and raises NameError | stamp it with `t_actual`, the current step's time | not executed | Solver.FirstBalanceFails | Solver.BalanceStamp |
