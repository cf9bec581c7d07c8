# FDTD room reverb: a Dafny model of the solver core

`FDS_ReverbAudioProcessor` is a JUCE audio plugin. It runs a finite-difference
time-domain (FDTD) simulation of sound in a box-shaped room:

- **Pressure buffers.** Three flattened pressure buffers hold the next, current and
  previous time level. The pointers `p[0]`, `p[1]` and `p[2]` give each buffer its
  role.
- **Coefficients.** `prepareToPlay` derives eight stencil coefficients from the wall
  reflection coefficient `R`.
- **Stencils.** `calculateScheme` writes every node of the next level from a 7-point
  stencil. Each of the four node classes has its own coefficient pair:
  - interior ("general", `Dg1`/`Dg2`);
  - face (`Di1`/`Di2`);
  - edge (`De1`/`De2`);
  - corner (`Dc1`/`Dc2`).
- **Walls.** On a wall, a neighbour outside the room is replaced by a duplicate of
  the inward neighbour.
- **Sample loop.** For every sample, `processBlock`:
  1. adds the input to `p[1]` and the previous input to `p[2]` at node (3,3,3);
  2. runs the scheme;
  3. rotates the roles with `updateStates`;
  4. reads the output at node (5,7,7) of the new `p[1]`.

The model works on an n×n×n cube (the source fixes n = 10) with `real` values.

| file | module | what it holds |
|---|---|---|
| `grid.dfy` | `Grid` | nodes, buffer flattening `i + j*n + k*n*n`, hop distance |
| `classify.dfy` | `Classify` | sides, the 27 regions, the four node classes |
| `sweep.dfy` | `Sweep` | the loops of `calculateScheme` as a visit order, and exactly-once coverage |
| `coefficients.dfy` | `Coefficients` | the eight coefficients as functions of `R` |
| `scheme.dfy` | `Scheme` | the mirrored stencil, one time step, writing in any order, linearity, finite propagation speed |
| `source_indexing.dfy` | `SourceIndexing` | the source's own index expressions on a general box |
| `processor.dfy` | `Processor` | buffer roles, constructor, `prepareToPlay`, the per-sample protocol, silence and latency |

The stencil is one geometric formula:

- `Scheme.Up` and `Scheme.Down` pick the neighbour along an axis, mirrored on a wall.
- The node's class selects the coefficient pair.
- `Sweep.SourceOrder` reproduces the order in which the source's loops and
  straight-line blocks write the nodes.
- `Scheme.WriteNodes` shows that writing the nodes one by one, in any order covering
  the grid, over any old contents of `p[0]`, yields the same next level.

The code does the following, and the model follows it:

- Each sample also adds the previous input sample to `p[2]` at the injection node.
- `prepareToPlay` does not clear the pressure buffers.
- `R` is hard-coded to 0.95 rather than derived from material constants.
- Nothing rejects grids smaller than 3.

## Model

| member | source | states |
|---|---|---|
| Grid.Flatten | Source/PluginProcessor.cpp:244-247 | on the cube, the position `i + j*Ny + k*Ny*Nz` of every node is a valid index, below N = n³ |
| Grid.FlattenInjective | Source/PluginProcessor.cpp:226-232 | on the cube, two nodes with the same position are the same node |
| Grid.Unflatten | Source/PluginProcessor.cpp:26-29 | every buffer position 0 .. N-1 is the position of some grid node |
| Grid.UnflattenFlatten | Source/PluginProcessor.cpp:244-247 | decoding a node's position gives the node back |
| Classify.ClassOf | Source/PluginProcessor.cpp:238-427 | a node is interior iff all coordinates are strictly inside; face, edge or corner iff exactly one, two or three lie on a wall |
| Sweep.InteriorSweepFacts | Source/PluginProcessor.cpp:238-250 | the triple loop visits (n-2)³ nodes, exactly the interior ones |
| Sweep.FaceSweepFacts | Source/PluginProcessor.cpp:266-313 | the three face loops visit 6(n-2)² nodes, exactly the face nodes |
| Sweep.EdgeSweepFacts | Source/PluginProcessor.cpp:316-384 | the three edge loops visit 12(n-2) nodes, exactly the edge nodes |
| Sweep.CornerSweepFacts | Source/PluginProcessor.cpp:388-427 | the eight corner writes hit the eight corners; the two blocks labelled D are different nodes |
| Sweep.RegionClasses | Source/PluginProcessor.cpp:238-427 | each of the 27 regions is written by the loop of its class and by no other |
| Sweep.SourceOrderCovers | Source/PluginProcessor.cpp:238-427 | the writes of the scheme stay in the grid and reach every node |
| Sweep.SourceOrderWritesEachOnce | Source/PluginProcessor.cpp:238-427 | the scheme makes exactly N writes into p[0], to N pairwise different positions, so every position is written exactly once |
| Coefficients.Derive | Source/PluginProcessor.cpp:123-132 | for R ≠ -3, 5: 8·D1 − D2 = 1 for every class; Dg = (1/4, 1); each boundary pair equals the interior pair iff R = 1 |
| Coefficients.PhysicalReflectionAdmissible | Source/PluginProcessor.cpp:123-132 | every R in [0,1], and the hard-coded 0.95, keeps the denominators R+3 and 5−R non-zero |
| Coefficients.ClassFixesConstants | Source/PluginProcessor.cpp:125-132 | the per-class form of 8·D1 − D2 = 1 |
| Scheme.MirroredNeighbours | Source/PluginProcessor.cpp:270-274 | both neighbours along an axis are in-grid nodes one step away; they coincide (the duplicated inward term) exactly on a wall |
| Scheme.Neighbours | Source/PluginProcessor.cpp:244-247 | the six stencil neighbours are in the grid and one hop from the node |
| Scheme.Step | Source/PluginProcessor.cpp:244-427 | the next level holds at each node D1·(six neighbours + 2·centre) − D2·previous with the pair of the node's class |
| Scheme.WriteNodes | Source/PluginProcessor.cpp:238-427 | writing node by node, in any order that covers the grid, over any old p[0], gives the next level |
| Scheme.CalculateScheme | Source/PluginProcessor.cpp:210-429 | the source's loops leave p[0] equal to the next level, reading only p[1] and p[2] |
| Scheme.NodeUpdateConstant | Source/PluginProcessor.cpp:244-247 | a constant field in p[1] and p[2] is written back unchanged at a node when 8·D1 − D2 = 1 |
| Scheme.StepConstant | Source/PluginProcessor.cpp:244-427 | a constant field in p[1] and p[2] is a fixed point of the scheme for every coefficient set R produces |
| Scheme.StepZero | Source/PluginProcessor.cpp:244-427 | zero p[1] and p[2] give a zero next level, for any coefficients |
| Scheme.StepScale | Source/PluginProcessor.cpp:244-427 | scaling both input levels by a scales the next level by a |
| Scheme.StepAdd | Source/PluginProcessor.cpp:244-427 | the next level of summed inputs is the sum of the next levels (superposition) |
| Scheme.SumOverScale | Source/PluginProcessor.cpp:245-246 | a sum of buffer terms scales with the buffer |
| Scheme.SumOverAdd | Source/PluginProcessor.cpp:245-246 | a sum of buffer terms is additive in the buffer |
| Scheme.NeighboursFar | Source/PluginProcessor.cpp:244-247 | a node more than r+1 hops from a point reads only neighbours more than r hops from it |
| Scheme.FinitePropagation | Source/PluginProcessor.cpp:244-427 | if both input levels vanish beyond r hops of a node, the next level vanishes beyond r+1 hops |
| SourceIndexing.BoxFlatten | Source/PluginProcessor.cpp:226-232 | the source's flattening, which on a cube is Grid.Flatten |
| SourceIndexing.BoxFlattenCollides | Source/PluginProcessor.cpp:226-232 | on a box with Nx > Ny two different nodes share a position, so Nx ≤ Ny is necessary for injectivity |
| SourceIndexing.BoxFlattenCollidesAcross | Source/PluginProcessor.cpp:226-232 | Nx ≤ Ny is not sufficient: on a box with Ny > Nz the node (0, Nz, 0) shares its position with (0, 0, 1) |
| SourceIndexing.BoxFlattenOverruns | Source/PluginProcessor.cpp:226-232 | on a box with Nz > Nx some node maps to a position at or past Nx·Ny·Nz, outside the buffer |
| SourceIndexing.SourceInwardX | Source/PluginProcessor.cpp:379-422 | the x index read for the inward neighbour on the x = Nx-1 wall is Nx-2 iff Nx = Nz or the block is not one of CG, B, F and the second D |
| SourceIndexing.SourceMirrorOnCube | Source/PluginProcessor.cpp:379-422 | on the cube, those x indices are the geometric mirror n-2 the model uses |
| SourceIndexing.MistypedOffCube | Source/PluginProcessor.cpp:379-422 | with Nx ≠ Nz the four mistyped blocks read a node other than the inward neighbour |
| Processor.Construct | Source/PluginProcessor.cpp:26-39 | a 10-cube with three zero buffers, p[i] on buffer i, valid |
| Processor.PrepareWith | Source/PluginProcessor.cpp:111-135 | sets the coefficients Derive(R), zeroes vinPrev and vout, leaves buffers and roles alone |
| Processor.PrepareToPlay | Source/PluginProcessor.cpp:123-134 | at R = 0.95 the coefficients are set and keep constants fixed, De2 = 0.95, the interior pair is (1/4, 1) and every wall pair differs from it; vinPrev = vout = 0; buffers, roles and size are left as they were, so validity is kept |
| Processor.UpdateStates | Source/PluginProcessor.cpp:431-438 | the new p[1] is the old p[0], the new p[2] the old p[1]; the set of buffers is kept and the roles stay distinct |
| Processor.RotationsIdentity | Source/PluginProcessor.cpp:431-438 | with distinct roles, m rotations give the identity iff m is a multiple of 3 |
| Processor.Inject | Source/PluginProcessor.cpp:197-198 | adds the value at node (3,3,3) and changes no other node |
| Processor.Leapfrog | Source/PluginProcessor.cpp:197-205 | the copying reference: new current level and vinPrev = vin, output is the new level at (5,7,7) |
| Processor.ProcessSample | Source/PluginProcessor.cpp:197-205 | one sample keeps the processor valid, rotates roles, agrees with Leapfrog on levels and output, and leaves the injected old p[2] in the new p[0] |
| Processor.ProcessSampleInPlace | Source/PluginProcessor.cpp:197-205 | the node-by-node scheme over the stale p[0] gives the same processor as ProcessSample |
| Processor.Run | Source/PluginProcessor.cpp:180-206 | a stream of samples keeps the processor valid and yields one output per input |
| Processor.ProcessBlock | Source/PluginProcessor.cpp:180-206 | the sample loop computes Run |
| Processor.RunRefinesResponse | Source/PluginProcessor.cpp:197-205 | the rotating-buffer processor and the copying reference agree on levels and outputs for every stream |
| Processor.FreshIsQuiet | Source/PluginProcessor.cpp:33-34 | a constructed and prepared processor has zero p[1], p[2] and vinPrev |
| Processor.SilenceStep | Source/PluginProcessor.cpp:197-205 | a zero sample into a quiet processor outputs 0 and leaves all three buffers zero |
| Processor.SilenceForever | Source/PluginProcessor.cpp:180-206 | a quiet processor fed zeros outputs zeros for ever and stays quiet |
| Processor.LeapfrogSupport | Source/PluginProcessor.cpp:197-205 | one sample widens the non-zero region around (3,3,3) by one hop |
| Processor.ResponseSupport | Source/PluginProcessor.cpp:197-205 | from silent levels, after m samples both levels vanish beyond m hops of (3,3,3) |
| Processor.OutputLatency | Source/PluginProcessor.cpp:197-203 | from silent levels, output m is 0 whenever m+1 is less than the hop distance from (3,3,3) to (5,7,7) |
| Processor.SourceLatency | Source/PluginProcessor.cpp:197-203 | the nodes are 10 hops apart, so a fresh prepared processor outputs 0 for its first nine samples, whatever the input |
| Processor.SourcePositions | Source/PluginProcessor.cpp:197-203 | on the 10-cube, 3+3·Ny+3·Ny·Nz and 5+7·Ny+7·Ny·Nz are the positions of (3,3,3) and (5,7,7), both interior |

## Left out

- JUCE plugin plumbing is not modelled, because it holds no solver logic. This covers bus layouts, programs, state saving, the editor, clearing of unused output channels, and the float sample read and write (`getSample`/`setSample`).
- The per-channel loop of `processBlock` (lines 175-178) is not modelled. The model is one sample stream; in the source all channels share one grid and one `vinPrev`.
- Floating point is not modelled: values are `real`. This leaves out rounding, denormals (`ScopedNoDenormals`), stability and energy decay.
- The physical constants and the commented-out impedance-based `R` (lines 113-121) are not modelled. `R` is a parameter of `Processor.PrepareWith`, and `Processor.PrepareToPlay` fixes it at 0.95.
- Boxes with Nx, Ny, Nz not all equal are not modelled as grids. Only their index arithmetic appears in `SourceIndexing`.
- Commented-out debug, logging and impulse-injection code is not modelled.
- Processor.Construct: the source leaves `vinPrev` and `vout` unset until `prepareToPlay`. The model sets them to 0.0. Only prepared processors are stepped, because `ProcessSample` requires coefficients.
- Processor.ProcessSample: it requires `prepareToPlay` to have run (coefficients present). The source relies on the host to call `prepareToPlay` first and does not check it.
- Processor.Valid: it requires n ≥ 8, so that (3,3,3) and (5,7,7) lie in the grid. The source fixes n = 10.

## Findings

| source | as written | input that shows it | evidently intended | confidence | as-written member | corrected member |
|---|---|---|---|---|---|---|
| Source/PluginProcessor.cpp:379-422 | edge CG and corners B, F and the second D read the x-neighbour at index `Nz-1-1` | a 12×10×10 box: corner B reads x = 8 instead of x = 10 | the inward neighbour `Nx-1-1` | not executed; latent while the grid is the 10-cube | SourceIndexing.MistypedOffCube | Scheme.MirroredNeighbours |
