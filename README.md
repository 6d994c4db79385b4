# Parametric mesh generation, modelled in Dafny

This project models the parametric surface-of-revolution mesh generator of
the MarsRoverGame demo: the four generators `GenerateParametricShapeFrom2D`,
`GenerateParametricShapeFrom3D`, `GenerateParametricShape` and
`GenerateParametricShape_2` of `mesh_generation.cpp`. Each generator takes
a surface (a profile curve to revolve about the y axis, or a surface given
directly) and two resolutions, `V` = vertical_segments and
`R` = rotation_segments. It appends three things to caller-owned vectors:

- `positions`: the surface sampled at `(v / (V - 1), r / R)`, r-major;
- `normals`: `normalize(cross(tangent_r, tangent_v))` from averaged finite
  differences, in the same order;
- `indices`: two triangles per quad `(v, r)`, `v < V - 1`, whose vertex
  numbers come from the `VRtoIndex` lambda `(r % R) * V + v`.

The model is organised as follows.

- `Vectors`: glm vector values over exact reals.
- `Surfaces`: the three kinds of `parametric_surface` lambda. These are the
  revolved profile, the six-fold wavy profile and the four/thirty-fold wavy
  profile. Each is written in terms of `glm::rotateY`, with sine and cosine
  passed in as parameters.
- `Layout`: the shape of a nested `for r` / `for v` push loop, `Grid`.
- `Topology`: `VRtoIndex`, the quad indices and the whole index list, with
  its counts, bounds and crack-freedom.
- `Sampling`: the sample parameters, tangents and normals.
- `MeshGeneration`:
  - each caller-owned `std::vector` is a `Buffer` class whose `PushBack`
    appends;
  - the three push loops are methods with loop invariants, proved to append
    exactly `Positions`, `Normals` and `Indices`;
  - the four generators differ only in the surface they pass to those loops.

The generator's intended behaviour goes further than its code in four
places. The model follows the code in each of them:

- A generator is meant to reject `V < 2` and `R < 1` before sampling. The
  code does not reject them, and they do not fail in one way:
  - `% R` is never evaluated with R = 0, because `VRtoIndex` is only called
    inside the loop over `r < R` (mesh_generation.cpp:50);
  - when R <= 0 or V <= 0 no loop body runs, and the call either appends
    nothing or throws `std::length_error` from a `reserve` whose argument is
    negative (`V * R` at :19 and :24, `R * (V - 1) * 6` at :49);
  - V = 1 divides by the floating-point zero `double(V - 1)` (:22, :28,
    :30), so every position is a NaN sample, and no index is appended.

  The model takes `V >= 2`, `R >= 1` and `V * R` fitting in `int` as
  preconditions (`Topology.ValidResolution`). These inputs are not an error
  path of the model; "## Left out" lists them.
- Normals at the two ends of the profile are meant to come from one-sided
  differences. The code uses the same central scheme there and samples the
  surface outside `[0, 1]` (`Sampling.EndsSampleOutside`).
- Normals are meant to be unit length. The model does not claim it:
  `normalize` is a parameter, and at a pinched pole `tangent_r` is the zero
  vector.
- Neighbouring quads around the axis are meant to share exactly one edge for
  every `R`. The code gives that only for `R >= 3`
  (`Topology.NeighboursAroundShareEdge`). With `R = 2` the two quads of a row share all
  four corners, and with `R = 1` every triangle collapses to a segment
  (`Topology.SingleRotationStepDegenerates`).

## Model

| member | source | states |
|---|---|---|
| Vectors.Cross | mesh_generation.cpp:41 | `glm::cross` yields a vector perpendicular to both of its operands |
| Vectors.CrossAntiCommutes | mesh_generation.cpp:41 | swapping the operands of the cross product negates it, so the order `cross(tangent_r, tangent_v)` fixes every normal's orientation |
| Surfaces.Lift | mesh_generation.cpp:15 | `glm::dvec3(parametric_line(t), 0)`: the profile point placed in the z = 0 plane (also :127 and :192); `Surfaces.RevolveFollowsProfile` shows its x and y survive the rotation |
| Surfaces.Revolve | mesh_generation.cpp:13-17 | the `parametric_surface` lambda of GenerateParametricShapeFrom2D: the profile point lifted to z = 0 and rotated `r` turns about the y axis; its properties are `Surfaces.RevolveFollowsProfile` and `Surfaces.RevolveClosesUp` |
| Surfaces.Wavy | mesh_generation.cpp:125-135 | the `parametric_surface` lambdas of GenerateParametricShape (frequencies 6 and 6) and of GenerateParametricShape_2 (4 and 30, :190-200) as surfaces; their properties are `Surfaces.WavyRadiusBounds` and `Surfaces.WavyClosesUp` |
| Surfaces.WavyPoint | mesh_generation.cpp:127-134 | one evaluation of those lambdas: the waved profile point rotated `r` turns |
| Surfaces.Waved | mesh_generation.cpp:129-132 | `p *= s * 0.5` with `s = sin(..)/2 + 1`, then `p.y *= sin(..)/2 + 1`, given the two sine values |
| Surfaces.RotateY | mesh_generation.cpp:16 | `glm::rotateY` keeps the height and, for a genuine angle (cos² + sin² = 1), the distance from the y axis |
| Surfaces.RevolveFollowsProfile | mesh_generation.cpp:13-17 | a point of the revolved surface has the profile point's height and lies at the profile's x distance from the axis |
| Surfaces.RevolveClosesUp | mesh_generation.cpp:13-17 | when sine and cosine repeat after a full turn, the revolved surface at rotation parameter u + 1 equals the surface at u |
| Surfaces.WavyRadiusBounds | mesh_generation.cpp:125-135 | the radial wave `p *= (sin(..)/2 + 1) * 0.5` keeps every point between 1/4 and 3/4 of the profile's distance from the axis (also the surface at :190-200) |
| Surfaces.WavyClosesUp | mesh_generation.cpp:190-200 | with whole wave frequencies (6 and 6 at :129-132, 4 and 30 at :194-197) the wavy surfaces close up after a full turn |
| Surfaces.WholeTurns | mesh_generation.cpp:129-132 | sine and cosine are unchanged by a shift of any whole number of turns, the fact the wave frequencies rely on |
| Layout.Grid | mesh_generation.cpp:20-21 | what a nested `for r < n` / `for v < W` push loop appends: the cells of row 0, then row 1, and so on, each row in v order; its layout is `Layout.GridLength` and `Layout.GridAt` |
| Layout.GridLength | mesh_generation.cpp:20-21 | a `for r < n` / `for v < W` loop that pushes k elements per iteration appends exactly n * W * k elements |
| Layout.GridAt | mesh_generation.cpp:20-21 | element j of iteration (v, r) of such a loop lands at flat position (r * W + v) * k + j |
| Layout.GridPrefix | mesh_generation.cpp:20-21 | later iterations of the outer loop leave what earlier ones appended in place |
| Layout.GridBelow | mesh_generation.cpp:50-51 | if every iteration pushes only values below B, so does the whole loop |
| Topology.VRtoIndex | mesh_generation.cpp:45-48 | `(r % R) * V + v` is a vertex number below V * R for every v < V and every r >= 0, including r = R |
| Topology.VRtoIndexRoundTrip | mesh_generation.cpp:45-48 | reading (index % V, index / V) back off `VRtoIndex(v, r)` gives (v, r mod R) |
| Topology.VertexOfRoundTrip | mesh_generation.cpp:45-48 | every vertex number below V * R is `VRtoIndex` of exactly the step read off it: VRtoIndex is onto |
| Topology.VRtoIndexInjective | mesh_generation.cpp:45-48 | on 0 <= v < V, 0 <= r < R, two vertex numbers are equal if and only if the steps are |
| Topology.SeamIsCyclic | mesh_generation.cpp:45-48 | rotation wraps: `VRtoIndex(v, r + R) == VRtoIndex(v, r)`, in particular `VRtoIndex(v, R) == VRtoIndex(v, 0)` |
| Topology.Quad | mesh_generation.cpp:53-59 | the six indices one iteration pushes, in push order; six of them, each a vertex number below V * R |
| Topology.Indices | mesh_generation.cpp:49-60 | everything the index loop appends, quad by quad in r-major order; its layout is `Topology.IndicesLayout` |
| Topology.IndicesLayout | mesh_generation.cpp:49-60 | the index loop appends R * (V - 1) * 6 indices (the amount reserved) and the six of quad (v, r) sit at 6 * (r * (V - 1) + v) onward, in the order pushed |
| Topology.IndicesAreTriangles | mesh_generation.cpp:49-60 | the index list is exactly the (corrected) reserved size, two triangles per quad, so its length is a multiple of 3 |
| Topology.IndicesInBounds | mesh_generation.cpp:50-60 | every index the loop appends is below V * R, the number of vertices the same call appends |
| Topology.QuadSplitsAlongDiagonal | mesh_generation.cpp:53-59 | for R >= 2 each of the two triangles has three distinct corners, they share exactly the diagonal {(v+1, r), (v, r+1)}, and they run along it in opposite directions |
| Topology.NeighboursAroundShareEdge | mesh_generation.cpp:53-59 | for R >= 3 quads (v, r) and (v, (r+1) mod R), across the seam too, share exactly one edge, traversed in opposite directions by the triangles on either side |
| Topology.NeighboursAlongShareEdge | mesh_generation.cpp:53-59 | for every R >= 1, quads (v, r) and (v+1, r) share exactly one edge, the one at v + 1, traversed in opposite directions |
| Topology.SingleRotationStepDegenerates | mesh_generation.cpp:53-59 | with R = 1 corner (v, r+1) is corner (v, r), and both triangles of each quad collapse to segments |
| Topology.WrapInt | mesh_generation.cpp:49 | 32-bit `int` arithmetic: the result lies in the `int` range, agrees with the true value modulo 2^32, and equals it when that fits |
| Topology.IndexReserveAsWritten | mesh_generation.cpp:49 | the reserve size as written, `R * (V - 1) * 6` in `int`: always in the `int` range, and equal to the true product whenever that fits |
| Topology.IndexReserveOverflows | mesh_generation.cpp:49 | for V = R = 20000 (V * R fits in `int`) the reserve size as written wraps to a negative `int` |
| Topology.IndexReserve | mesh_generation.cpp:49 | the reserve size computed without overflow equals the number of indices appended, a multiple of 6 that fits in size_t |
| Sampling.Param | mesh_generation.cpp:22 | `i / double(n)`: step i of n as a parameter; its range is `Sampling.ParamsInRange` |
| Sampling.ParamV | mesh_generation.cpp:22 | `v / double(V - 1)`, the profile parameter nv of :22 and :28, running from 0 to 1 (`Sampling.ParamsInRange`) |
| Sampling.ParamR | mesh_generation.cpp:22 | `r / double(R)`, the rotation parameter nr of :22 and :29, staying below one turn (`Sampling.ParamsInRange`) |
| Sampling.Position | mesh_generation.cpp:22 | the sample pushed for vertex (v, r): the surface at (v / (V - 1), r / R); stated at its buffer position by `Sampling.PositionsLayout` |
| Sampling.Normal | mesh_generation.cpp:28-41 | the normal pushed for vertex (v, r): `normalize(cross(tangent_r, tangent_v))`; stated at its buffer position by `Sampling.NormalsLayout` |
| Sampling.Positions | mesh_generation.cpp:19-22 | everything the sampling loop appends, vertex by vertex in r-major order; its length is `Sampling.PositionsLength` and its layout `Sampling.PositionsLayout` |
| Sampling.Normals | mesh_generation.cpp:24-43 | everything the normal loop appends, in the same order; its length is `Sampling.NormalsLength` and its layout `Sampling.NormalsLayout` |
| Sampling.TangentV | mesh_generation.cpp:33-35 | `(to_next_v + from_prev_v) / 2` is the central difference `(s(nv + εv, nr) - s(nv - εv, nr)) / 2` |
| Sampling.TangentR | mesh_generation.cpp:37-39 | `(to_next_r + from_prev_r) / 2` is the central difference `(s(nv, nr + εr) - s(nv, nr - εr)) / 2` |
| Sampling.ParamsInRange | mesh_generation.cpp:20-22 | sample parameters lie in [0, 1] x [0, 1); v = 0 and v = V - 1 map to 0 and 1 |
| Sampling.PositionsLayout | mesh_generation.cpp:19-22 | the sampling loop appends V * R positions, and the one at `VRtoIndex(v, r)` = r * V + v is the surface at (v / (V - 1), r / R) |
| Sampling.PositionsLength | mesh_generation.cpp:19-22 | the sampling loop appends exactly V * R positions, the amount reserved |
| Sampling.NormalsLength | mesh_generation.cpp:24-43 | the normal loop appends exactly V * R normals, the amount reserved |
| Sampling.NormalsLayout | mesh_generation.cpp:24-43 | the normal loop appends V * R normals, and the one at `VRtoIndex(v, r)` is `normalize(cross(tangent_r, tangent_v))` for that vertex |
| Sampling.InteriorTangentV | mesh_generation.cpp:33-35 | for 0 < v < V - 1, tangent_v is the central difference of the stored samples (v + 1, r) and (v - 1, r) |
| Sampling.EndsSampleOutside | mesh_generation.cpp:28-34 | at v = 0 and v = V - 1 the differences evaluate the surface below 0 and above 1; nothing clamps |
| Sampling.WrappedTangentR | mesh_generation.cpp:37-39 | on a surface that closes up after a full turn, tangent_r is the central difference of the stored samples at (r + 1) mod R and (r - 1) mod R, seam included |
| Sampling.NextSample | mesh_generation.cpp:37 | on a surface that closes up, the stored sample at rotation step (r + 1) mod R is the surface at nr + epsilonr, also at r = R - 1 |
| Sampling.PreviousSample | mesh_generation.cpp:38 | on a surface that closes up, the stored sample at rotation step (r - 1) mod R is the surface at nr - epsilonr, also at r = 0 |
| MeshGeneration.Buffer.constructor | mesh_generation.cpp:5-7 | a caller-owned vector starts with the caller's contents |
| MeshGeneration.Buffer.PushBack | mesh_generation.cpp:22 | `push_back` appends one element and changes nothing else |
| MeshGeneration.AppendPositions | mesh_generation.cpp:19-22 | the sampling loop appends exactly `Positions(S, V, R)` after the existing contents |
| MeshGeneration.AppendPositionRow | mesh_generation.cpp:21-22 | the inner sampling loop appends the samples of row r, v = 0 .. V - 1 |
| MeshGeneration.EstimateNormal | mesh_generation.cpp:28-41 | the loop body's differences, averages and cross product yield `normalize(cross(TangentR, TangentV))` |
| MeshGeneration.AppendNormals | mesh_generation.cpp:24-43 | the normal loop appends exactly `Normals(S, normalize, V, R)` after the existing contents |
| MeshGeneration.AppendNormalRow | mesh_generation.cpp:26-43 | the inner normal loop appends the normals of row r, v = 0 .. V - 1 |
| MeshGeneration.PushQuad | mesh_generation.cpp:53-59 | the six `push_back`s of one iteration append `Quad(V, R, v, r)` |
| MeshGeneration.AppendIndices | mesh_generation.cpp:49-60 | the index loop appends exactly `Indices(V, R)` after the existing contents |
| MeshGeneration.AppendIndexRow | mesh_generation.cpp:51-60 | the inner index loop appends the quads of row r, v = 0 .. V - 2 |
| MeshGeneration.AppendMesh | mesh_generation.cpp:19-60 | positions, normals and indices each grow by exactly their loop's output; existing elements are unchanged |
| MeshGeneration.MeshIsWellFormed | mesh_generation.cpp:19-60 | one call appends as many normals as positions (V * R), a whole number of triangles (R * (V - 1) * 6 indices, the reserved amount), and only indices of its own positions |
| MeshGeneration.GenerateParametricShapeFrom2D | mesh_generation.cpp:4-61 | appends the samples and normals of the revolved profile and the shared index list |
| MeshGeneration.GenerateParametricShapeFrom3D | mesh_generation.cpp:63-114 | appends the samples and normals of the given surface and the same index list |
| MeshGeneration.GenerateParametricShape | mesh_generation.cpp:116-179 | appends the samples and normals of the six-fold wavy surface and the same index list |
| MeshGeneration.GenerateParametricShape2 | mesh_generation.cpp:181-244 | appends the samples and normals of the four/thirty-fold wavy surface and the same index list: all four variants emit identical indices for equal V and R |

## Left out

- Floating point: positions and normals are exact reals. The rounding of
  `double` arithmetic, and the narrowing of `glm::dvec3` to the stored
  `glm::vec3`, are not modelled.
- `sin` and `cos` are parameters of the model (`Surfaces.Trig`), measured in
  turns. Three facts about them are stated as preconditions, only in the
  lemmas that need them:
  - periodicity (`Surfaces.Periodic`);
  - the unit-circle identity `cos² + sin² = 1` (`Surfaces.OnUnitCircle`);
  - the sine bound `-1 <= sin <= 1` at the radial-wave angle
    (`Surfaces.WavyRadiusBounds`).
- `glm::normalize` is a parameter. Unit-length normals are not claimed:
  normalising the zero vector at a pinched pole yields NaN in the source.
- The concrete profile curves `ParametricHalfCircle` ..
  `ParametricHalfCircle_5` (mesh_generation.cpp:247-345) are demo content.
  Every lemma holds for any curve.
- The buffers do not model capacity. A successful `reserve` changes only
  capacity, not contents. The sizes are modelled as values instead:
  `Topology.IndexReserve`, and `V * R` bounded by `Topology.ValidResolution`.
- The throw from `indices.reserve` is not modelled; the four generator
  methods model the corrected reserve of the Findings row
  (`Topology.IndexReserve`). When `R * (V - 1) * 6` exceeds 2^31 - 1 while
  `V * R` does not (V = R = 20000, or V = 2 and R = 357913942), the source
  throws `std::length_error` there (mesh_generation.cpp:49, :102, :167,
  :232). By then it has appended the positions and normals and no indices.
  For those inputs the model appends the full `Indices(V, R)`.
- Degenerate resolutions are excluded by `Topology.ValidResolution`
  rather than modelled. This leaves out R = 0, where the source returns
  cleanly with nothing appended, and the cases above that throw from
  `reserve` or sample NaN (V = 1).
- Aliasing: every generator requires the positions and normals vectors to
  be distinct objects. Passing the same vector twice, which the source
  would accept, is not modelled.
- Indices are vertex numbers of the call's own vertices. They are not offset
  by what the vertex vectors already held, as in the source. The model's
  `ensures` state exactly that: appended indices are below `V * R`, not
  below the final buffer length. main.cpp clears the vectors before each
  call.
- The conversion of each `int` index to the `GLuint` the index vector
  stores is lossless under `Topology.ValidResolution`, because every index
  is below `V * R <= 2^31 - 1`. It is therefore not modelled separately.
- The four generators repeat the same three loops verbatim. The model writes
  the loops once (`MeshGeneration.AppendMesh`) and passes each generator's
  surface in.
- main.cpp is not part of this model: window, input, OpenGL and rendering
  code. Its calls pass a `uvs` vector that the declared generator signature
  in mesh_generation.h does not have. The model follows the declared
  signature.

## Findings

| source | as written | input that shows it | evidently intended | confidence | as-written member | corrected member |
|---|---|---|---|---|---|---|
| mesh_generation.cpp:49 (also :102, :167, :232) | `indices.reserve(rotation_segments * (vertical_segments - 1) * 6)` evaluates the size in 32-bit `int`. This overflows (undefined behaviour; it wraps on common targets) for resolutions whose V * R vertices all fit in `int`. The negative result, converted to size_t, exceeds `max_size()`, so `reserve` throws `std::length_error`. | V = R = 20000: V * R = 400000000 fits, but R * (V - 1) * 6 = 2399880000 wraps to -1895087296 | reserve exactly the R * (V - 1) * 6 indices the loop pushes, computed in size_t | medium, not executed | Topology.IndexReserveAsWritten, Topology.IndexReserveOverflows | Topology.IndexReserve |
