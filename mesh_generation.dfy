/** The four generators of mesh_generation.cpp. Each appends, to three
    caller-owned vectors, the samples of its surface (positions), the
    finite-difference normals and the triangle indices, in three nested
    `for r` / `for v` loops of `push_back`s. The loops are written once and
    shared; the generators differ only in the surface they sample. */
module MeshGeneration {
  import opened Vectors
  import opened Surfaces
  import opened Layout
  import opened Topology
  import opened Sampling

  /** A caller-owned std::vector that the generators only push onto. */
  class Buffer<T> {
    var items: seq<T>

    constructor (init: seq<T>)
      ensures items == init
    {
      items := init;
    }

    method PushBack(x: T)
      modifies this
      ensures items == old(items) + [x]
    {
      items := items + [x];
    }
  }

  /** The sampling loop: for each r, push the samples of row r. */
  method AppendPositions(positions: Buffer<Vec3>, S: Surface, V: int, R: int)
    requires ValidResolution(V, R)
    modifies positions
    ensures positions.items == old(positions.items) + Positions(S, V, R)
  {
    ghost var cell := PositionCell(S, V, R);
    for r := 0 to R
      invariant positions.items == old(positions.items) + Grid(cell, V, r)
    {
      AppendPositionRow(positions, S, V, R, r);
      GridStep(cell, V, r);
      AppendAssociates(old(positions.items), Grid(cell, V, r), RowCells(cell, r, V));
    }
  }

  /** The inner sampling loop: for each v, push the surface at
      (v / (V - 1), r / R). */
  method AppendPositionRow(positions: Buffer<Vec3>, S: Surface, V: int, R: int, r: nat)
    requires ValidResolution(V, R)
    modifies positions
    ensures positions.items == old(positions.items) + RowCells(PositionCell(S, V, R), r, V)
  {
    ghost var cell := PositionCell(S, V, R);
    for v := 0 to V
      invariant positions.items == old(positions.items) + RowCells(cell, r, v)
    {
      positions.PushBack(S(v as real / (V - 1) as real, r as real / R as real));
      RowStep(cell, r, v);
      PositionCellAt(S, V, R, v, r);
    }
  }

  /** The body of the normal loop for vertex (v, r): the forward and
      backward differences along v and along r, their averages tangent_v
      and tangent_r, and normalize(cross(tangent_r, tangent_v)). */
  method EstimateNormal(S: Surface, normalize: Vec3 -> Vec3, V: int, R: int, v: int, r: int) returns (normal: Vec3)
    requires ValidResolution(V, R)
    ensures normal == normalize(Cross(TangentR(S, V, R, v, r), TangentV(S, V, R, v, r)))
  {
    var nv := v as real / (V - 1) as real;
    var nr := r as real / R as real;
    var epsilonv := 1.0 / (V - 1) as real;
    var epsilonr := 1.0 / R as real;

    var toNextV := Sub(S(nv + epsilonv, nr), S(nv, nr));
    var fromPrevV := Sub(S(nv, nr), S(nv - epsilonv, nr));
    var tangentV := Div(Add(toNextV, fromPrevV), 2.0);

    var toNextR := Sub(S(nv, nr + epsilonr), S(nv, nr));
    var fromPrevR := Sub(S(nv, nr), S(nv, nr - epsilonr));
    var tangentR := Div(Add(toNextR, fromPrevR), 2.0);

    normal := normalize(Cross(tangentR, tangentV));
  }

  /** The normal loop: for each r, push the normals of row r. */
  method AppendNormals(normals: Buffer<Vec3>, S: Surface, normalize: Vec3 -> Vec3, V: int, R: int)
    requires ValidResolution(V, R)
    modifies normals
    ensures normals.items == old(normals.items) + Normals(S, normalize, V, R)
  {
    ghost var cell := NormalCell(S, normalize, V, R);
    for r := 0 to R
      invariant normals.items == old(normals.items) + Grid(cell, V, r)
    {
      AppendNormalRow(normals, S, normalize, V, R, r);
      GridStep(cell, V, r);
      AppendAssociates(old(normals.items), Grid(cell, V, r), RowCells(cell, r, V));
    }
  }

  /** The inner normal loop: for each v, push the estimated normal at (v, r). */
  method AppendNormalRow(normals: Buffer<Vec3>, S: Surface, normalize: Vec3 -> Vec3, V: int, R: int, r: nat)
    requires ValidResolution(V, R)
    modifies normals
    ensures normals.items == old(normals.items) + RowCells(NormalCell(S, normalize, V, R), r, V)
  {
    ghost var cell := NormalCell(S, normalize, V, R);
    for v := 0 to V
      invariant normals.items == old(normals.items) + RowCells(cell, r, v)
    {
      var normal := EstimateNormal(S, normalize, V, R, v, r);
      normals.PushBack(normal);
      RowStep(cell, r, v);
      NormalCellAt(S, normalize, V, R, v, r);
    }
  }

  /** The six push_backs of one iteration of the index loop. */
  method PushQuad(indices: Buffer<nat>, V: int, R: int, v: nat, r: nat)
    requires ValidResolution(V, R)
    requires v < V - 1
    modifies indices
    ensures indices.items == old(indices.items) + Quad(V, R, v, r)
  {
    indices.PushBack(VRtoIndex(V, R, v + 1, r));
    indices.PushBack(VRtoIndex(V, R, v, r + 1));
    indices.PushBack(VRtoIndex(V, R, v, r));

    indices.PushBack(VRtoIndex(V, R, v + 1, r));
    indices.PushBack(VRtoIndex(V, R, v + 1, r + 1));
    indices.PushBack(VRtoIndex(V, R, v, r + 1));
  }

  /** The index loop: for each r, push the quads of row r. */
  method AppendIndices(indices: Buffer<nat>, V: int, R: int)
    requires ValidResolution(V, R)
    modifies indices
    ensures indices.items == old(indices.items) + Indices(V, R)
  {
    ghost var cell := QuadCell(V, R);
    for r := 0 to R
      invariant indices.items == old(indices.items) + Grid(cell, V - 1, r)
    {
      AppendIndexRow(indices, V, R, r);
      GridStep(cell, V - 1, r);
      AppendAssociates(old(indices.items), Grid(cell, V - 1, r), RowCells(cell, r, V - 1));
    }
  }

  /** The inner index loop: for each v < V - 1, push the two triangles of
      quad (v, r). */
  method AppendIndexRow(indices: Buffer<nat>, V: int, R: int, r: nat)
    requires ValidResolution(V, R)
    modifies indices
    ensures indices.items == old(indices.items) + RowCells(QuadCell(V, R), r, V - 1)
  {
    ghost var cell := QuadCell(V, R);
    for v := 0 to V - 1
      invariant indices.items == old(indices.items) + RowCells(cell, r, v)
    {
      PushQuad(indices, V, R, v, r);
      RowStep(cell, r, v);
      QuadCellAt(V, R, v, r);
    }
  }

  /** Samples, normals and indices for any surface; the four generators
      below differ only in the surface they pass in. */
  method AppendMesh(positions: Buffer<Vec3>, normals: Buffer<Vec3>, indices: Buffer<nat>,
                    S: Surface, normalize: Vec3 -> Vec3, V: int, R: int)
    requires ValidResolution(V, R)
    requires positions != normals
    modifies positions, normals, indices
    ensures positions.items == old(positions.items) + Positions(S, V, R)
    ensures normals.items == old(normals.items) + Normals(S, normalize, V, R)
    ensures indices.items == old(indices.items) + Indices(V, R)
  {
    AppendPositions(positions, S, V, R);
    AppendNormals(normals, S, normalize, V, R);
    AppendIndices(indices, V, R);
  }

  /** What one generator call appends is a well-formed indexed triangle
      list: one normal per position, a whole number of triangles, and every
      index naming one of the positions the same call appends. */
  lemma MeshIsWellFormed(S: Surface, normalize: Vec3 -> Vec3, V: int, R: int)
    requires ValidResolution(V, R)
    ensures |Positions(S, V, R)| == |Normals(S, normalize, V, R)| == V * R
    ensures |Indices(V, R)| == IndexReserve(V, R) && |Indices(V, R)| % 3 == 0
    ensures forall x: nat :: x in Indices(V, R) ==> x < |Positions(S, V, R)|
  {
    PositionsLength(S, V, R);
    NormalsLength(S, normalize, V, R);
    IndicesInBounds(V, R);
    IndicesAreTriangles(V, R);
  }

  /** GenerateParametricShapeFrom2D: the profile revolved about the y axis. */
  method GenerateParametricShapeFrom2D(positions: Buffer<Vec3>, normals: Buffer<Vec3>, indices: Buffer<nat>,
                                       line: Curve, trig: Trig, normalize: Vec3 -> Vec3, V: int, R: int)
    requires ValidResolution(V, R)
    requires positions != normals
    modifies positions, normals, indices
    ensures positions.items == old(positions.items) + Positions(Revolve(line, trig), V, R)
    ensures normals.items == old(normals.items) + Normals(Revolve(line, trig), normalize, V, R)
    ensures indices.items == old(indices.items) + Indices(V, R)
  {
    AppendMesh(positions, normals, indices, Revolve(line, trig), normalize, V, R);
  }

  /** GenerateParametricShapeFrom3D: the surface as given. */
  method GenerateParametricShapeFrom3D(positions: Buffer<Vec3>, normals: Buffer<Vec3>, indices: Buffer<nat>,
                                       S: Surface, normalize: Vec3 -> Vec3, V: int, R: int)
    requires ValidResolution(V, R)
    requires positions != normals
    modifies positions, normals, indices
    ensures positions.items == old(positions.items) + Positions(S, V, R)
    ensures normals.items == old(normals.items) + Normals(S, normalize, V, R)
    ensures indices.items == old(indices.items) + Indices(V, R)
  {
    AppendMesh(positions, normals, indices, S, normalize, V, R);
  }

  /** GenerateParametricShape: the profile with a six-fold radial and height
      wave, revolved. */
  method GenerateParametricShape(positions: Buffer<Vec3>, normals: Buffer<Vec3>, indices: Buffer<nat>,
                                 line: Curve, trig: Trig, normalize: Vec3 -> Vec3, V: int, R: int)
    requires ValidResolution(V, R)
    requires positions != normals
    modifies positions, normals, indices
    ensures positions.items == old(positions.items) + Positions(Wavy(line, trig, 6, 6), V, R)
    ensures normals.items == old(normals.items) + Normals(Wavy(line, trig, 6, 6), normalize, V, R)
    ensures indices.items == old(indices.items) + Indices(V, R)
  {
    AppendMesh(positions, normals, indices, Wavy(line, trig, 6, 6), normalize, V, R);
  }

  /** GenerateParametricShape_2: a four-fold radial wave and a thirty-fold
      height wave, revolved. */
  method GenerateParametricShape2(positions: Buffer<Vec3>, normals: Buffer<Vec3>, indices: Buffer<nat>,
                                  line: Curve, trig: Trig, normalize: Vec3 -> Vec3, V: int, R: int)
    requires ValidResolution(V, R)
    requires positions != normals
    modifies positions, normals, indices
    ensures positions.items == old(positions.items) + Positions(Wavy(line, trig, 4, 30), V, R)
    ensures normals.items == old(normals.items) + Normals(Wavy(line, trig, 4, 30), normalize, V, R)
    ensures indices.items == old(indices.items) + Indices(V, R)
  {
    AppendMesh(positions, normals, indices, Wavy(line, trig, 4, 30), normalize, V, R);
  }
}
