/** The index/topology part of the generators: the `VRtoIndex` lambda, the
    six indices pushed per quad, and the whole index list a generator
    appends, with the facts that make it a crack-free triangle list. */
module Topology {
  import opened Layout

  /** Largest value of a 32-bit C++ `int`, the type of the resolutions, of
      the loop counters and of every index VRtoIndex computes. */
  const MaxInt: int := 0x7fff_ffff

  /** Resolutions the generators can be called with: V - 1 and R are
      divisors (V >= 2, R >= 1), and every vertex number r * V + v fits in
      an `int` (and so also in the GLuint the index buffer stores). */
  predicate ValidResolution(V: int, R: int)
  {
    2 <= V && 1 <= R && V * R <= MaxInt
  }

  /** The `VRtoIndex` lambda: the vertex at vertical step v of rotation step
      r, where r wraps around modulo R and v does not wrap. Every result is
      the position of one of the V * R vertices the call appends. */
  function VRtoIndex(V: int, R: int, v: int, r: int): (i: nat)
    requires ValidResolution(V, R)
    requires 0 <= v < V && 0 <= r
    ensures i < V * R
  {
    MulBelow(r % R, R, V);
    (r % R) * V + v
  }

  /** Inverse of VRtoIndex: the (vertical, rotation) step of the vertex stored
      at flat position i of the r-major vertex buffers. */
  function VertexOf(V: int, i: nat): (nat, nat)
    requires 2 <= V
  {
    (i % V, i / V)
  }

  /** VRtoIndex and VertexOf are inverse: the flat position of (v, r) names
      vertical step v of rotation step r mod R, and every position below
      V * R is the flat position of the step VertexOf reads off it. */
  lemma VRtoIndexRoundTrip(V: int, R: int, v: nat, r: nat)
    requires ValidResolution(V, R)
    requires v < V
    ensures VertexOf(V, VRtoIndex(V, R, v, r)) == (v, r % R)
  {
    QuotientRemainder(V, r % R, v);
  }

  lemma VertexOfRoundTrip(V: int, R: int, i: nat)
    requires ValidResolution(V, R)
    requires i < V * R
    ensures VertexOf(V, i).1 < R
    ensures VRtoIndex(V, R, VertexOf(V, i).0, VertexOf(V, i).1) == i
  {
    var q, v := i / V, i % V;
    assert i == q * V + v;
    assert R * V == V * R;
    if q >= R {
      MulMono(R, q, V);
    }
    SmallMod(R, q);
  }

  /** q * V + v splits back into quotient q and remainder v. */
  lemma QuotientRemainder(V: int, q: nat, v: int)
    requires 0 <= v < V
    ensures (q * V + v) / V == q && (q * V + v) % V == v
  {
    var x := q * V + v;
    var d := x / V - q;
    assert d * V == v - x % V;
  }

  lemma MulBelow(q: nat, R: int, V: nat)
    requires q < R
    ensures q * V + V <= R * V
  {
    MulMono(q + 1, R, V);
    assert (q + 1) * V == q * V + V;
  }

  /** Rotation steps below R are their own residue. */
  lemma SmallMod(R: int, r: nat)
    requires r < R
    ensures r % R == r
  {
    QuotientRemainder(R, 0, r);
  }

  /** Going once more around does not change the residue. */
  lemma ModShift(R: int, r: nat)
    requires 1 <= R
    ensures (r + R) % R == r % R
  {
    var q := r / R;
    assert r == q * R + r % R;
    assert r + R == (q + 1) * R + r % R;
    QuotientRemainder(R, q + 1, r % R);
  }

  /** The rotation step after r < R, with wrap-around. */
  lemma NextMod(R: int, r: nat)
    requires r < R
    ensures (r + 1) % R == if r + 1 < R then r + 1 else 0
  {
    if r + 1 < R {
      SmallMod(R, r + 1);
    } else {
      ModShift(R, 0);
      SmallMod(R, 0);
    }
  }

  lemma {:induction false} MulMono(a: nat, b: nat, V: nat)
    requires a <= b
    ensures a * V <= b * V
    decreases b - a
  {
    if a < b {
      MulMono(a, b - 1, V);
      assert b * V == (b - 1) * V + V;
    }
  }

  /** The six indices pushed for the quad whose lower-left corner is (v, r):
      triangle (v+1, r), (v, r+1), (v, r) then triangle (v+1, r),
      (v+1, r+1), (v, r+1). */
  function Quad(V: int, R: int, v: nat, r: nat): (q: seq<nat>)
    requires ValidResolution(V, R)
    requires v < V - 1
    ensures |q| == 6
    ensures forall i :: 0 <= i < |q| ==> q[i] < V * R
  {
    [VRtoIndex(V, R, v + 1, r), VRtoIndex(V, R, v, r + 1), VRtoIndex(V, R, v, r),
     VRtoIndex(V, R, v + 1, r), VRtoIndex(V, R, v + 1, r + 1), VRtoIndex(V, R, v, r + 1)]
  }

  /** What iteration (v, r) of the index loop pushes. The loop runs only
      for v < V - 1; other cells are never used. */
  function QuadCell(V: int, R: int): (nat, nat) -> seq<nat>
    requires ValidResolution(V, R)
  {
    (v: nat, r: nat) => if v < V - 1 then Quad(V, R, v, r) else []
  }

  /** Everything the index loop appends: for r in [0, R), for v in [0, V-1),
      the six indices of quad (v, r). */
  function Indices(V: int, R: int): seq<nat>
    requires ValidResolution(V, R)
  {
    Grid(QuadCell(V, R), V - 1, R)
  }

  function TriangleA(V: int, R: int, v: nat, r: nat): seq<nat>
    requires ValidResolution(V, R)
    requires v < V - 1
  {
    Quad(V, R, v, r)[..3]
  }

  function TriangleB(V: int, R: int, v: nat, r: nat): seq<nat>
    requires ValidResolution(V, R)
    requires v < V - 1
  {
    Quad(V, R, v, r)[3..]
  }

  /** The four vertices at the corners of quad (v, r). */
  function Corners(V: int, R: int, v: nat, r: nat): set<nat>
    requires ValidResolution(V, R)
    requires v < V - 1
  {
    {VRtoIndex(V, R, v, r), VRtoIndex(V, R, v + 1, r),
     VRtoIndex(V, R, v, r + 1), VRtoIndex(V, R, v + 1, r + 1)}
  }

  /** The edges of a triangle, each directed along the winding order. */
  function DirectedEdges(tri: seq<nat>): set<(nat, nat)>
    requires |tri| == 3
  {
    {(tri[0], tri[1]), (tri[1], tri[2]), (tri[2], tri[0])}
  }

  /** Iteration (v, r) of the index loop pushes quad (v, r). */
  lemma QuadCellAt(V: int, R: int, v: nat, r: nat)
    requires ValidResolution(V, R)
    requires v < V - 1
    ensures QuadCell(V, R)(v, r) == Quad(V, R, v, r)
  {
  }

  lemma QuadCellWidth(V: int, R: int)
    requires ValidResolution(V, R)
    ensures UniformWidth(QuadCell(V, R), V - 1, R, 6)
  {
  }

  /** The index list has R * (V - 1) * 6 entries, the amount the source
      reserves, and the six indices of quad (v, r) start at 6 * (r * (V - 1) + v). */
  lemma IndicesLayout(V: int, R: int, v: nat, r: nat, j: nat)
    requires ValidResolution(V, R)
    requires v < V - 1 && r < R && j < 6
    ensures |Indices(V, R)| == R * (V - 1) * 6
    ensures Offset(V - 1, 6, v, r, j) == 6 * (r * (V - 1) + v) + j
    ensures Offset(V - 1, 6, v, r, j) < |Indices(V, R)|
    ensures Indices(V, R)[Offset(V - 1, 6, v, r, j)] == Quad(V, R, v, r)[j]
  {
    QuadCellWidth(V, R);
    GridAt(QuadCell(V, R), 6, V - 1, R, v, r, j);
  }

  /** C++ `int` arithmetic on the usual two's-complement targets: the
      mathematical value taken modulo 2^32 into [-2^31, 2^31). (Signed
      overflow is undefined behaviour in C++; wrapping is what the common
      compilers produce.) */
  function WrapInt(x: int): (w: int)
    ensures -MaxInt - 1 <= w <= MaxInt
    ensures (w - x) % 0x1_0000_0000 == 0
    ensures -MaxInt - 1 <= x <= MaxInt ==> w == x
  {
    (x + MaxInt + 1) % 0x1_0000_0000 - (MaxInt + 1)
  }

  /** The argument of `indices.reserve(...)` as written: the product
      rotation_segments * (vertical_segments - 1) * 6 evaluated in `int`. */
  function IndexReserveAsWritten(V: int, R: int): (n: int)
    ensures -MaxInt - 1 <= n <= MaxInt
    ensures -MaxInt - 1 <= R * (V - 1) * 6 <= MaxInt ==> n == R * (V - 1) * 6
  {
    var quads := R * (V - 1);
    WrapInt(WrapInt(quads) * 6)
  }

  /** For resolutions whose V * R vertices all have an `int` index, the
      as-written reserve size still overflows and comes out negative; the
      conversion to size_t then asks for more than any vector can hold. */
  lemma IndexReserveOverflows()
    ensures ValidResolution(20000, 20000)
    ensures IndexReserveAsWritten(20000, 20000) < 0
    ensures 20000 * (20000 - 1) * 6 != IndexReserveAsWritten(20000, 20000)
  {
    assert WrapInt(20000 * 19999) == 399980000;
  }

  /** The reserve size computed without overflow (in size_t): exactly the
      number of indices the loop pushes. */
  function IndexReserve(V: int, R: int): (n: nat)
    requires ValidResolution(V, R)
    ensures n == |Indices(V, R)|
    ensures n % 6 == 0 && n < 0x1_0000_0000_0000_0000
  {
    QuadCellWidth(V, R);
    GridLength(QuadCell(V, R), 6, V - 1, R);
    ReserveFits(V, R);
    R * (V - 1) * 6
  }

  /** There are fewer quads than vertices, so the corrected reserve size,
      six indices per quad, stays far below 2^64. */
  lemma ReserveFits(V: int, R: int)
    requires ValidResolution(V, R)
    ensures 0 <= R * (V - 1) <= MaxInt
    ensures R * (V - 1) * 6 % 6 == 0
    ensures R * (V - 1) * 6 < 0x1_0000_0000_0000_0000
  {
    var quads := R * (V - 1);
    MulMono(0, V - 1, R);
    MulMono(V - 1, V, R);
    assert quads == (V - 1) * R;
    assert V * R == R * V;
    QuotientRemainder(6, quads, 0);
  }

  /** The index list is a whole number of triangles, two per quad, and as
      long as the corrected reserve size. */
  lemma IndicesAreTriangles(V: int, R: int)
    requires ValidResolution(V, R)
    ensures |Indices(V, R)| == IndexReserve(V, R)
    ensures |Indices(V, R)| == 3 * (2 * (R * (V - 1)))
    ensures |Indices(V, R)| % 3 == 0
  {
    var quads := R * (V - 1);
    assert IndexReserve(V, R) == quads * 6;
    QuotientRemainder(3, 2 * quads, 0);
  }

  /** No index refers past the V * R vertices the same call appends. */
  lemma IndicesInBounds(V: int, R: int)
    requires ValidResolution(V, R)
    ensures forall x: nat :: x in Indices(V, R) ==> x < V * R
  {
    GridBelow(QuadCell(V, R), V - 1, R, V * R);
  }

  /** VRtoIndex is one-to-one on the grid 0 <= v < V, 0 <= r < R. */
  lemma VRtoIndexInjective(V: int, R: int, v1: nat, r1: nat, v2: nat, r2: nat)
    requires ValidResolution(V, R)
    requires v1 < V && r1 < R && v2 < V && r2 < R
    ensures VRtoIndex(V, R, v1, r1) == VRtoIndex(V, R, v2, r2) <==> v1 == v2 && r1 == r2
  {
    VRtoIndexRoundTrip(V, R, v1, r1);
    VRtoIndexRoundTrip(V, R, v2, r2);
    SmallMod(R, r1);
    SmallMod(R, r2);
  }

  /** The seam is cyclic: rotation step r + R is rotation step r again, so
      the quads of the last column r = R - 1 close up onto column 0. */
  lemma SeamIsCyclic(V: int, R: int, v: nat, r: nat)
    requires ValidResolution(V, R)
    requires v < V
    ensures VRtoIndex(V, R, v, r + R) == VRtoIndex(V, R, v, r)
    ensures VRtoIndex(V, R, v, R) == VRtoIndex(V, R, v, 0)
  {
    ModShift(R, r);
    ModShift(R, 0);
  }

  /** With at least two rotation steps, each of a quad's triangles has three
      different corners, the two triangles share exactly the diagonal
      {(v+1, r), (v, r+1)}, and they run along it in opposite directions,
      so the quad has one consistent winding. */
  lemma QuadSplitsAlongDiagonal(V: int, R: int, v: nat, r: nat)
    requires ValidResolution(V, R) && 2 <= R
    requires v < V - 1 && r < R
    ensures var a, b := TriangleA(V, R, v, r), TriangleB(V, R, v, r);
      a[0] != a[1] && a[1] != a[2] && a[0] != a[2] &&
      b[0] != b[1] && b[1] != b[2] && b[0] != b[2]
    ensures var a, b := TriangleA(V, R, v, r), TriangleB(V, R, v, r);
      (set x | x in a && x in b) == {VRtoIndex(V, R, v + 1, r), VRtoIndex(V, R, v, r + 1)}
    ensures var d0, d1 := VRtoIndex(V, R, v + 1, r), VRtoIndex(V, R, v, r + 1);
      (d0, d1) in DirectedEdges(TriangleA(V, R, v, r)) &&
      (d1, d0) in DirectedEdges(TriangleB(V, R, v, r))
  {
    NextMod(R, r);
    var r1 := if r + 1 < R then r + 1 else 0;
    SmallMod(R, r1);
    assert VRtoIndex(V, R, v, r + 1) == VRtoIndex(V, R, v, r1);
    assert VRtoIndex(V, R, v + 1, r + 1) == VRtoIndex(V, R, v + 1, r1);
    VRtoIndexInjective(V, R, v, r, v + 1, r);
    VRtoIndexInjective(V, R, v, r, v, r1);
    VRtoIndexInjective(V, R, v, r, v + 1, r1);
    VRtoIndexInjective(V, R, v + 1, r, v, r1);
    VRtoIndexInjective(V, R, v + 1, r, v + 1, r1);
    VRtoIndexInjective(V, R, v, r1, v + 1, r1);
  }

  /** Neighbouring quads around the axis, (v, r) and (v, (r+1) mod R), share
      exactly the edge {(v, r+1), (v+1, r+1)}, also across the seam from
      r = R - 1 to r = 0, and the two triangles on either side run along it
      in opposite directions: no crack and no flipped winding at the seam.
      Needs R >= 3; with R = 2 the two quads of a row share all four corners. */
  lemma NeighboursAroundShareEdge(V: int, R: int, v: nat, r: nat)
    requires ValidResolution(V, R) && 3 <= R
    requires v < V - 1 && r < R
    ensures var r1 := (r + 1) % R;
      r1 < R &&
      Corners(V, R, v, r) * Corners(V, R, v, r1) == {VRtoIndex(V, R, v, r1), VRtoIndex(V, R, v + 1, r1)}
    ensures var r1 := (r + 1) % R;
      var e0, e1 := VRtoIndex(V, R, v, r1), VRtoIndex(V, R, v + 1, r1);
      r1 < R &&
      (e1, e0) in DirectedEdges(TriangleB(V, R, v, r)) &&
      (e0, e1) in DirectedEdges(TriangleA(V, R, v, r1))
  {
    NextMod(R, r);
    var r1 := if r + 1 < R then r + 1 else 0;
    NextMod(R, r1);
    var r2 := if r1 + 1 < R then r1 + 1 else 0;
    assert r2 != r && r1 != r && r2 != r1;
    SmallMod(R, r1);
    SmallMod(R, r2);
    assert VRtoIndex(V, R, v, r + 1) == VRtoIndex(V, R, v, r1);
    assert VRtoIndex(V, R, v + 1, r + 1) == VRtoIndex(V, R, v + 1, r1);
    assert VRtoIndex(V, R, v, r1 + 1) == VRtoIndex(V, R, v, r2);
    assert VRtoIndex(V, R, v + 1, r1 + 1) == VRtoIndex(V, R, v + 1, r2);
    forall v1: nat, v2: nat, s1: nat, s2: nat | v1 < V && v2 < V && s1 < R && s2 < R
      ensures VRtoIndex(V, R, v1, s1) == VRtoIndex(V, R, v2, s2) <==> v1 == v2 && s1 == s2
    {
      VRtoIndexInjective(V, R, v1, s1, v2, s2);
    }
  }

  /** Neighbouring quads along the profile, (v, r) and (v+1, r), share
      exactly the edge {(v+1, r), (v+1, r+1)}, and the triangles on either
      side run along it in opposite directions. */
  lemma NeighboursAlongShareEdge(V: int, R: int, v: nat, r: nat)
    requires ValidResolution(V, R)
    requires v + 2 < V && r < R
    ensures Corners(V, R, v, r) * Corners(V, R, v + 1, r) == {VRtoIndex(V, R, v + 1, r), VRtoIndex(V, R, v + 1, r + 1)}
    ensures var e0, e1 := VRtoIndex(V, R, v + 1, r), VRtoIndex(V, R, v + 1, r + 1);
      (e0, e1) in DirectedEdges(TriangleB(V, R, v, r)) &&
      (e1, e0) in DirectedEdges(TriangleA(V, R, v + 1, r))
  {
    NextMod(R, r);
    var r1 := if r + 1 < R then r + 1 else 0;
    SmallMod(R, r1);
    assert VRtoIndex(V, R, v, r + 1) == VRtoIndex(V, R, v, r1);
    assert VRtoIndex(V, R, v + 1, r + 1) == VRtoIndex(V, R, v + 1, r1);
    assert VRtoIndex(V, R, v + 2, r + 1) == VRtoIndex(V, R, v + 2, r1);
    forall v1: nat, v2: nat, s1: nat, s2: nat | v1 < V && v2 < V && s1 < R && s2 < R
      ensures VRtoIndex(V, R, v1, s1) == VRtoIndex(V, R, v2, s2) <==> v1 == v2 && s1 == s2
    {
      VRtoIndexInjective(V, R, v1, s1, v2, s2);
    }
  }

  /** With a single rotation step the column wraps onto itself: corner
      (v, r+1) is corner (v, r), and both triangles of every quad collapse
      to segments. */
  lemma SingleRotationStepDegenerates(V: int, R: int, v: nat, r: nat)
    requires ValidResolution(V, R) && R == 1
    requires v < V - 1
    ensures TriangleA(V, R, v, r)[1] == TriangleA(V, R, v, r)[2]
    ensures TriangleB(V, R, v, r)[1] == TriangleB(V, R, v, r)[0]
    ensures VRtoIndex(V, R, v, r + 1) == VRtoIndex(V, R, v, r)
  {
  }
}
