/** What the sampling loop and the normal loop of every generator append,
    as functions of the surface and the resolutions: the sample parameters,
    the finite-difference tangents and the normals. */
module Sampling {
  import opened Vectors
  import opened Surfaces
  import opened Layout
  import opened Topology

  /** `i / double(n)`: the normalised parameter of step i out of n. */
  function Param(i: int, n: int): real
    requires n > 0
  {
    i as real / n as real
  }

  /** `v / double(V - 1)`, the profile parameter nv. */
  function ParamV(V: int, v: int): real
    requires 2 <= V
  {
    Param(v, V - 1)
  }

  /** `r / double(R)`, the rotation parameter nr. */
  function ParamR(R: int, r: int): real
    requires 1 <= R
  {
    Param(r, R)
  }

  /** The position pushed for vertex (v, r). */
  function Position(S: Surface, V: int, R: int, v: int, r: int): Vec3
    requires ValidResolution(V, R)
  {
    S(ParamV(V, v), ParamR(R, r))
  }

  function PositionCell(S: Surface, V: int, R: int): (nat, nat) -> seq<Vec3>
    requires ValidResolution(V, R)
  {
    (v: nat, r: nat) => [Position(S, V, R, v, r)]
  }

  lemma PositionCellAt(S: Surface, V: int, R: int, v: nat, r: nat)
    requires ValidResolution(V, R)
    ensures PositionCell(S, V, R)(v, r) == [Position(S, V, R, v, r)]
  {
  }

  /** Everything the sampling loop appends. */
  function Positions(S: Surface, V: int, R: int): seq<Vec3>
    requires ValidResolution(V, R)
  {
    Grid(PositionCell(S, V, R), V, R)
  }

  /** tangent_v: the mean of the forward difference `to_next_v` and the
      backward difference `from_prev_v` with step epsilonv = 1 / (V - 1).
      It is the central difference across two steps. */
  function TangentV(S: Surface, V: int, R: int, v: int, r: int): (t: Vec3)
    requires ValidResolution(V, R)
    ensures var nv, nr, ev := ParamV(V, v), ParamR(R, r), Param(1, V - 1);
      t == Div(Sub(S(nv + ev, nr), S(nv - ev, nr)), 2.0)
  {
    var nv, nr, ev := ParamV(V, v), ParamR(R, r), Param(1, V - 1);
    var toNext := Sub(S(nv + ev, nr), S(nv, nr));
    var fromPrev := Sub(S(nv, nr), S(nv - ev, nr));
    Div(Add(toNext, fromPrev), 2.0)
  }

  /** tangent_r: the same scheme along the rotation, step epsilonr = 1 / R. */
  function TangentR(S: Surface, V: int, R: int, v: int, r: int): (t: Vec3)
    requires ValidResolution(V, R)
    ensures var nv, nr, er := ParamV(V, v), ParamR(R, r), Param(1, R);
      t == Div(Sub(S(nv, nr + er), S(nv, nr - er)), 2.0)
  {
    var nv, nr, er := ParamV(V, v), ParamR(R, r), Param(1, R);
    var toNext := Sub(S(nv, nr + er), S(nv, nr));
    var fromPrev := Sub(S(nv, nr), S(nv, nr - er));
    Div(Add(toNext, fromPrev), 2.0)
  }

  /** The normal pushed for vertex (v, r): glm::normalize (a parameter here)
      of cross(tangent_r, tangent_v), in that operand order. */
  function Normal(S: Surface, normalize: Vec3 -> Vec3, V: int, R: int, v: int, r: int): Vec3
    requires ValidResolution(V, R)
  {
    normalize(Cross(TangentR(S, V, R, v, r), TangentV(S, V, R, v, r)))
  }

  function NormalCell(S: Surface, normalize: Vec3 -> Vec3, V: int, R: int): (nat, nat) -> seq<Vec3>
    requires ValidResolution(V, R)
  {
    (v: nat, r: nat) => [Normal(S, normalize, V, R, v, r)]
  }

  lemma NormalCellAt(S: Surface, normalize: Vec3 -> Vec3, V: int, R: int, v: nat, r: nat)
    requires ValidResolution(V, R)
    ensures NormalCell(S, normalize, V, R)(v, r) == [Normal(S, normalize, V, R, v, r)]
  {
  }

  /** Everything the normal loop appends. */
  function Normals(S: Surface, normalize: Vec3 -> Vec3, V: int, R: int): seq<Vec3>
    requires ValidResolution(V, R)
  {
    Grid(NormalCell(S, normalize, V, R), V, R)
  }

  /** Every sample parameter lies in [0, 1] x [0, 1): the profile is sampled
      from end to end, the rotation stops one step short of a full turn. */
  lemma ParamsInRange(V: int, R: int, v: nat, r: nat)
    requires ValidResolution(V, R)
    requires v < V && r < R
    ensures 0.0 <= ParamV(V, v) <= 1.0
    ensures 0.0 <= ParamR(R, r) < 1.0
    ensures v == 0 ==> ParamV(V, v) == 0.0
    ensures v == V - 1 ==> ParamV(V, v) == 1.0
  {
    DivBelow(v as real, (V - 1) as real);
    DivBelow(r as real, R as real);
    if v == V - 1 {
      ParamStep(V - 1, V - 1);
    }
  }

  lemma DivBelow(a: real, b: real)
    requires 0.0 <= a <= b && 0.0 < b
    ensures 0.0 <= a / b <= 1.0
    ensures a < b ==> a / b < 1.0
    ensures a == 0.0 ==> a / b == 0.0
  {
    assert a / b * b == a;
  }

  /** The sampling loop appends V * R positions, and the one VRtoIndex(v, r)
      names is the surface sampled at (v / (V - 1), r / R): the index list
      and the vertex buffer agree on which vertex is which. */
  lemma PositionsLayout(S: Surface, V: int, R: int, v: nat, r: nat)
    requires ValidResolution(V, R)
    requires v < V && r < R
    ensures |Positions(S, V, R)| == V * R
    ensures VRtoIndex(V, R, v, r) == r * V + v
    ensures Positions(S, V, R)[VRtoIndex(V, R, v, r)] == S(ParamV(V, v), ParamR(R, r))
  {
    SmallMod(R, r);
    GridAt(PositionCell(S, V, R), 1, V, R, v, r, 0);
    assert R * V * 1 == V * R;
  }

  /** The normal loop appends V * R normals in the same order. */
  lemma NormalsLayout(S: Surface, normalize: Vec3 -> Vec3, V: int, R: int, v: nat, r: nat)
    requires ValidResolution(V, R)
    requires v < V && r < R
    ensures |Normals(S, normalize, V, R)| == V * R
    ensures VRtoIndex(V, R, v, r) == r * V + v
    ensures Normals(S, normalize, V, R)[VRtoIndex(V, R, v, r)] ==
      normalize(Cross(TangentR(S, V, R, v, r), TangentV(S, V, R, v, r)))
  {
    SmallMod(R, r);
    GridAt(NormalCell(S, normalize, V, R), 1, V, R, v, r, 0);
    assert R * V * 1 == V * R;
  }

  /** The sampling loop appends one position per vertex. */
  lemma PositionsLength(S: Surface, V: int, R: int)
    requires ValidResolution(V, R)
    ensures |Positions(S, V, R)| == V * R
  {
    GridLength(PositionCell(S, V, R), 1, V, R);
    assert R * V * 1 == V * R;
  }

  /** The normal loop appends one normal per vertex. */
  lemma NormalsLength(S: Surface, normalize: Vec3 -> Vec3, V: int, R: int)
    requires ValidResolution(V, R)
    ensures |Normals(S, normalize, V, R)| == V * R
  {
    GridLength(NormalCell(S, normalize, V, R), 1, V, R);
    assert R * V * 1 == V * R;
  }

  /** Inside the profile, tangent_v is the central difference of the two
      neighbouring samples the sampling loop stores. */
  lemma InteriorTangentV(S: Surface, V: int, R: int, v: nat, r: nat)
    requires ValidResolution(V, R)
    requires 0 < v < V - 1
    ensures TangentV(S, V, R, v, r) ==
      Div(Sub(Position(S, V, R, v + 1, r), Position(S, V, R, v - 1, r)), 2.0)
  {
    ParamStep(v, V - 1);
  }

  /** At the two ends of the profile the differences sample the surface
      outside [0, 1]; the generators do not clamp. */
  lemma EndsSampleOutside(V: int, R: int, v: nat)
    requires ValidResolution(V, R)
    requires v == 0 || v == V - 1
    ensures v == 0 ==> ParamV(V, v) - Param(1, V - 1) < 0.0
    ensures v == V - 1 ==> ParamV(V, v) + Param(1, V - 1) > 1.0
  {
    ParamStep(v, V - 1);
  }

  /** (i + 1) / n and (i - 1) / n are one step of 1 / n away from i / n. */
  lemma ParamStep(i: int, n: int)
    requires n > 0
    ensures Param(i, n) + Param(1, n) == Param(i + 1, n)
    ensures Param(i, n) - Param(1, n) == Param(i - 1, n)
    ensures Param(n, n) == 1.0
  {
  }

  /** On a surface that closes up after a full turn, tangent_r at every
      vertex, seam included, is the central difference of the neighbouring
      stored samples (v, r + 1 mod R) and (v, r - 1 mod R): the rotation
      wraps and needs no special case at r = 0 or r = R - 1. */
  lemma WrappedTangentR(S: Surface, V: int, R: int, v: nat, r: nat)
    requires ValidResolution(V, R) && ClosesUp(S)
    requires r < R
    ensures TangentR(S, V, R, v, r) ==
      Div(Sub(Position(S, V, R, v, (r + 1) % R), Position(S, V, R, v, (r + R - 1) % R)), 2.0)
  {
    NextSample(S, V, R, v, r);
    PreviousSample(S, V, R, v, r);
  }

  /** The sample one rotation step ahead, wrapping at r = R - 1. */
  lemma NextSample(S: Surface, V: int, R: int, v: nat, r: nat)
    requires ValidResolution(V, R) && ClosesUp(S)
    requires r < R
    ensures Position(S, V, R, v, (r + 1) % R) == S(ParamV(V, v), ParamR(R, r) + Param(1, R))
  {
    NextMod(R, r);
    if r + 1 < R {
      ParamStep(r, R);
    } else {
      LastStepIsWholeTurn(R);
      SmallMod(R, 0);
      assert SameAfterTurn(S, ParamV(V, v), 0.0);
    }
  }

  /** The sample one rotation step back, wrapping at r = 0. */
  lemma PreviousSample(S: Surface, V: int, R: int, v: nat, r: nat)
    requires ValidResolution(V, R) && ClosesUp(S)
    requires r < R
    ensures Position(S, V, R, v, (r + R - 1) % R) == S(ParamV(V, v), ParamR(R, r) - Param(1, R))
  {
    if r == 0 {
      SmallMod(R, R - 1);
      FirstStepBackIsLastStep(R);
      assert SameAfterTurn(S, ParamV(V, v), ParamR(R, 0) - Param(1, R));
    } else {
      ModShift(R, r - 1);
      SmallMod(R, r - 1);
      ParamStep(r, R);
    }
  }

  /** One step past the last rotation step is a whole turn. */
  lemma LastStepIsWholeTurn(R: int)
    requires 1 <= R
    ensures ParamR(R, R - 1) + Param(1, R) == 0.0 + 1.0
    ensures ParamR(R, 0) == 0.0
  {
    ParamStep(R - 1, R);
  }

  /** One step back from rotation step 0, plus a whole turn, is the last
      rotation step. */
  lemma FirstStepBackIsLastStep(R: int)
    requires 1 <= R
    ensures ParamR(R, 0) - Param(1, R) + 1.0 == ParamR(R, R - 1)
  {
    ParamStep(R - 1, R);
  }
}
