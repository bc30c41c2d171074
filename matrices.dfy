/** A `Matrix4` held symbolically: the ordered list of the updates made to it
    since its last `setIdentity()`. Each `translate`, `rotate` or `scale` call
    right-multiplies the matrix, so the list `[o1, ..., on]` denotes the
    product `o1 * ... * on`, and a vertex is transformed by `on` first. */
module Matrices {
  import opened Vectors

  datatype Op =
    | T(offset: Vec3)      // translate(x, y, z)
    | Rx(degrees: int)     // rotate(a, 1, 0, 0)
    | Ry(degrees: int)     // rotate(a, 0, 1, 0)
    | Rz(degrees: int)     // rotate(a, 0, 0, 1)
    | S(factors: Vec3)     // scale(x, y, z)

  /** Rotation by the X, then Y, then Z axis, as three successive calls. */
  function Rotations(a: Angles): seq<Op> {
    [Rx(a.x), Ry(a.y), Rz(a.z)]
  }

  /** Rotation about the point `p` rather than the local origin. */
  function PivotRotation(p: Vec3, a: Angles): seq<Op> {
    [T(p)] + Rotations(a) + [T(Neg(p))]
  }

  /** A table of (cosine, sine) per angle in degrees. The points the model
      computes are exact for whatever table is supplied, so no trigonometry
      (and no floating point) enters the proofs. */
  type Trig = int -> (real, real)

  /** Right-handed rotation of `v` about the X, Y or Z axis. */
  function TurnX(a: int, v: Vec3, trig: Trig): Vec3 {
    var (c, s) := trig(a);
    Vec3(v.x, c * v.y - s * v.z, s * v.y + c * v.z)
  }

  function TurnY(a: int, v: Vec3, trig: Trig): Vec3 {
    var (c, s) := trig(a);
    Vec3(c * v.x + s * v.z, v.y, c * v.z - s * v.x)
  }

  function TurnZ(a: int, v: Vec3, trig: Trig): Vec3 {
    var (c, s) := trig(a);
    Vec3(c * v.x - s * v.y, s * v.x + c * v.y, v.z)
  }

  /** The point `Rotations(a)` maps `v` to. */
  function Turn(a: Angles, v: Vec3, trig: Trig): Vec3 {
    TurnX(a.x, TurnY(a.y, TurnZ(a.z, v, trig), trig), trig)
  }

  function ApplyOp(op: Op, v: Vec3, trig: Trig): Vec3 {
    match op
    case T(d) => Add(d, v)
    case Rx(a) => TurnX(a, v, trig)
    case Ry(a) => TurnY(a, v, trig)
    case Rz(a) => TurnZ(a, v, trig)
    case S(f) => Mul(f, v)
  }

  /** The point the product of `ops` maps `v` to. */
  function Apply(ops: seq<Op>, v: Vec3, trig: Trig): Vec3
    decreases |ops|
  {
    if ops == [] then v else ApplyOp(ops[0], Apply(ops[1..], v, trig), trig)
  }

  /** The product of two update lists acts as the first after the second. */
  lemma {:induction false} ApplyAppend(a: seq<Op>, b: seq<Op>, v: Vec3, trig: Trig)
    ensures Apply(a + b, v, trig) == Apply(a, Apply(b, v, trig), trig)
    decreases |a|
  {
    if a != [] {
      assert (a + b)[1..] == a[1..] + b;
      ApplyAppend(a[1..], b, v, trig);
    } else {
      assert a + b == b;
    }
  }

  lemma ApplyRotations(a: Angles, v: Vec3, trig: Trig)
    ensures Apply(Rotations(a), v, trig) == Turn(a, v, trig)
  {
    var z := [Rz(a.z)];
    assert Apply(z, v, trig) == TurnZ(a.z, v, trig) by {
      assert z[1..] == [];
    }
    var yz := [Ry(a.y)] + z;
    assert Apply(yz, v, trig) == TurnY(a.y, TurnZ(a.z, v, trig), trig) by {
      assert yz[1..] == z;
    }
    assert Rotations(a) == [Rx(a.x)] + yz;
    assert Rotations(a)[1..] == yz;
  }

  /** The pivot steps map `w` to `p + R(w - p)`: a rotation centred on `p`. */
  lemma ApplyPivotRotation(p: Vec3, a: Angles, w: Vec3, trig: Trig)
    ensures Apply(PivotRotation(p, a), w, trig) == Add(p, Turn(a, Add(Neg(p), w), trig))
  {
    ApplyAppend([T(p)] + Rotations(a), [T(Neg(p))], w, trig);
    ApplyAppend([T(p)], Rotations(a), Add(Neg(p), w), trig);
    ApplyRotations(a, Add(Neg(p), w), trig);
  }

  /** Rotations are linear: they keep the origin where it is. */
  lemma TurnFixesOrigin(a: Angles, trig: Trig)
    ensures Turn(a, Zero, trig) == Zero
  {
  }

  /** With cos 0 = 1 and sin 0 = 0, a zero rotation is the identity. */
  lemma TurnByNothing(w: Vec3, trig: Trig)
    requires trig(0) == (1.0, 0.0)
    ensures Turn(NoRotation, w, trig) == w
  {
  }

  /** With cos 90 = 0 and sin 90 = 1, a quarter turn about Y takes the X
      axis to the negative Z axis. */
  lemma QuarterTurnAboutY(v: Vec3, trig: Trig)
    requires trig(0) == (1.0, 0.0) && trig(90) == (0.0, 1.0)
    ensures Turn(Angles(0, 90, 0), v, trig) == Vec3(v.z, v.y, -v.x)
  {
  }

  /** Whatever the angles, the pivot steps leave the pivot itself in place. */
  lemma PivotIsFixed(p: Vec3, a: Angles, trig: Trig)
    ensures Apply(PivotRotation(p, a), p, trig) == p
  {
    ApplyPivotRotation(p, a, p, trig);
    assert Add(Neg(p), p) == Zero;
    TurnFixesOrigin(a, trig);
  }
}
