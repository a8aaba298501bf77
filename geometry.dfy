/**
 * Rotations and rigid transforms as the modelled code writes them out
 * inline: a rotation is the pair (sine, cosine), a transform is a
 * translation followed by a rotation.
 */
module Geometry {
  import opened Vectors

  /** A rotation by the angle whose sine is `s` and cosine is `c`. */
  datatype Rot = Rot(s: real, c: real)
  {
    /** A rotation built from an angle has s^2 + c^2 == 1. */
    predicate IsUnit()
    {
      s * s + c * c == 1.0
    }
  }

  datatype Transform = Transform(p: Vec2, q: Rot)

  /** `q * v`: rotate v by q. */
  function Rotate(q: Rot, v: Vec2): Vec2
  {
    Vec2(q.c * v.x - q.s * v.y, q.s * v.x + q.c * v.y)
  }

  /** `q^T * v`: rotate v by the inverse of q. */
  function RotateInv(q: Rot, v: Vec2): Vec2
  {
    Vec2(q.c * v.x + q.s * v.y, -q.s * v.x + q.c * v.y)
  }

  /** `xf * v`: the world position of the local point v. */
  function Apply(xf: Transform, v: Vec2): Vec2
  {
    Rotate(xf.q, v).Add(xf.p)
  }

  /** `xf^T * v`: the local position of the world point v. */
  function ApplyInv(xf: Transform, v: Vec2): Vec2
  {
    RotateInv(xf.q, v.Sub(xf.p))
  }

  /** The inverse rotation undoes a unit rotation. */
  lemma RotateInvRotate(q: Rot, v: Vec2)
    requires q.IsUnit()
    ensures RotateInv(q, Rotate(q, v)) == v
    ensures Rotate(q, RotateInv(q, v)) == v
  {
    assert RotateInv(q, Rotate(q, v)).x == (q.s * q.s + q.c * q.c) * v.x;
    assert RotateInv(q, Rotate(q, v)).y == (q.s * q.s + q.c * q.c) * v.y;
    assert Rotate(q, RotateInv(q, v)).x == (q.s * q.s + q.c * q.c) * v.x;
    assert Rotate(q, RotateInv(q, v)).y == (q.s * q.s + q.c * q.c) * v.y;
  }

  /** Placing the local coordinates of a world point gives the point back. */
  lemma ApplyApplyInv(xf: Transform, w: Vec2)
    requires xf.q.IsUnit()
    ensures Apply(xf, ApplyInv(xf, w)) == w
  {
    RotateInvRotate(xf.q, w.Sub(xf.p));
  }

  lemma ApplyInvApply(xf: Transform, v: Vec2)
    requires xf.q.IsUnit()
    ensures ApplyInv(xf, Apply(xf, v)) == v
  {
    assert Apply(xf, v).Sub(xf.p) == Rotate(xf.q, v);
    RotateInvRotate(xf.q, v);
  }
}
