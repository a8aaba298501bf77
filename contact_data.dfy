/**
 * The records the contact solver reads and writes: body positions and
 * velocities of an island, the contacts with their manifolds, and the
 * velocity and position constraints the solver builds from them. The
 * collaborators whose code is not part of this model (the rotation of an
 * angle, the inverse of a 2x2 matrix, the world manifold of a contact) are
 * functions passed in with them.
 */
module ContactData {
  import opened Vectors
  import opened Geometry
  import opened ManifoldPoints

  /** A 2x2 matrix by its two columns. */
  datatype Mat22 = Mat22(ex: Vec2, ey: Vec2)

  const ZeroMat22 := Mat22(Zero, Zero)

  /** The position of a body's centre of mass and its angle. */
  datatype Position = Position(c: Vec2, a: real)

  /** The linear and angular velocity of a body. */
  datatype Velocity = Velocity(v: Vec2, w: real)

  datatype ManifoldType = Circles | FaceA | FaceB

  /** A contact manifold: up to two points, a local normal and a local point, whose meaning depends on the type. */
  datatype Manifold = Manifold(point1: PointRecord, point2: PointRecord, localNormal: Vec2, localPoint: Vec2,
                               manifoldType: ManifoldType, pointCount: int)
  {
    /** `points[j]`. */
    function Point(j: int): PointRecord
      requires 0 <= j < 2
    {
      if j == 0 then point1 else point2
    }

    function WithPoint(j: int, p: PointRecord): (r: Manifold)
      requires 0 <= j < 2
      ensures r.Point(j) == p && r.Point(1 - j) == Point(1 - j)
      ensures r.pointCount == pointCount && r.manifoldType == manifoldType
    {
      if j == 0 then this.(point1 := p) else this.(point2 := p)
    }
  }

  /** What the solver reads of a body: its index in the island, its inverse mass and inertia and its local mass centre. */
  datatype Body = Body(islandIndex: int, invMass: real, invI: real, localCenter: Vec2)

  /**
   * What the solver reads of a contact: the mixed friction and restitution,
   * the tangent speed, the radii of the two shapes, the two bodies and the manifold.
   */
  datatype Contact = Contact(friction: real, restitution: real, tangentSpeed: real,
                             radiusA: real, radiusB: real, bodyA: Body, bodyB: Body, manifold: Manifold)

  /** The time step data the solver reads. */
  datatype TimeStep = TimeStep(dtRatio: real, warmStarting: bool)

  /** The world normal and the two world contact points of a manifold. */
  datatype WorldManifold = WorldManifold(normal: Vec2, point1: Vec2, point2: Vec2)
  {
    function Point(j: int): Vec2
      requires 0 <= j < 2
    {
      if j == 0 then point1 else point2
    }
  }

  /**
   * The operations of collaborators whose code is not part of this model:
   * the rotation of an angle (sine and cosine), the inverse of a 2x2 matrix,
   * the world manifold of a manifold between two placed shapes, and the square root.
   */
  datatype Externals = Externals(
    rotation: real -> Rot,
    invert: Mat22 -> Mat22,
    worldManifold: (Manifold, Transform, real, Transform, real) -> WorldManifold,
    sqrt: real -> real)

  /** The point of a velocity constraint: anchors, accumulated impulses, effective masses and bias. */
  datatype VelocityPoint = VelocityPoint(rA: Vec2, rB: Vec2, normalImpulse: real, tangentImpulse: real,
                                         normalMass: real, tangentMass: real, velocityBias: real)

  const BlankVelocityPoint := VelocityPoint(Zero, Zero, 0.0, 0.0, 0.0, 0.0, 0.0)

  datatype VelocityConstraint = VelocityConstraint(
    point1: VelocityPoint, point2: VelocityPoint, normal: Vec2, normalMass: Mat22, K: Mat22,
    indexA: int, indexB: int, invMassA: real, invMassB: real, invIA: real, invIB: real,
    friction: real, restitution: real, tangentSpeed: real, pointCount: int, contactIndex: int)
  {
    /** `points[j]`. */
    function Point(j: int): VelocityPoint
      requires 0 <= j < 2
    {
      if j == 0 then point1 else point2
    }

    function WithPoint(j: int, p: VelocityPoint): (r: VelocityConstraint)
      requires 0 <= j < 2
      ensures r.Point(j) == p && r.Point(1 - j) == Point(1 - j)
      ensures r.(point1 := point1, point2 := point2) == this
    {
      if j == 0 then this.(point1 := p) else this.(point2 := p)
    }
  }

  const BlankVelocityConstraint := VelocityConstraint(
    BlankVelocityPoint, BlankVelocityPoint, Zero, ZeroMat22, ZeroMat22,
    0, 0, 0.0, 0.0, 0.0, 0.0, 0.0, 0.0, 0.0, 0, 0)

  /**
   * A position constraint. The type of a fresh constraint is unset in the
   * engine; here it starts as `Circles` and is overwritten before use.
   */
  datatype PositionConstraint = PositionConstraint(
    localPoint1: Vec2, localPoint2: Vec2, localNormal: Vec2, localPoint: Vec2,
    indexA: int, indexB: int, invMassA: real, invMassB: real,
    localCenterA: Vec2, localCenterB: Vec2, invIA: real, invIB: real,
    manifoldType: ManifoldType, radiusA: real, radiusB: real, pointCount: int)
  {
    /** `localPoints[j]`. */
    function LocalPoint(j: int): Vec2
      requires 0 <= j < 2
    {
      if j == 0 then localPoint1 else localPoint2
    }

    function WithLocalPoint(j: int, p: Vec2): (r: PositionConstraint)
      requires 0 <= j < 2
      ensures r.LocalPoint(j) == p && r.LocalPoint(1 - j) == LocalPoint(1 - j)
      ensures r.(localPoint1 := localPoint1, localPoint2 := localPoint2) == this
    {
      if j == 0 then this.(localPoint1 := p) else this.(localPoint2 := p)
    }
  }

  const BlankPositionConstraint := PositionConstraint(
    Zero, Zero, Zero, Zero, 0, 0, 0.0, 0.0, Zero, Zero, 0.0, 0.0, Circles, 0.0, 0.0, 0)

  /** The two bodies a constraint acts on: their velocities while a constraint is solved. */
  datatype Motion = Motion(vA: Vec2, wA: real, vB: Vec2, wB: real)

  /** The two bodies a constraint acts on: their positions while a constraint is solved. */
  datatype Placement = Placement(cA: Vec2, aA: real, cB: Vec2, aB: real)

  /**
   * The transform of a body whose mass centre is at `c`, turned by angle
   * `a`, with the mass centre at `localCenter` in the body's frame.
   */
  function BodyTransform(c: Vec2, a: real, localCenter: Vec2, rotation: real -> Rot): (xf: Transform)
    ensures Apply(xf, localCenter) == c
  {
    var q := rotation(a);
    Transform(c.Sub(Rotate(q, localCenter)), q)
  }

  /** Two different bodies, both with an index into arrays of `n` bodies. */
  predicate BodiesFit(indexA: int, indexB: int, n: int)
  {
    0 <= indexA < n && 0 <= indexB < n && indexA != indexB
  }

  /** A velocity constraint the solver can work on for an island of `n` bodies. */
  predicate VelocityFits(vc: VelocityConstraint, n: int)
  {
    BodiesFit(vc.indexA, vc.indexB, n) && 1 <= vc.pointCount <= 2
  }

  /** A position constraint the solver can work on for an island of `n` bodies. */
  predicate PositionFits(pc: PositionConstraint, n: int)
  {
    BodiesFit(pc.indexA, pc.indexB, n) && 0 <= pc.pointCount <= 2
  }
}
