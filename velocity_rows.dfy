/**
 * The velocity part of the contact solver, one constraint at a time:
 * seeding a constraint from its contact, the effective masses and the
 * restitution bias, warm starting, the friction rows, the single normal row
 * and the two-point block solver. Every function here takes the velocities
 * of the constraint's two bodies and gives their new velocities.
 */
module VelocityRows {
  import opened Settings
  import opened Vectors
  import opened Geometry
  import MathUtils
  import opened ManifoldPoints
  import opened ContactData

  /** The largest condition number of K for which the two-point block solver is used. */
  const MaxConditionNumber: real := 100.0

  // ---------------------------------------------------------------------
  // Small facts about real products

  lemma SquareNonNegative(x: real)
    ensures x * x >= 0.0
  {
  }

  /** A non-negative factor times a square is non-negative. */
  lemma ScaledSquareNonNegative(i: real, r: real)
    requires i >= 0.0
    ensures i * r * r >= 0.0
  {
    SquareNonNegative(r);
    assert i * r * r == i * (r * r);
  }

  lemma ProductNonNegative(a: real, b: real)
    requires a >= 0.0 && b >= 0.0
    ensures a * b >= 0.0
  {
  }

  lemma InverseOfPositive(k: real)
    requires k > 0.0
    ensures 1.0 / k > 0.0 && (1.0 / k) * k == 1.0
  {
  }

  // ---------------------------------------------------------------------
  // Seeding a constraint from its contact

  /**
   * A point of a constraint as `init` leaves it: the impulses of the
   * manifold point scaled by the time step ratio when warm starting is on,
   * zero otherwise; anchors, masses and bias cleared.
   */
  function SeedPoint(cp: PointRecord, step: TimeStep): VelocityPoint
  {
    if step.warmStarting then
      VelocityPoint(Zero, Zero, step.dtRatio * cp.normalImpulse, step.dtRatio * cp.tangentImpulse, 0.0, 0.0, 0.0)
    else
      VelocityPoint(Zero, Zero, 0.0, 0.0, 0.0, 0.0, 0.0)
  }

  /**
   * The velocity constraint `init` builds for contact number `i` from the
   * constraint object it reuses: the contact's material and body data, the
   * manifold's point count, cleared matrices, and seeded points for the
   * manifold's points. The normal and the points beyond the manifold's
   * count keep what the reused object held.
   */
  function SetUpVelocity(vc: VelocityConstraint, contact: Contact, i: int, step: TimeStep): VelocityConstraint
    requires 1 <= contact.manifold.pointCount <= 2
  {
    SeedPoints(VelocityHeader(vc, contact, i), contact.manifold, step, contact.manifold.pointCount)
  }

  /** The fields of a velocity constraint `init` sets before its points. */
  function VelocityHeader(vc: VelocityConstraint, contact: Contact, i: int): VelocityConstraint
  {
    vc.(friction := contact.friction, restitution := contact.restitution, tangentSpeed := contact.tangentSpeed,
        indexA := contact.bodyA.islandIndex, indexB := contact.bodyB.islandIndex,
        invMassA := contact.bodyA.invMass, invMassB := contact.bodyB.invMass,
        invIA := contact.bodyA.invI, invIB := contact.bodyB.invI,
        contactIndex := i, pointCount := contact.manifold.pointCount, K := ZeroMat22, normalMass := ZeroMat22)
  }

  /** Points `0 .. n-1` of a constraint seeded from the manifold's points. */
  function SeedPoints(vc: VelocityConstraint, m: Manifold, step: TimeStep, n: int): (r: VelocityConstraint)
    requires 0 <= n <= 2
    ensures r.(point1 := vc.point1, point2 := vc.point2) == vc
    decreases n
  {
    if n == 0 then vc
    else SeedPoints(vc, m, step, n - 1).WithPoint(n - 1, SeedPoint(m.Point(n - 1), step))
  }

  /**
   * Warm-start seeding: the new constraint takes the contact's material
   * and body data with cleared matrices; each of its points carries the
   * manifold point's impulses times `dtRatio` when warm starting is on and
   * zero impulses when it is off, with anchors, masses and bias cleared;
   * the other points and the normal are untouched.
   */
  lemma SetUpVelocitySeeds(vc: VelocityConstraint, contact: Contact, i: int, step: TimeStep, j: int)
    requires 1 <= contact.manifold.pointCount <= 2 && 0 <= j < 2
    ensures var r := SetUpVelocity(vc, contact, i, step);
            var cp := contact.manifold.Point(j);
            r.pointCount == contact.manifold.pointCount && r.contactIndex == i &&
            r.friction == contact.friction && r.restitution == contact.restitution &&
            r.tangentSpeed == contact.tangentSpeed &&
            r.indexA == contact.bodyA.islandIndex && r.indexB == contact.bodyB.islandIndex &&
            r.invMassA == contact.bodyA.invMass && r.invMassB == contact.bodyB.invMass &&
            r.invIA == contact.bodyA.invI && r.invIB == contact.bodyB.invI &&
            r.K == ZeroMat22 && r.normalMass == ZeroMat22 && r.normal == vc.normal &&
            (j < r.pointCount && step.warmStarting ==>
               r.Point(j).normalImpulse == step.dtRatio * cp.normalImpulse &&
               r.Point(j).tangentImpulse == step.dtRatio * cp.tangentImpulse) &&
            (j < r.pointCount && !step.warmStarting ==>
               r.Point(j).normalImpulse == 0.0 && r.Point(j).tangentImpulse == 0.0) &&
            (j < r.pointCount ==>
               r.Point(j).rA == Zero && r.Point(j).rB == Zero && r.Point(j).normalMass == 0.0 &&
               r.Point(j).tangentMass == 0.0 && r.Point(j).velocityBias == 0.0) &&
            (j >= r.pointCount ==> r.Point(j) == vc.Point(j))
  {
  }

  /** Impulses stored as non-negative and a non-negative ratio give non-negative seeded normal impulses. */
  lemma SeedPointNonNegative(cp: PointRecord, step: TimeStep)
    requires cp.normalImpulse >= 0.0 && step.dtRatio >= 0.0
    ensures SeedPoint(cp, step).normalImpulse >= 0.0
  {
    if step.warmStarting {
      ProductNonNegative(step.dtRatio, cp.normalImpulse);
    }
  }

  /**
   * The position constraint `init` builds for contact `i` from the object it
   * reuses: body data, radii, the manifold's normal, point and type, and the
   * local points of the manifold's points.
   */
  function SetUpPosition(pc: PositionConstraint, contact: Contact): PositionConstraint
    requires 1 <= contact.manifold.pointCount <= 2
  {
    CopyLocalPoints(PositionHeader(pc, contact), contact.manifold, contact.manifold.pointCount)
  }

  /** The fields of a position constraint `init` sets before its points. */
  function PositionHeader(pc: PositionConstraint, contact: Contact): PositionConstraint
  {
    var m := contact.manifold;
    pc.(indexA := contact.bodyA.islandIndex, indexB := contact.bodyB.islandIndex,
        invMassA := contact.bodyA.invMass, invMassB := contact.bodyB.invMass,
        localCenterA := contact.bodyA.localCenter, localCenterB := contact.bodyB.localCenter,
        invIA := contact.bodyA.invI, invIB := contact.bodyB.invI,
        localNormal := m.localNormal, localPoint := m.localPoint, pointCount := m.pointCount,
        radiusA := contact.radiusA, radiusB := contact.radiusB, manifoldType := m.manifoldType)
  }

  /** The local points `0 .. n-1` of a position constraint copied from the manifold's points. */
  function CopyLocalPoints(pc: PositionConstraint, m: Manifold, n: int): (r: PositionConstraint)
    requires 0 <= n <= 2
    ensures r.(localPoint1 := pc.localPoint1, localPoint2 := pc.localPoint2) == pc
    decreases n
  {
    if n == 0 then pc
    else CopyLocalPoints(pc, m, n - 1).WithLocalPoint(n - 1, m.Point(n - 1).localPoint)
  }

  /**
   * The position constraint of a contact carries the contact's bodies,
   * radii, manifold normal, point and type, and the local points of the
   * manifold's points; the points beyond the manifold's count are untouched.
   */
  lemma SetUpPositionCopies(pc: PositionConstraint, contact: Contact, j: int)
    requires 1 <= contact.manifold.pointCount <= 2 && 0 <= j < 2
    ensures var r := SetUpPosition(pc, contact);
            r.indexA == contact.bodyA.islandIndex && r.indexB == contact.bodyB.islandIndex &&
            r.pointCount == contact.manifold.pointCount && r.manifoldType == contact.manifold.manifoldType &&
            r.radiusA == contact.radiusA && r.radiusB == contact.radiusB &&
            (j < r.pointCount ==> r.LocalPoint(j) == contact.manifold.Point(j).localPoint) &&
            (j >= r.pointCount ==> r.LocalPoint(j) == pc.LocalPoint(j))
  {
  }

  // ---------------------------------------------------------------------
  // Effective masses and restitution bias

  /** `mA + mB + iA * rnA^2 + iB * rnB^2`, the effective mass of a row along `n`. */
  function RowMass(vc: VelocityConstraint, rA: Vec2, rB: Vec2, n: Vec2): real
  {
    var rnA := rA.x * n.y - rA.y * n.x;
    var rnB := rB.x * n.y - rB.y * n.x;
    vc.invMassA + vc.invMassB + vc.invIA * rnA * rnA + vc.invIB * rnB * rnB
  }

  /** The inverse of an effective mass, or 0 when it is not positive. */
  function InverseMass(k: real): (r: real)
    ensures k > 0.0 ==> r > 0.0 && r * k == 1.0
    ensures k <= 0.0 ==> r == 0.0
  {
    if k > 0.0 then
      InverseOfPositive(k);
      1.0 / k
    else 0.0
  }

  /** With non-negative inverse masses and inertias a row's effective mass is at least `mA + mB`. */
  lemma RowMassBound(vc: VelocityConstraint, rA: Vec2, rB: Vec2, n: Vec2)
    requires vc.invIA >= 0.0 && vc.invIB >= 0.0
    ensures RowMass(vc, rA, rB, n) >= vc.invMassA + vc.invMassB
  {
    ScaledSquareNonNegative(vc.invIA, rA.x * n.y - rA.y * n.x);
    ScaledSquareNonNegative(vc.invIB, rB.x * n.y - rB.y * n.x);
  }

  /** The relative velocity of the two bodies at a point, `vB + wB x rB - vA - wA x rA`. */
  function RelativeVelocity(p: VelocityPoint, m: Motion): Vec2
  {
    Vec2(-m.wB * p.rB.y + m.vB.x - m.vA.x + m.wA * p.rA.y,
         m.wB * p.rB.x + m.vB.y - m.vA.y - m.wA * p.rA.x)
  }

  /** The restitution bias: only a closing speed beyond the threshold bounces. */
  function RestitutionBias(restitution: real, vRel: real, velocityThreshold: real): (r: real)
    ensures vRel < -velocityThreshold ==> r == -restitution * vRel
    ensures vRel >= -velocityThreshold ==> r == 0.0
  {
    if vRel < -velocityThreshold then -restitution * vRel else 0.0
  }

  /** The relative velocity of the two bodies along `n` at anchors `rA` and `rB`, as the preparation computes it. */
  function ApproachSpeed(n: Vec2, rA: Vec2, rB: Vec2, m: Motion): real
  {
    var tempX := m.vB.x + -m.wB * rB.y - m.vA.x - (-m.wA * rA.y);
    var tempY := m.vB.y + m.wB * rB.x - m.vA.y - (m.wA * rA.x);
    n.x * tempX + n.y * tempY
  }

  /**
   * A point prepared for solving: anchors from the body centres to the
   * world contact point, normal and tangent masses, restitution bias from
   * the current relative normal velocity.
   */
  function SetUpPoint(vc: VelocityConstraint, p: VelocityPoint, wp: Vec2, cA: Vec2, cB: Vec2, m: Motion,
                      velocityThreshold: real): VelocityPoint
  {
    var n := vc.normal;
    var rA := Vec2(wp.x - cA.x, wp.y - cA.y);
    var rB := Vec2(wp.x - cB.x, wp.y - cB.y);
    p.(rA := rA, rB := rB,
       normalMass := InverseMass(RowMass(vc, rA, rB, n)),
       tangentMass := InverseMass(RowMass(vc, rA, rB, Vec2(n.y, -1.0 * n.x))),
       velocityBias := RestitutionBias(vc.restitution, ApproachSpeed(n, rA, rB, m), velocityThreshold))
  }

  /**
   * The mass of a row is never the inverse of a non-positive number: it is
   * `1/k` for a positive effective mass `k` and exactly 0 otherwise, so it is
   * never negative; with a positive total inverse mass and non-negative
   * inertias it is positive.
   */
  lemma RowInverseMass(vc: VelocityConstraint, rA: Vec2, rB: Vec2, n: Vec2)
    ensures var k := RowMass(vc, rA, rB, n);
            var r := InverseMass(k);
            (k > 0.0 ==> r * k == 1.0) && (k <= 0.0 ==> r == 0.0) && r >= 0.0 &&
            (vc.invMassA + vc.invMassB > 0.0 && vc.invIA >= 0.0 && vc.invIB >= 0.0 ==> r > 0.0)
  {
    if vc.invIA >= 0.0 && vc.invIB >= 0.0 {
      RowMassBound(vc, rA, rB, n);
    }
  }

  /** The bias is non-negative for a non-negative restitution and threshold. */
  lemma RestitutionBiasNonNegative(restitution: real, vRel: real, velocityThreshold: real)
    requires restitution >= 0.0 && velocityThreshold >= 0.0
    ensures RestitutionBias(restitution, vRel, velocityThreshold) >= 0.0
  {
    if vRel < -velocityThreshold {
      ProductNonNegative(restitution, -vRel);
    }
  }

  /**
   * The masses of a prepared point are each `1/k` for a positive effective
   * mass `k` along the normal or the tangent, and exactly 0 otherwise; they are never
   * negative, and positive with a positive total inverse mass. The bias is
   * non-negative for a non-negative restitution, and 0 unless the bodies
   * approach faster than the threshold. The impulses are kept.
   */
  lemma SetUpPointMasses(vc: VelocityConstraint, p: VelocityPoint, wp: Vec2, cA: Vec2, cB: Vec2, m: Motion,
                         velocityThreshold: real)
    ensures var r := SetUpPoint(vc, p, wp, cA, cB, m, velocityThreshold);
            var kN := RowMass(vc, r.rA, r.rB, vc.normal);
            var kT := RowMass(vc, r.rA, r.rB, Vec2(vc.normal.y, -1.0 * vc.normal.x));
            (kN > 0.0 ==> r.normalMass == 1.0 / kN) && (kN <= 0.0 ==> r.normalMass == 0.0) &&
            (kT > 0.0 ==> r.tangentMass == 1.0 / kT) && (kT <= 0.0 ==> r.tangentMass == 0.0) &&
            r.normalMass >= 0.0 && r.tangentMass >= 0.0 &&
            (vc.invMassA + vc.invMassB > 0.0 && vc.invIA >= 0.0 && vc.invIB >= 0.0 ==>
               r.normalMass > 0.0 && r.tangentMass > 0.0) &&
            (vc.restitution >= 0.0 && velocityThreshold >= 0.0 ==> r.velocityBias >= 0.0) &&
            (ApproachSpeed(vc.normal, r.rA, r.rB, m) >= -velocityThreshold ==> r.velocityBias == 0.0) &&
            r.normalImpulse == p.normalImpulse && r.tangentImpulse == p.tangentImpulse
  {
    var r := SetUpPoint(vc, p, wp, cA, cB, m, velocityThreshold);
    var tangent := Vec2(vc.normal.y, -1.0 * vc.normal.x);
    assert r.normalMass == InverseMass(RowMass(vc, r.rA, r.rB, vc.normal));
    assert r.tangentMass == InverseMass(RowMass(vc, r.rA, r.rB, tangent));
    assert r.velocityBias == RestitutionBias(vc.restitution, ApproachSpeed(vc.normal, r.rA, r.rB, m), velocityThreshold);
    RowInverseMass(vc, r.rA, r.rB, vc.normal);
    RowInverseMass(vc, r.rA, r.rB, tangent);
    if vc.restitution >= 0.0 && velocityThreshold >= 0.0 {
      RestitutionBiasNonNegative(vc.restitution, ApproachSpeed(vc.normal, r.rA, r.rB, m), velocityThreshold);
    }
  }

  /** The 2x2 effective mass matrix of a two-point constraint. */
  function BlockMatrix(vc: VelocityConstraint): Mat22
  {
    var n := vc.normal;
    var rn1A := vc.point1.rA.x * n.y - vc.point1.rA.y * n.x;
    var rn1B := vc.point1.rB.x * n.y - vc.point1.rB.y * n.x;
    var rn2A := vc.point2.rA.x * n.y - vc.point2.rA.y * n.x;
    var rn2B := vc.point2.rB.x * n.y - vc.point2.rB.y * n.x;
    var k11 := vc.invMassA + vc.invMassB + vc.invIA * rn1A * rn1A + vc.invIB * rn1B * rn1B;
    var k22 := vc.invMassA + vc.invMassB + vc.invIA * rn2A * rn2A + vc.invIB * rn2B * rn2B;
    var k12 := vc.invMassA + vc.invMassB + vc.invIA * rn1A * rn2A + vc.invIB * rn1B * rn2B;
    Mat22(Vec2(k11, k12), Vec2(k12, k22))
  }

  /** K is symmetric. */
  lemma BlockMatrixSymmetric(vc: VelocityConstraint)
    ensures BlockMatrix(vc).ex.y == BlockMatrix(vc).ey.x
  {
  }

  /** The determinant of a 2x2 matrix. */
  function Det(k: Mat22): real
  {
    k.ex.x * k.ey.y - k.ey.x * k.ex.y
  }

  /** Whether a symmetric K is well enough conditioned: `k11^2 < maxConditionNumber * (k11 k22 - k12^2)`. */
  predicate WellConditioned(k: Mat22)
  {
    k.ex.x * k.ex.x < MaxConditionNumber * (k.ex.x * k.ey.y - k.ex.y * k.ex.y)
  }

  /** A well-conditioned symmetric matrix has a positive determinant, so it can be inverted. */
  lemma WellConditionedIsRegular(k: Mat22)
    requires k.ex.y == k.ey.x && WellConditioned(k)
    ensures Det(k) > 0.0
  {
    SquareNonNegative(k.ex.x);
  }

  /**
   * The block solver's preparation: a well-conditioned K is kept with its
   * inverse as the normal mass; otherwise the constraint falls back to its
   * first point.
   */
  function PrepareBlock(vc: VelocityConstraint, invert: Mat22 -> Mat22): VelocityConstraint
  {
    var k := BlockMatrix(vc);
    if WellConditioned(k) then vc.(K := k, normalMass := invert(k))
    else vc.(pointCount := 1)
  }

  /**
   * K is inverted only when its determinant is positive; otherwise the
   * point count drops to 1 and the matrices stay as they were.
   */
  lemma PrepareBlockInvertsOnlyRegular(vc: VelocityConstraint, invert: Mat22 -> Mat22)
    ensures var r := PrepareBlock(vc, invert);
            var k := BlockMatrix(vc);
            (WellConditioned(k) ==>
               r.pointCount == vc.pointCount && r.K == k && r.normalMass == invert(k) && Det(k) > 0.0) &&
            (!WellConditioned(k) ==> r == vc.(pointCount := 1))
  {
    var k := BlockMatrix(vc);
    BlockMatrixSymmetric(vc);
    if WellConditioned(k) {
      WellConditionedIsRegular(k);
    }
  }

  /**
   * A constraint prepared for the velocity iterations: the world normal,
   * the prepared points, and for two points the block solver's matrices.
   */
  function InitializeVelocity(vc: VelocityConstraint, pc: PositionConstraint, manifold: Manifold,
                              pos: Placement, m: Motion, ext: Externals, velocityThreshold: real): VelocityConstraint
    requires 0 <= vc.pointCount <= 2
  {
    var xfA := BodyTransform(pos.cA, pos.aA, pc.localCenterA, ext.rotation);
    var xfB := BodyTransform(pos.cB, pos.aB, pc.localCenterB, ext.rotation);
    var wm := ext.worldManifold(manifold, xfA, pc.radiusA, xfB, pc.radiusB);
    PreparePoints(vc.(normal := wm.normal), wm, pos.cA, pos.cB, m, velocityThreshold, ext.invert, 0)
  }

  /**
   * The points `j .. pointCount-1` of a constraint prepared in order, then,
   * for two points, the block solver's matrices.
   */
  function PreparePoints(vc: VelocityConstraint, wm: WorldManifold, cA: Vec2, cB: Vec2, m: Motion,
                         velocityThreshold: real, invert: Mat22 -> Mat22, j: int): VelocityConstraint
    requires 0 <= j <= vc.pointCount <= 2
    decreases vc.pointCount - j
  {
    if j == vc.pointCount then
      if vc.pointCount == 2 then PrepareBlock(vc, invert) else vc
    else
      PreparePoints(vc.WithPoint(j, SetUpPoint(vc, vc.Point(j), wm.Point(j), cA, cB, m, velocityThreshold)),
                    wm, cA, cB, m, velocityThreshold, invert, j + 1)
  }

  /** Preparation keeps the bodies and the impulses, and can only lower the point count from 2 to 1. */
  lemma InitializeVelocityKeeps(vc: VelocityConstraint, pc: PositionConstraint, manifold: Manifold,
                                pos: Placement, m: Motion, ext: Externals, velocityThreshold: real)
    requires 0 <= vc.pointCount <= 2
    ensures var r := InitializeVelocity(vc, pc, manifold, pos, m, ext, velocityThreshold);
            r.indexA == vc.indexA && r.indexB == vc.indexB && r.contactIndex == vc.contactIndex &&
            (r.pointCount == vc.pointCount || (vc.pointCount == 2 && r.pointCount == 1)) &&
            forall j :: 0 <= j < 2 ==>
              r.Point(j).normalImpulse == vc.Point(j).normalImpulse &&
              r.Point(j).tangentImpulse == vc.Point(j).tangentImpulse
  {
    var xfA := BodyTransform(pos.cA, pos.aA, pc.localCenterA, ext.rotation);
    var xfB := BodyTransform(pos.cB, pos.aB, pc.localCenterB, ext.rotation);
    var wm := ext.worldManifold(manifold, xfA, pc.radiusA, xfB, pc.radiusB);
    PreparePointsKeep(vc.(normal := wm.normal), wm, pos.cA, pos.cB, m, velocityThreshold, ext.invert, 0);
  }

  /** Preparing the points `j ..` and the block keeps the bodies and the impulses, and can only lower the point count from 2 to 1. */
  lemma {:induction false} PreparePointsKeep(vc: VelocityConstraint, wm: WorldManifold, cA: Vec2, cB: Vec2, m: Motion,
                                             velocityThreshold: real, invert: Mat22 -> Mat22, j: int)
    requires 0 <= j <= vc.pointCount <= 2
    ensures var r := PreparePoints(vc, wm, cA, cB, m, velocityThreshold, invert, j);
            r.indexA == vc.indexA && r.indexB == vc.indexB && r.contactIndex == vc.contactIndex &&
            (r.pointCount == vc.pointCount || (vc.pointCount == 2 && r.pointCount == 1)) &&
            forall i :: 0 <= i < 2 ==>
              r.Point(i).normalImpulse == vc.Point(i).normalImpulse &&
              r.Point(i).tangentImpulse == vc.Point(i).tangentImpulse
    decreases vc.pointCount - j
  {
    if j < vc.pointCount {
      var p := SetUpPoint(vc, vc.Point(j), wm.Point(j), cA, cB, m, velocityThreshold);
      SetUpPointMasses(vc, vc.Point(j), wm.Point(j), cA, cB, m, velocityThreshold);
      PreparePointsKeep(vc.WithPoint(j, p), wm, cA, cB, m, velocityThreshold, invert, j + 1);
    }
  }

  // ---------------------------------------------------------------------
  // Applying impulses

  /**
   * The impulse `(px, py)` applied at a point: pushed against A and along
   * B, each changing linear velocity by its inverse mass and angular
   * velocity by its inverse inertia times the moment of the impulse.
   */
  function ApplyImpulse(vc: VelocityConstraint, rA: Vec2, rB: Vec2, px: real, py: real, m: Motion): Motion
  {
    Motion(Vec2(m.vA.x - px * vc.invMassA, m.vA.y - py * vc.invMassA),
           m.wA - vc.invIA * (rA.x * py - rA.y * px),
           Vec2(m.vB.x + px * vc.invMassB, m.vB.y + py * vc.invMassB),
           m.wB + vc.invIB * (rB.x * py - rB.y * px))
  }

  /**
   * An impulse is equal and opposite on the two bodies: each linear
   * velocity change divided by its inverse mass is the same vector with
   * opposite signs, and each angular change is the moment of the impulse.
   */
  lemma ApplyImpulseEqualAndOpposite(vc: VelocityConstraint, rA: Vec2, rB: Vec2, px: real, py: real, m: Motion)
    ensures var r := ApplyImpulse(vc, rA, rB, px, py, m);
            r.vA.Sub(m.vA).Mul(vc.invMassB).Add(r.vB.Sub(m.vB).Mul(vc.invMassA)) == Zero &&
            r.wA - m.wA == -vc.invIA * Cross(rA, Vec2(px, py)) &&
            r.wB - m.wB == vc.invIB * Cross(rB, Vec2(px, py))
  {
    var r := ApplyImpulse(vc, rA, rB, px, py, m);
    assert r.vA.Sub(m.vA) == Vec2(-(px * vc.invMassA), -(py * vc.invMassA));
    assert r.vB.Sub(m.vB) == Vec2(px * vc.invMassB, py * vc.invMassB);
  }

  /** Body A takes part with zero inverse mass and inertia. */
  predicate StaticA(vc: VelocityConstraint)
  {
    vc.invMassA == 0.0 && vc.invIA == 0.0
  }

  /** Body B takes part with zero inverse mass and inertia. */
  predicate StaticB(vc: VelocityConstraint)
  {
    vc.invMassB == 0.0 && vc.invIB == 0.0
  }

  /** Going from `m` to `r` leaves the velocities of the constraint's static bodies alone. */
  predicate KeepsStatic(vc: VelocityConstraint, m: Motion, r: Motion)
  {
    (StaticA(vc) ==> r.vA == m.vA && r.wA == m.wA) && (StaticB(vc) ==> r.vB == m.vB && r.wB == m.wB)
  }

  /** An impulse does not move a body of zero inverse mass and inertia. */
  lemma ApplyImpulseKeepsStatic(vc: VelocityConstraint, rA: Vec2, rB: Vec2, px: real, py: real, m: Motion)
    ensures KeepsStatic(vc, m, ApplyImpulse(vc, rA, rB, px, py, m))
  {
  }

  /** A zero impulse changes nothing. */
  lemma ApplyZeroImpulse(vc: VelocityConstraint, rA: Vec2, rB: Vec2, m: Motion)
    ensures ApplyImpulse(vc, rA, rB, 0.0, 0.0, m) == m
  {
  }

  // ---------------------------------------------------------------------
  // Warm starting

  /** The accumulated impulse of a point as a vector: the normal part along the normal, the friction part along the tangent. */
  function WarmStartImpulse(vc: VelocityConstraint, p: VelocityPoint): Vec2
  {
    var tangentX := vc.normal.y;
    var tangentY := -1.0 * vc.normal.x;
    Vec2(tangentX * p.tangentImpulse + vc.normal.x * p.normalImpulse,
         tangentY * p.tangentImpulse + vc.normal.y * p.normalImpulse)
  }

  /** The accumulated normal and friction impulses of a point applied again. */
  function WarmStartPoint(vc: VelocityConstraint, p: VelocityPoint, m: Motion): Motion
  {
    var impulse := WarmStartImpulse(vc, p);
    ApplyImpulse(vc, p.rA, p.rB, impulse.x, impulse.y, m)
  }

  /** Points `0 .. n-1` warm started in order. */
  function WarmStartPoints(vc: VelocityConstraint, m: Motion, n: int): Motion
    requires 0 <= n <= 2
    decreases n
  {
    if n == 0 then m else WarmStartPoint(vc, vc.Point(n - 1), WarmStartPoints(vc, m, n - 1))
  }

  /** Warm starting from zero impulses, as after `init` with warm starting off, leaves the velocities alone. */
  lemma {:induction false} WarmStartFromZero(vc: VelocityConstraint, m: Motion, n: int)
    requires 0 <= n <= 2
    requires forall j :: 0 <= j < n ==> vc.Point(j).normalImpulse == 0.0 && vc.Point(j).tangentImpulse == 0.0
    ensures WarmStartPoints(vc, m, n) == m
    decreases n
  {
    if n > 0 {
      WarmStartFromZero(vc, m, n - 1);
      var p := vc.Point(n - 1);
      assert WarmStartImpulse(vc, p) == Vec2(0.0, 0.0);
      ApplyZeroImpulse(vc, p.rA, p.rB, m);
    }
  }

  /** Warm starting does not move a static body. */
  lemma {:induction false} WarmStartKeepsStatic(vc: VelocityConstraint, m: Motion, n: int)
    requires 0 <= n <= 2
    ensures KeepsStatic(vc, m, WarmStartPoints(vc, m, n))
    decreases n
  {
    if n > 0 {
      WarmStartKeepsStatic(vc, m, n - 1);
      var p := vc.Point(n - 1);
      var prev := WarmStartPoints(vc, m, n - 1);
      var impulse := WarmStartImpulse(vc, p);
      ApplyImpulseKeepsStatic(vc, p.rA, p.rB, impulse.x, impulse.y, prev);
      assert WarmStartPoints(vc, m, n) == ApplyImpulse(vc, p.rA, p.rB, impulse.x, impulse.y, prev);
    }
  }

  // ---------------------------------------------------------------------
  // Friction

  /**
   * One friction row: the impulse that stops the relative tangential
   * motion (less the tangent speed), added to the accumulated friction
   * impulse, clamped to the Coulomb cone of the current normal impulse;
   * only the change of the clamped total is applied.
   */
  function FrictionPoint(vc: VelocityConstraint, p: VelocityPoint, m: Motion): (VelocityPoint, Motion)
  {
    var newImpulse := FrictionImpulse(vc, p, m);
    var applied := newImpulse - p.tangentImpulse;
    (p.(tangentImpulse := newImpulse),
     ApplyImpulse(vc, p.rA, p.rB, vc.normal.y * applied, -1.0 * vc.normal.x * applied, m))
  }

  /** The relative velocity along the tangent at a point, less the contact's tangent speed. */
  function TangentSpeed(vc: VelocityConstraint, p: VelocityPoint, m: Motion): real
  {
    var dv := RelativeVelocity(p, m);
    dv.x * vc.normal.y + dv.y * (-1.0 * vc.normal.x) - vc.tangentSpeed
  }

  /** The accumulated friction impulse plus the increment that would stop the tangential motion, before clamping. */
  function FrictionTarget(vc: VelocityConstraint, p: VelocityPoint, m: Motion): real
  {
    p.tangentImpulse + p.tangentMass * (-TangentSpeed(vc, p, m))
  }

  /** The bound of the friction impulse: the friction coefficient times the normal impulse. */
  function MaxFriction(vc: VelocityConstraint, p: VelocityPoint): real
  {
    vc.friction * p.normalImpulse
  }

  /** The accumulated friction impulse after one friction row. */
  function FrictionImpulse(vc: VelocityConstraint, p: VelocityPoint, m: Motion): real
  {
    MathUtils.Clamp(FrictionTarget(vc, p, m), -MaxFriction(vc, p), MaxFriction(vc, p))
  }

  /**
   * The friction clamp: when `friction * normalImpulse >= 0` the new
   * friction impulse lies in the cone `[-friction * normalImpulse,
   * friction * normalImpulse]`, inside the cone it is the unclamped
   * update; the impulse applied to the bodies is the new accumulated
   * impulse minus the old one along the tangent; nothing else of the point changes.
   */
  lemma FrictionClamp(vc: VelocityConstraint, p: VelocityPoint, m: Motion)
    ensures FrictionPoint(vc, p, m).0 == p.(tangentImpulse := FrictionImpulse(vc, p, m))
    ensures var r := FrictionImpulse(vc, p, m);
            var maxFriction := MaxFriction(vc, p);
            var unclamped := FrictionTarget(vc, p, m);
            (maxFriction >= 0.0 ==> -maxFriction <= r <= maxFriction) &&
            (-maxFriction <= unclamped <= maxFriction ==> r == unclamped) &&
            (0.0 <= maxFriction < unclamped ==> r == maxFriction) &&
            (unclamped < -maxFriction <= 0.0 ==> r == -maxFriction)
  {
  }

  // ---------------------------------------------------------------------
  // The normal rows

  /** The relative velocity along the normal at a point. */
  function NormalSpeed(vc: VelocityConstraint, p: VelocityPoint, m: Motion): real
  {
    var dv := RelativeVelocity(p, m);
    dv.x * vc.normal.x + dv.y * vc.normal.y
  }

  /**
   * The normal row of a one-point constraint: the impulse that brings the
   * normal speed to the bias, added to the accumulated impulse and clamped
   * at 0; only the change of the clamped total is applied.
   */
  function NormalPoint(vc: VelocityConstraint, p: VelocityPoint, m: Motion): (VelocityPoint, Motion)
  {
    var newImpulse := NormalImpulse(vc, p, m);
    var applied := newImpulse - p.normalImpulse;
    (p.(normalImpulse := newImpulse), ApplyImpulse(vc, p.rA, p.rB, vc.normal.x * applied, vc.normal.y * applied, m))
  }

  /** The accumulated normal impulse after the single-point normal row. */
  function NormalImpulse(vc: VelocityConstraint, p: VelocityPoint, m: Motion): real
  {
    MathUtils.Max(NormalTarget(vc, p, m), 0.0)
  }

  /** The accumulated normal impulse plus the increment that would bring the normal speed to the bias, before clamping. */
  function NormalTarget(vc: VelocityConstraint, p: VelocityPoint, m: Motion): real
  {
    p.normalImpulse + -p.normalMass * (NormalSpeed(vc, p, m) - p.velocityBias)
  }

  /**
   * The single-point normal impulse becomes `max(old + lambda, 0)`, hence
   * is never negative, and the applied impulse is its change along the normal.
   */
  lemma NormalPointClamp(vc: VelocityConstraint, p: VelocityPoint, m: Motion)
    ensures NormalPoint(vc, p, m).0 == p.(normalImpulse := NormalImpulse(vc, p, m))
    ensures var r := NormalImpulse(vc, p, m);
            var unclamped := NormalTarget(vc, p, m);
            r >= 0.0 && (unclamped >= 0.0 ==> r == unclamped) && (unclamped < 0.0 ==> r == 0.0)
  {
  }

  /** The four cases of the two-point LCP, tried in this order, and the outcome when none applies. */
  datatype BlockCase = BothActive | FirstActive | SecondActive | NoneActive | NoSolution

  /** The selected case, the new accumulated impulses and the shifted right-hand side `b'`. */
  datatype BlockChoice = BlockChoice(which: BlockCase, x: Vec2, b: Vec2)

  /**
   * The two-point normal rows solved together by total enumeration: with
   * `b' = vn - bias - K a` for the old impulses `a`, take the first case
   * whose impulses are non-negative and whose free normal speeds are
   * non-negative: both points active (`x = -normalMass b'`), only the first
   * (`x = (-b'1 / k11, 0)`), only the second, or neither (`x = 0`).
   */
  function BlockSolve(vc: VelocityConstraint, m: Motion): (r: BlockChoice)
  {
    BlockTry(vc, BlockRhs(vc, m), BothActive)
  }

  /** The right-hand side `b' = vn - bias - K a` of the two-point LCP, `a` the old normal impulses. */
  function BlockRhs(vc: VelocityConstraint, m: Motion): Vec2
  {
    var cp1 := vc.point1;
    var cp2 := vc.point2;
    var ax := cp1.normalImpulse;
    var ay := cp2.normalImpulse;
    var vn1 := NormalSpeed(vc, cp1, m);
    var vn2 := NormalSpeed(vc, cp2, m);
    var R := vc.K;
    Vec2(vn1 - cp1.velocityBias - (R.ex.x * ax + R.ey.x * ay),
         vn2 - cp2.velocityBias - (R.ex.y * ax + R.ey.y * ay))
  }

  /** How many cases the enumeration still has to try after `c`. */
  function CasesAfter(c: BlockCase): nat
  {
    match c
    case BothActive => 4
    case FirstActive => 3
    case SecondActive => 2
    case NoneActive => 1
    case NoSolution => 0
  }

  /** The enumeration from case `c` on, for the right-hand side `b`. */
  function BlockTry(vc: VelocityConstraint, b: Vec2, c: BlockCase): (r: BlockChoice)
    decreases CasesAfter(c)
  {
    match c
    case BothActive =>
      var R1 := vc.normalMass;
      var x1x := -1.0 * (R1.ex.x * b.x + R1.ey.x * b.y);
      var x1y := -1.0 * (R1.ex.y * b.x + R1.ey.y * b.y);
      if x1x >= 0.0 && x1y >= 0.0 then BlockChoice(BothActive, Vec2(x1x, x1y), b)
      else BlockTry(vc, b, FirstActive)
    case FirstActive =>
      var x2 := -vc.point1.normalMass * b.x;
      if x2 >= 0.0 && vc.K.ex.y * x2 + b.y >= 0.0 then BlockChoice(FirstActive, Vec2(x2, 0.0), b)
      else BlockTry(vc, b, SecondActive)
    case SecondActive =>
      var x3 := -vc.point2.normalMass * b.y;
      if x3 >= 0.0 && vc.K.ey.x * x3 + b.x >= 0.0 then BlockChoice(SecondActive, Vec2(0.0, x3), b)
      else BlockTry(vc, b, NoneActive)
    case NoneActive =>
      if b.x >= 0.0 && b.y >= 0.0 then BlockChoice(NoneActive, Zero, b)
      else BlockTry(vc, b, NoSolution)
    case NoSolution => BlockChoice(NoSolution, Vec2(vc.point1.normalImpulse, vc.point2.normalImpulse), b)
  }

  /** The complementarity conditions of the outcome `r` of the two-point LCP with right-hand side `b'` of `vc`. */
  predicate Complementary(vc: VelocityConstraint, r: BlockChoice)
  {
    (r.which != NoSolution ==> r.x.x >= 0.0 && r.x.y >= 0.0) &&
    (r.which == FirstActive ==> r.x.y == 0.0 && vc.K.ex.y * r.x.x + vc.K.ey.y * r.x.y + r.b.y >= 0.0) &&
    (r.which == SecondActive ==> r.x.x == 0.0 && vc.K.ex.x * r.x.x + vc.K.ey.x * r.x.y + r.b.x >= 0.0) &&
    (r.which == NoneActive ==> r.x == Zero && r.b.x >= 0.0 && r.b.y >= 0.0) &&
    (r.which == NoSolution ==> r.x == Vec2(vc.point1.normalImpulse, vc.point2.normalImpulse))
  }

  /**
   * The block solver's outcome as a linear complementarity solution: every
   * case it accepts has non-negative impulses; a point left inactive has
   * zero impulse and a non-negative normal speed `K x + b'`; with neither
   * point active both impulses are 0 and `b' >= 0`; with no solution the old
   * impulses are kept. The right-hand side is `b'` of the old impulses.
   */
  lemma BlockSolveComplementarity(vc: VelocityConstraint, m: Motion)
    ensures var r := BlockSolve(vc, m);
            r.b == BlockRhs(vc, m) &&
            (r.which != NoSolution ==> r.x.x >= 0.0 && r.x.y >= 0.0) &&
            (r.which == FirstActive ==> r.x.y == 0.0 && vc.K.ex.y * r.x.x + vc.K.ey.y * r.x.y + r.b.y >= 0.0) &&
            (r.which == SecondActive ==> r.x.x == 0.0 && vc.K.ex.x * r.x.x + vc.K.ey.x * r.x.y + r.b.x >= 0.0) &&
            (r.which == NoneActive ==> r.x == Zero && r.b.x >= 0.0 && r.b.y >= 0.0) &&
            (r.which == NoSolution ==> r.x == Vec2(vc.point1.normalImpulse, vc.point2.normalImpulse))
  {
    BlockTryComplementarity(vc, BlockRhs(vc, m), BothActive);
  }

  /** Every outcome of the enumeration from any case on is complementary and keeps `b`. */
  lemma {:induction false} BlockTryComplementarity(vc: VelocityConstraint, b: Vec2, c: BlockCase)
    ensures BlockTry(vc, b, c).b == b && Complementary(vc, BlockTry(vc, b, c))
    decreases CasesAfter(c)
  {
    match c
    case BothActive => BlockTryComplementarity(vc, b, FirstActive);
    case FirstActive => BlockTryComplementarity(vc, b, SecondActive);
    case SecondActive => BlockTryComplementarity(vc, b, NoneActive);
    case NoneActive => BlockTryComplementarity(vc, b, NoSolution);
    case NoSolution =>
  }

  /** The impulse change `x - a` applied along the normal at both points. */
  function BlockApply(vc: VelocityConstraint, x: Vec2, m: Motion): Motion
  {
    var cp1 := vc.point1;
    var cp2 := vc.point2;
    var dx := x.x - cp1.normalImpulse;
    var dy := x.y - cp2.normalImpulse;
    var p1x := dx * vc.normal.x;
    var p1y := dx * vc.normal.y;
    var p2x := dy * vc.normal.x;
    var p2y := dy * vc.normal.y;
    Motion(Vec2(m.vA.x - vc.invMassA * (p1x + p2x), m.vA.y - vc.invMassA * (p1y + p2y)),
           m.wA - vc.invIA * (cp1.rA.x * p1y - cp1.rA.y * p1x + (cp2.rA.x * p2y - cp2.rA.y * p2x)),
           Vec2(m.vB.x + vc.invMassB * (p1x + p2x), m.vB.y + vc.invMassB * (p1y + p2y)),
           m.wB + vc.invIB * (cp1.rB.x * p1y - cp1.rB.y * p1x + (cp2.rB.x * p2y - cp2.rB.y * p2x)))
  }

  /** The normal rows of a constraint: one clamped row for one point, the block solver for two. */
  function NormalRows(vc: VelocityConstraint, m: Motion): (VelocityConstraint, Motion)
  {
    if vc.pointCount == 1 then
      var (q, r) := NormalPoint(vc, vc.point1, m);
      (vc.(point1 := q), r)
    else
      var choice := BlockSolve(vc, m);
      if choice.which == NoSolution then (vc, m)
      else
        (vc.(point1 := vc.point1.(normalImpulse := choice.x.x), point2 := vc.point2.(normalImpulse := choice.x.y)),
         BlockApply(vc, choice.x, m))
  }

  /**
   * One velocity iteration of a constraint: the friction rows of all its
   * points, then its normal rows.
   */
  function SolveVelocity(vc: VelocityConstraint, m: Motion): (r: (VelocityConstraint, Motion))
    requires 1 <= vc.pointCount <= 2
    ensures r.0.(point1 := vc.point1, point2 := vc.point2) == vc
  {
    SolveRows(vc, m, 0)
  }

  /** The rows of a velocity iteration from the friction row of point `j` on: the remaining friction rows, then the normal rows. */
  function SolveRows(vc: VelocityConstraint, m: Motion, j: int): (r: (VelocityConstraint, Motion))
    requires 0 <= j <= vc.pointCount <= 2
    ensures r.0.(point1 := vc.point1, point2 := vc.point2) == vc
    decreases vc.pointCount - j
  {
    if j == vc.pointCount then NormalRows(vc, m)
    else
      var (q, mo) := FrictionPoint(vc, vc.Point(j), m);
      SolveRows(vc.WithPoint(j, q), mo, j + 1)
  }

  /** A velocity iteration does not move a static body. */
  lemma SolveVelocityKeepsStatic(vc: VelocityConstraint, m: Motion)
    requires 1 <= vc.pointCount <= 2
    ensures KeepsStatic(vc, m, SolveVelocity(vc, m).1)
  {
    SolveRowsKeepStatic(vc, m, 0);
  }

  /** The rows from point `j` on do not move a static body. */
  lemma {:induction false} SolveRowsKeepStatic(vc: VelocityConstraint, m: Motion, j: int)
    requires 0 <= j <= vc.pointCount <= 2
    ensures KeepsStatic(vc, m, SolveRows(vc, m, j).1)
    decreases vc.pointCount - j
  {
    if j == vc.pointCount {
      NormalRowsKeepStatic(vc, m);
    } else {
      var (q, mo) := FrictionPoint(vc, vc.Point(j), m);
      FrictionPointKeepsStatic(vc, vc.Point(j), m);
      SolveRowsKeepStatic(vc.WithPoint(j, q), mo, j + 1);
    }
  }

  /** A friction row does not move a static body. */
  lemma FrictionPointKeepsStatic(vc: VelocityConstraint, p: VelocityPoint, m: Motion)
    ensures KeepsStatic(vc, m, FrictionPoint(vc, p, m).1)
  {
    var applied := FrictionImpulse(vc, p, m) - p.tangentImpulse;
    ApplyImpulseKeepsStatic(vc, p.rA, p.rB, vc.normal.y * applied, -1.0 * vc.normal.x * applied, m);
  }

  /** The normal rows do not move a static body. */
  lemma NormalRowsKeepStatic(vc: VelocityConstraint, m: Motion)
    ensures KeepsStatic(vc, m, NormalRows(vc, m).1)
  {
    if vc.pointCount == 1 {
      var p := vc.point1;
      var applied := NormalImpulse(vc, p, m) - p.normalImpulse;
      ApplyImpulseKeepsStatic(vc, p.rA, p.rB, vc.normal.x * applied, vc.normal.y * applied, m);
    } else {
      var choice := BlockSolve(vc, m);
      if choice.which != NoSolution {
        BlockApplyKeepsStatic(vc, choice.x, m);
      }
    }
  }

  /** The block solver's impulses do not move a static body. */
  lemma BlockApplyKeepsStatic(vc: VelocityConstraint, x: Vec2, m: Motion)
    ensures KeepsStatic(vc, m, BlockApply(vc, x, m))
  {
    var cp1, cp2 := vc.point1, vc.point2;
    var dx := x.x - cp1.normalImpulse;
    var dy := x.y - cp2.normalImpulse;
    var p1x, p1y, p2x, p2y := dx * vc.normal.x, dx * vc.normal.y, dy * vc.normal.x, dy * vc.normal.y;
    if StaticA(vc) {
      assert vc.invMassA * (p1x + p2x) == 0.0 && vc.invMassA * (p1y + p2y) == 0.0;
      assert vc.invIA * (cp1.rA.x * p1y - cp1.rA.y * p1x + (cp2.rA.x * p2y - cp2.rA.y * p2x)) == 0.0;
    }
    if StaticB(vc) {
      assert vc.invMassB * (p1x + p2x) == 0.0 && vc.invMassB * (p1y + p2y) == 0.0;
      assert vc.invIB * (cp1.rB.x * p1y - cp1.rB.y * p1x + (cp2.rB.x * p2y - cp2.rB.y * p2x)) == 0.0;
    }
  }

  /** Every point in use has a non-negative accumulated normal impulse. */
  predicate NormalImpulsesNonNegative(vc: VelocityConstraint)
    requires 0 <= vc.pointCount <= 2
  {
    forall j :: 0 <= j < vc.pointCount ==> vc.Point(j).normalImpulse >= 0.0
  }

  /**
   * A velocity iteration keeps the normal impulses of the points in use
   * non-negative (the block solver asserts this of its input).
   */
  lemma SolveVelocityKeepsImpulsesNonNegative(vc: VelocityConstraint, m: Motion)
    requires 1 <= vc.pointCount <= 2 && NormalImpulsesNonNegative(vc)
    ensures NormalImpulsesNonNegative(SolveVelocity(vc, m).0)
  {
    SolveRowsKeepImpulsesNonNegative(vc, m, 0);
  }

  /** The friction rows leave the normal impulses alone, and the normal rows keep them non-negative. */
  lemma {:induction false} SolveRowsKeepImpulsesNonNegative(vc: VelocityConstraint, m: Motion, j: int)
    requires 0 <= j <= vc.pointCount && 1 <= vc.pointCount <= 2 && NormalImpulsesNonNegative(vc)
    ensures NormalImpulsesNonNegative(SolveRows(vc, m, j).0)
    decreases vc.pointCount - j
  {
    if j == vc.pointCount {
      NormalRowsKeepImpulsesNonNegative(vc, m);
    } else {
      var (q, mo) := FrictionPoint(vc, vc.Point(j), m);
      FrictionClamp(vc, vc.Point(j), m);
      var c := vc.WithPoint(j, q);
      assert c.Point(j).normalImpulse == vc.Point(j).normalImpulse;
      SolveRowsKeepImpulsesNonNegative(c, mo, j + 1);
    }
  }

  /**
   * The normal rows keep the normal impulses non-negative; when the block
   * solver finds no solution they change neither the impulses nor the velocities.
   */
  lemma NormalRowsKeepImpulsesNonNegative(vc: VelocityConstraint, m: Motion)
    requires 1 <= vc.pointCount <= 2 && NormalImpulsesNonNegative(vc)
    ensures NormalImpulsesNonNegative(NormalRows(vc, m).0)
    ensures vc.pointCount == 2 && BlockSolve(vc, m).which == NoSolution ==> NormalRows(vc, m) == (vc, m)
  {
    if vc.pointCount == 1 {
      NormalPointClamp(vc, vc.point1, m);
    } else {
      BlockSolveComplementarity(vc, m);
    }
  }
}
