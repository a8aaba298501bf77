/**
 * The position part of the contact solver, one constraint at a time: the
 * separation of a contact point at the bodies' current placement
 * (`PositionSolverManifold`), the Baumgarte-clamped correction, and the
 * pseudo-impulse that pushes the two bodies apart along the normal.
 */
module PositionRows {
  import opened Settings
  import opened Vectors
  import opened Geometry
  import MathUtils
  import opened ContactData

  /** What the position solver sees of one contact point: world normal, world point, separation. */
  datatype SolverPoint = SolverPoint(normal: Vec2, point: Vec2, separation: real)

  /**
   * The contact point `index` of a position constraint at the placements
   * `xfA`, `xfB`. For circles: the normal from the centre of A to the centre
   * of B (left as is when shorter than `eps`), the midpoint, and the centre
   * distance along the normal less both radii. For a face of A: the face
   * normal, the clip point on B, and its height over the face less both
   * radii. For a face of B the same with the roles swapped and the normal
   * turned around to point from A to B.
   */
  function SolverManifold(pc: PositionConstraint, xfA: Transform, xfB: Transform, index: int,
                          eps: real, sqrt: real -> real): SolverPoint
    requires 0 <= index < 2 && eps > 0.0
  {
    match pc.manifoldType
    case Circles =>
      var pointA := Apply(xfA, pc.localPoint);
      var pointB := Apply(xfB, pc.LocalPoint(0));
      var normal := Normalized(pointB.Sub(pointA), eps, sqrt).0;
      var point := Vec2((pointA.x + pointB.x) * 0.5, (pointA.y + pointB.y) * 0.5);
      var temp := pointB.Sub(pointA);
      SolverPoint(normal, point, temp.x * normal.x + temp.y * normal.y - pc.radiusA - pc.radiusB)
    case FaceA =>
      var normal := Rotate(xfA.q, pc.localNormal);
      var planePoint := Apply(xfA, pc.localPoint);
      var clipPoint := Apply(xfB, pc.LocalPoint(index));
      var temp := clipPoint.Sub(planePoint);
      SolverPoint(normal, clipPoint, temp.x * normal.x + temp.y * normal.y - pc.radiusA - pc.radiusB)
    case FaceB =>
      var normal := Rotate(xfB.q, pc.localNormal);
      var planePoint := Apply(xfB, pc.localPoint);
      var clipPoint := Apply(xfA, pc.LocalPoint(index));
      var temp := clipPoint.Sub(planePoint);
      SolverPoint(Vec2(normal.x * -1.0, normal.y * -1.0), clipPoint,
                  temp.x * normal.x + temp.y * normal.y - pc.radiusA - pc.radiusB)
  }

  /** A rotation by a unit rotation keeps dot products. */
  lemma RotateKeepsDot(q: Rot, u: Vec2, v: Vec2)
    requires q.IsUnit()
    ensures Dot(Rotate(q, u), Rotate(q, v)) == Dot(u, v)
  {
    var ru := Rotate(q, u);
    var rv := Rotate(q, v);
    assert Dot(ru, rv) == (q.c * q.c + q.s * q.s) * (u.x * v.x) + (q.c * q.c + q.s * q.s) * (u.y * v.y);
  }

  /** The difference of two placed points is the rotated difference of the local points. */
  lemma ApplyDifference(xf: Transform, u: Vec2, v: Vec2)
    ensures Apply(xf, u).Sub(Apply(xf, v)) == Rotate(xf.q, u.Sub(v))
  {
  }

  /**
   * Two centres further apart than `eps`: the normal is the unit vector from
   * A's centre to B's, the point is their midpoint, and the separation is the
   * distance between the centres less both radii.
   */
  lemma CirclesSeparation(pc: PositionConstraint, xfA: Transform, xfB: Transform, index: int,
                          eps: real, sqrt: real -> real)
    requires 0 <= index < 2 && eps > 0.0 && IsSqrt(sqrt) && pc.manifoldType == Circles
    requires Apply(xfB, pc.LocalPoint(0)).Sub(Apply(xfA, pc.localPoint)).Length(sqrt) >= eps
    ensures var pointA := Apply(xfA, pc.localPoint);
            var pointB := Apply(xfB, pc.LocalPoint(0));
            var sp := SolverManifold(pc, xfA, xfB, index, eps, sqrt);
            sp.normal.LengthSquared() == 1.0 &&
            sp.normal.Mul(pointB.Sub(pointA).Length(sqrt)) == pointB.Sub(pointA) &&
            sp.point == pointA.Add(pointB).Mul(0.5) &&
            sp.separation == pointB.Sub(pointA).Length(sqrt) - pc.radiusA - pc.radiusB
  {
    var pointA := Apply(xfA, pc.localPoint);
    var pointB := Apply(xfB, pc.LocalPoint(0));
    var d := pointB.Sub(pointA);
    NormalizedIsUnit(d, eps, sqrt);
    var n := Normalized(d, eps, sqrt).0;
    var len := d.Length(sqrt);
    assert n.Mul(len) == d;
    DotAlongUnit(d, n, len);
  }

  /** `d = len * n` with `n` a unit vector gives `d . n = len`. */
  lemma DotAlongUnit(d: Vec2, n: Vec2, len: real)
    requires n.LengthSquared() == 1.0 && n.Mul(len) == d
    ensures d.x * n.x + d.y * n.y == len
  {
    assert d.x * n.x + d.y * n.y == len * (n.x * n.x + n.y * n.y);
  }

  /**
   * Two centres closer than `eps` keep the unnormalised offset as their
   * normal: the normalisation leaves a short vector as it is.
   */
  lemma CirclesShortNormal(pc: PositionConstraint, xfA: Transform, xfB: Transform, index: int,
                           eps: real, sqrt: real -> real)
    requires 0 <= index < 2 && eps > 0.0 && pc.manifoldType == Circles
    requires Apply(xfB, pc.LocalPoint(0)).Sub(Apply(xfA, pc.localPoint)).Length(sqrt) < eps
    ensures SolverManifold(pc, xfA, xfB, index, eps, sqrt).normal ==
            Apply(xfB, pc.LocalPoint(0)).Sub(Apply(xfA, pc.localPoint))
  {
  }

  /**
   * For a face of A with a unit rotation the normal is the rotated face
   * normal, the point is B's clip point, and the separation is the height of
   * the clip point over the face in A's own frame, less both radii; it does
   * not depend on where A is.
   */
  lemma FaceASeparation(pc: PositionConstraint, xfA: Transform, xfB: Transform, index: int,
                        eps: real, sqrt: real -> real)
    requires 0 <= index < 2 && eps > 0.0 && pc.manifoldType == FaceA && xfA.q.IsUnit()
    ensures var sp := SolverManifold(pc, xfA, xfB, index, eps, sqrt);
            var clipPoint := Apply(xfB, pc.LocalPoint(index));
            sp.normal == Rotate(xfA.q, pc.localNormal) && sp.point == clipPoint &&
            sp.normal.LengthSquared() == pc.localNormal.LengthSquared() &&
            sp.separation == Dot(ApplyInv(xfA, clipPoint).Sub(pc.localPoint), pc.localNormal) - pc.radiusA - pc.radiusB
  {
    var clipPoint := Apply(xfB, pc.LocalPoint(index));
    var local := ApplyInv(xfA, clipPoint);
    ApplyApplyInv(xfA, clipPoint);
    ApplyDifference(xfA, local, pc.localPoint);
    var n := Rotate(xfA.q, pc.localNormal);
    var temp := clipPoint.Sub(Apply(xfA, pc.localPoint));
    assert temp == Rotate(xfA.q, local.Sub(pc.localPoint));
    RotateKeepsDot(xfA.q, local.Sub(pc.localPoint), pc.localNormal);
    assert temp.x * n.x + temp.y * n.y == Dot(local.Sub(pc.localPoint), pc.localNormal);
    RotateKeepsDot(xfA.q, pc.localNormal, pc.localNormal);
  }

  /**
   * For a face of B the normal is B's rotated face normal turned around, so
   * that it points from A to B, the point is A's clip point, and the
   * separation is the height of that point over B's face less both radii.
   */
  lemma FaceBNormalPointsFromAToB(pc: PositionConstraint, xfA: Transform, xfB: Transform, index: int,
                                  eps: real, sqrt: real -> real)
    requires 0 <= index < 2 && eps > 0.0 && pc.manifoldType == FaceB && xfB.q.IsUnit()
    ensures var sp := SolverManifold(pc, xfA, xfB, index, eps, sqrt);
            var clipPoint := Apply(xfA, pc.LocalPoint(index));
            sp.normal == Rotate(xfB.q, pc.localNormal).Negate() && sp.point == clipPoint &&
            sp.normal.LengthSquared() == pc.localNormal.LengthSquared() &&
            sp.separation == Dot(ApplyInv(xfB, clipPoint).Sub(pc.localPoint), pc.localNormal) - pc.radiusA - pc.radiusB
  {
    var clipPoint := Apply(xfA, pc.LocalPoint(index));
    var local := ApplyInv(xfB, clipPoint);
    ApplyApplyInv(xfB, clipPoint);
    ApplyDifference(xfB, local, pc.localPoint);
    var n := Rotate(xfB.q, pc.localNormal);
    var temp := clipPoint.Sub(Apply(xfB, pc.localPoint));
    assert temp == Rotate(xfB.q, local.Sub(pc.localPoint));
    RotateKeepsDot(xfB.q, local.Sub(pc.localPoint), pc.localNormal);
    assert temp.x * n.x + temp.y * n.y == Dot(local.Sub(pc.localPoint), pc.localNormal);
    RotateKeepsDot(xfB.q, pc.localNormal, pc.localNormal);
  }

  // ---------------------------------------------------------------------
  // The Baumgarte row

  /** The inverse masses and inertias a position row moves the bodies with. */
  datatype Masses = Masses(mA: real, iA: real, mB: real, iB: real)

  /** The regular solver moves each body by its own inverse mass and inertia. */
  function ConstraintMasses(pc: PositionConstraint): Masses
  {
    Masses(pc.invMassA, pc.invIA, pc.invMassB, pc.invIB)
  }

  /**
   * The time-of-impact solver moves only the two bodies of the impact: a
   * body whose index is neither of them keeps zero inverse mass and inertia.
   */
  function ImpactMasses(pc: PositionConstraint, toiIndexA: int, toiIndexB: int): (ms: Masses)
    ensures pc.indexA != toiIndexA && pc.indexA != toiIndexB ==> ms.mA == 0.0 && ms.iA == 0.0
    ensures pc.indexB != toiIndexA && pc.indexB != toiIndexB ==> ms.mB == 0.0 && ms.iB == 0.0
    ensures pc.indexA == toiIndexA || pc.indexA == toiIndexB ==> ms.mA == pc.invMassA && ms.iA == pc.invIA
    ensures pc.indexB == toiIndexA || pc.indexB == toiIndexB ==> ms.mB == pc.invMassB && ms.iB == pc.invIB
  {
    var (mA, iA) := if pc.indexA == toiIndexA || pc.indexA == toiIndexB then (pc.invMassA, pc.invIA) else (0.0, 0.0);
    var (mB, iB) := if pc.indexB == toiIndexA || pc.indexB == toiIndexB then (pc.invMassB, pc.invIB) else (0.0, 0.0);
    Masses(mA, iA, mB, iB)
  }

  /** The position error to remove: the separation beyond the slop, scaled and limited. */
  function Correction(separation: real, baumgarte: real, cfg: Config): real
  {
    MathUtils.Clamp(baumgarte * (separation + cfg.linearSlop), -cfg.maxLinearCorrection, 0.0)
  }

  /**
   * The correction lies in `[-maxLinearCorrection, 0]`; it is 0 exactly
   * when the separation is no deeper than the slop, and it is the scaled
   * penetration when that is below the limit.
   */
  lemma CorrectionBounds(separation: real, baumgarte: real, cfg: Config)
    requires cfg.Valid() && baumgarte > 0.0
    ensures var c := Correction(separation, baumgarte, cfg);
            -cfg.maxLinearCorrection <= c <= 0.0 &&
            (c == 0.0 <==> separation >= -cfg.linearSlop) &&
            (-cfg.maxLinearCorrection <= baumgarte * (separation + cfg.linearSlop) <= 0.0 ==>
               c == baumgarte * (separation + cfg.linearSlop))
  {
    var e := separation + cfg.linearSlop;
    if e < 0.0 {
      assert baumgarte * e < 0.0;
    } else {
      assert baumgarte * e >= 0.0;
    }
  }

  /** The pseudo-impulse for correction `c` and effective mass `k`, never a division by a non-positive mass. */
  function PositionImpulse(c: real, k: real): real
  {
    if k > 0.0 then -c / k else 0.0
  }

  /** A non-positive correction gives a non-negative impulse, and a non-positive mass gives none. */
  lemma PositionImpulseSign(c: real, k: real)
    requires c <= 0.0
    ensures PositionImpulse(c, k) >= 0.0
    ensures k <= 0.0 ==> PositionImpulse(c, k) == 0.0
    ensures c == 0.0 ==> PositionImpulse(c, k) == 0.0
  {
    if k > 0.0 {
      assert -c >= 0.0;
      assert PositionImpulse(c, k) == (-c) / k;
    }
  }

  /** The effective mass of a position row along `n`. */
  function PositionMass(ms: Masses, rA: Vec2, rB: Vec2, n: Vec2): real
  {
    var rnA := rA.x * n.y - rA.y * n.x;
    var rnB := rB.x * n.y - rB.y * n.x;
    ms.mA + ms.mB + ms.iA * rnA * rnA + ms.iB * rnB * rnB
  }

  /** What one point of a position constraint computes before it moves the bodies. */
  datatype PositionStep = PositionStep(sp: SolverPoint, rA: Vec2, rB: Vec2, impulse: real)

  /** The solver point, anchors and impulse of point `j` at placement `pl`. */
  function PositionStepAt(pc: PositionConstraint, pl: Placement, j: int, ms: Masses, baumgarte: real,
                          cfg: Config, ext: Externals): PositionStep
    requires 0 <= j < 2 && cfg.Valid()
  {
    var xfA := BodyTransform(pl.cA, pl.aA, pc.localCenterA, ext.rotation);
    var xfB := BodyTransform(pl.cB, pl.aB, pc.localCenterB, ext.rotation);
    var sp := SolverManifold(pc, xfA, xfB, j, cfg.epsilon, ext.sqrt);
    var rA := Vec2(sp.point.x - pl.cA.x, sp.point.y - pl.cA.y);
    var rB := Vec2(sp.point.x - pl.cB.x, sp.point.y - pl.cB.y);
    var c := Correction(sp.separation, baumgarte, cfg);
    PositionStep(sp, rA, rB, PositionImpulse(c, PositionMass(ms, rA, rB, sp.normal)))
  }

  /** The bodies moved by the impulse of one step: A against the normal, B along it. */
  function Push(pl: Placement, st: PositionStep, ms: Masses): Placement
  {
    var px := st.sp.normal.x * st.impulse;
    var py := st.sp.normal.y * st.impulse;
    Placement(Vec2(pl.cA.x - px * ms.mA, pl.cA.y - py * ms.mA),
              pl.aA - ms.iA * (st.rA.x * py - st.rA.y * px),
              Vec2(pl.cB.x + px * ms.mB, pl.cB.y + py * ms.mB),
              pl.aB + ms.iB * (st.rB.x * py - st.rB.y * px))
  }

  /** Points `0 .. n-1` of a constraint solved in order: the final placement and the separations seen. */
  function PositionPoints(pc: PositionConstraint, pl: Placement, ms: Masses, baumgarte: real,
                          cfg: Config, ext: Externals, n: int): (r: (Placement, seq<real>))
    requires 0 <= n <= 2 && cfg.Valid()
    ensures |r.1| == n
    decreases n
  {
    if n == 0 then (pl, [])
    else
      var (p, seps) := PositionPoints(pc, pl, ms, baumgarte, cfg, ext, n - 1);
      var st := PositionStepAt(pc, p, n - 1, ms, baumgarte, cfg, ext);
      (Push(p, st, ms), seps + [st.sp.separation])
  }

  /**
   * Each step's impulse is non-negative, so it pushes the bodies apart;
   * it is 0 when the point is within the slop or when the effective mass
   * is not positive.
   */
  lemma PositionStepPushesApart(pc: PositionConstraint, pl: Placement, j: int, ms: Masses, baumgarte: real,
                                cfg: Config, ext: Externals)
    requires 0 <= j < 2 && cfg.Valid() && baumgarte > 0.0
    ensures var st := PositionStepAt(pc, pl, j, ms, baumgarte, cfg, ext);
            st.impulse >= 0.0 &&
            (st.sp.separation >= -cfg.linearSlop ==> st.impulse == 0.0) &&
            (PositionMass(ms, st.rA, st.rB, st.sp.normal) <= 0.0 ==> st.impulse == 0.0)
  {
    var st := PositionStepAt(pc, pl, j, ms, baumgarte, cfg, ext);
    CorrectionBounds(st.sp.separation, baumgarte, cfg);
    PositionImpulseSign(Correction(st.sp.separation, baumgarte, cfg), PositionMass(ms, st.rA, st.rB, st.sp.normal));
  }

  /** A body with zero inverse mass and inertia is not moved by a step. */
  lemma PushKeepsHeavyBodies(pl: Placement, st: PositionStep, ms: Masses)
    ensures ms.mA == 0.0 && ms.iA == 0.0 ==> Push(pl, st, ms).cA == pl.cA && Push(pl, st, ms).aA == pl.aA
    ensures ms.mB == 0.0 && ms.iB == 0.0 ==> Push(pl, st, ms).cB == pl.cB && Push(pl, st, ms).aB == pl.aB
  {
  }

  /** A body with zero inverse mass and inertia keeps its place through all points of a constraint. */
  lemma {:induction false} PositionPointsKeepHeavyBodies(pc: PositionConstraint, pl: Placement, ms: Masses,
                                                         baumgarte: real, cfg: Config, ext: Externals, n: int)
    requires 0 <= n <= 2 && cfg.Valid()
    ensures var p := PositionPoints(pc, pl, ms, baumgarte, cfg, ext, n).0;
            (ms.mA == 0.0 && ms.iA == 0.0 ==> p.cA == pl.cA && p.aA == pl.aA) &&
            (ms.mB == 0.0 && ms.iB == 0.0 ==> p.cB == pl.cB && p.aB == pl.aB)
    decreases n
  {
    if n > 0 {
      PositionPointsKeepHeavyBodies(pc, pl, ms, baumgarte, cfg, ext, n - 1);
      var p := PositionPoints(pc, pl, ms, baumgarte, cfg, ext, n - 1).0;
      PushKeepsHeavyBodies(p, PositionStepAt(pc, p, n - 1, ms, baumgarte, cfg, ext), ms);
    }
  }

  // ---------------------------------------------------------------------
  // The smallest separation

  /** `min(m, s[0], ..., s[|s|-1])`. */
  function MinOf(m: real, s: seq<real>): real
    decreases |s|
  {
    if |s| == 0 then m else MathUtils.Min(MinOf(m, s[..|s| - 1]), s[|s| - 1])
  }

  /** The minimum is at least `t` exactly when the start and every element are. */
  lemma {:induction false} MinOfAtLeast(m: real, s: seq<real>, t: real)
    ensures MinOf(m, s) >= t <==> m >= t && forall k :: 0 <= k < |s| ==> s[k] >= t
    decreases |s|
  {
    if |s| > 0 {
      var init := s[..|s| - 1];
      MinOfAtLeast(m, init, t);
      assert forall k :: 0 <= k < |init| ==> init[k] == s[k];
    }
  }

  /** The minimum is below the start and below every element. */
  lemma {:induction false} MinOfAtMost(m: real, s: seq<real>)
    ensures MinOf(m, s) <= m
    ensures forall k :: 0 <= k < |s| ==> MinOf(m, s) <= s[k]
    decreases |s|
  {
    if |s| > 0 {
      var init := s[..|s| - 1];
      MinOfAtMost(m, init);
      assert forall k :: 0 <= k < |init| ==> init[k] == s[k];
    }
  }

  /** Extending the sequence is one more minimum. */
  lemma MinOfAppend(m: real, s: seq<real>, t: seq<real>)
    ensures MinOf(MinOf(m, s), t) == MinOf(m, s + t)
    decreases |t|
  {
    if |t| > 0 {
      assert (s + t)[..|s + t| - 1] == s + t[..|t| - 1];
      MinOfAppend(m, s, t[..|t| - 1]);
    } else {
      assert s + t == s;
    }
  }
}
