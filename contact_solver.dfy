/**
 * The sequential-impulse contact solver of an island. It keeps one velocity
 * and one position constraint per contact in arrays that grow on demand,
 * and works in place on the island's arrays of body positions and
 * velocities. Each pass over the constraints is specified by a fold of the
 * per-constraint functions of `VelocityRows` and `PositionRows` over the
 * constraints in order.
 */
module ContactSolvers {
  import opened Settings
  import opened Vectors
  import opened Geometry
  import MathUtils
  import opened ManifoldPoints
  import opened ContactData
  import opened VelocityRows
  import opened PositionRows

  /** The number of constraints a new solver has room for. */
  const InitialNumConstraints: int := 256

  // ---------------------------------------------------------------------
  // The two bodies of a constraint in the island's arrays

  function MotionOf(vels: seq<Velocity>, indexA: int, indexB: int): Motion
    requires 0 <= indexA < |vels| && 0 <= indexB < |vels|
  {
    Motion(vels[indexA].v, vels[indexA].w, vels[indexB].v, vels[indexB].w)
  }

  function WithMotion(vels: seq<Velocity>, indexA: int, indexB: int, m: Motion): (r: seq<Velocity>)
    requires BodiesFit(indexA, indexB, |vels|)
    ensures |r| == |vels| && MotionOf(r, indexA, indexB) == m
    ensures forall k :: 0 <= k < |vels| && k != indexA && k != indexB ==> r[k] == vels[k]
  {
    vels[indexA := Velocity(m.vA, m.wA)][indexB := Velocity(m.vB, m.wB)]
  }

  function PlacementOf(poss: seq<Position>, indexA: int, indexB: int): Placement
    requires 0 <= indexA < |poss| && 0 <= indexB < |poss|
  {
    Placement(poss[indexA].c, poss[indexA].a, poss[indexB].c, poss[indexB].a)
  }

  function WithPlacement(poss: seq<Position>, indexA: int, indexB: int, pl: Placement): (r: seq<Position>)
    requires BodiesFit(indexA, indexB, |poss|)
    ensures |r| == |poss| && PlacementOf(r, indexA, indexB) == pl
    ensures forall k :: 0 <= k < |poss| && k != indexA && k != indexB ==> r[k] == poss[k]
  {
    poss[indexA := Position(pl.cA, pl.aA)][indexB := Position(pl.cB, pl.aB)]
  }

  /** The velocity constraints `0 .. n-1` fit an island of `bodies` bodies. */
  predicate VelocitiesFit(vcs: seq<VelocityConstraint>, n: int, bodies: int)
  {
    0 <= n <= |vcs| && forall i :: 0 <= i < n ==> VelocityFits(vcs[i], bodies)
  }

  /** The position constraints `0 .. n-1` fit an island of `bodies` bodies. */
  predicate PositionsFit(pcs: seq<PositionConstraint>, n: int, bodies: int)
  {
    0 <= n <= |pcs| && forall i :: 0 <= i < n ==> PositionFits(pcs[i], bodies)
  }

  // ---------------------------------------------------------------------
  // init

  /** The length a constraint array of length `oldLength` grows to for `count` constraints (Java `int` doubling). */
  function GrownLength(oldLength: int, count: MathUtils.Int32): (r: int)
    requires 0 <= oldLength <= MathUtils.Int32Max
    ensures r >= count
  {
    MathUtils.MaxInt(MathUtils.Wrap(oldLength * 2), count)
  }

  /** Doubling wins unless `count` is larger; both cover `count`. */
  lemma GrownLengthDoubles(oldLength: int, count: MathUtils.Int32)
    requires 0 <= oldLength <= MathUtils.Int32Max / 2
    ensures GrownLength(oldLength, count) == if 2 * oldLength >= count then 2 * oldLength else count
  {
  }

  /** Entry `i` of a grown array: the old entry where there was one, a fresh blank one beyond. */
  function Reused<T>(old_: seq<T>, i: int, blank: T): T
    requires 0 <= i
  {
    if i < |old_| then old_[i] else blank
  }

  /**
   * The constraints of contact number `i`, built from the objects they
   * reuse: the header fields, then each manifold point seeded into the
   * velocity constraint and its local point copied into the position constraint.
   */
  method SetUpConstraint(vc0: VelocityConstraint, pc0: PositionConstraint, contact: Contact, i: int, step: TimeStep)
    returns (vc: VelocityConstraint, pc: PositionConstraint)
    requires 1 <= contact.manifold.pointCount <= 2
    ensures vc == SetUpVelocity(vc0, contact, i, step) && pc == SetUpPosition(pc0, contact)
  {
    var manifold := contact.manifold;
    vc := VelocityHeader(vc0, contact, i);
    pc := PositionHeader(pc0, contact);
    ghost var vc1, pc1 := vc, pc;
    var j := 0;
    while j < manifold.pointCount
      invariant 0 <= j <= manifold.pointCount
      invariant vc == SeedPoints(vc1, manifold, step, j)
      invariant pc == CopyLocalPoints(pc1, manifold, j)
    {
      vc := vc.WithPoint(j, SeedPoint(manifold.Point(j), step));
      pc := pc.WithLocalPoint(j, manifold.Point(j).localPoint);
      j := j + 1;
    }
  }

  /** The constraints of a contact between two different bodies of the island fit the island. */
  lemma SetUpFits(vc: VelocityConstraint, pc: PositionConstraint, contact: Contact, i: int, step: TimeStep, bodies: int)
    requires BodiesFit(contact.bodyA.islandIndex, contact.bodyB.islandIndex, bodies)
    requires 1 <= contact.manifold.pointCount <= 2
    ensures var r := SetUpVelocity(vc, contact, i, step);
            VelocityFits(r, bodies) && r.contactIndex == i &&
            r.indexA == contact.bodyA.islandIndex && r.indexB == contact.bodyB.islandIndex
    ensures var r := SetUpPosition(pc, contact);
            PositionFits(r, bodies) && r.pointCount == contact.manifold.pointCount &&
            r.indexA == contact.bodyA.islandIndex && r.indexB == contact.bodyB.islandIndex
  {
    var m := contact.manifold;
    assert SeedPoints(VelocityHeader(vc, contact, i), m, step, m.pointCount).(point1 := VelocityHeader(vc, contact, i).point1,
                                                                           point2 := VelocityHeader(vc, contact, i).point2)
           == VelocityHeader(vc, contact, i);
    assert CopyLocalPoints(PositionHeader(pc, contact), m, m.pointCount).(localPoint1 := PositionHeader(pc, contact).localPoint1,
                                                                          localPoint2 := PositionHeader(pc, contact).localPoint2)
           == PositionHeader(pc, contact);
  }

  // ---------------------------------------------------------------------
  // warmStart

  /** The velocities after warm starting constraints `0 .. n-1` in order. */
  function WarmStarted(vcs: seq<VelocityConstraint>, vels: seq<Velocity>, n: int): (r: seq<Velocity>)
    requires VelocitiesFit(vcs, n, |vels|)
    ensures |r| == |vels|
    decreases n
  {
    if n == 0 then vels
    else
      var prev := WarmStarted(vcs, vels, n - 1);
      var vc := vcs[n - 1];
      WithMotion(prev, vc.indexA, vc.indexB, WarmStartPoints(vc, MotionOf(prev, vc.indexA, vc.indexB), vc.pointCount))
  }

  /** Body `k` takes part with zero inverse mass and inertia in every constraint `0 .. n-1` that acts on it. */
  predicate StaticBody(vcs: seq<VelocityConstraint>, n: int, k: int)
    requires 0 <= n <= |vcs|
  {
    forall i :: 0 <= i < n ==> (vcs[i].indexA == k ==> StaticA(vcs[i])) && (vcs[i].indexB == k ==> StaticB(vcs[i]))
  }

  /** Warm starting leaves the velocity of a static body, and of a body no constraint touches, as it was. */
  lemma {:induction false} WarmStartKeepsStaticBodies(vcs: seq<VelocityConstraint>, vels: seq<Velocity>, n: int, k: int)
    requires VelocitiesFit(vcs, n, |vels|) && 0 <= k < |vels| && StaticBody(vcs, n, k)
    ensures WarmStarted(vcs, vels, n)[k] == vels[k]
    decreases n
  {
    if n > 0 {
      WarmStartKeepsStaticBodies(vcs, vels, n - 1, k);
      var prev := WarmStarted(vcs, vels, n - 1);
      var vc := vcs[n - 1];
      WarmStartKeepsStatic(vc, MotionOf(prev, vc.indexA, vc.indexB), vc.pointCount);
    }
  }

  /** Warm starting constraints whose impulses are all zero, as `init` leaves them with warm starting off, changes nothing. */
  lemma {:induction false} WarmStartWithoutImpulses(vcs: seq<VelocityConstraint>, vels: seq<Velocity>, n: int)
    requires VelocitiesFit(vcs, n, |vels|)
    requires forall i, j :: 0 <= i < n && 0 <= j < vcs[i].pointCount ==>
               vcs[i].Point(j).normalImpulse == 0.0 && vcs[i].Point(j).tangentImpulse == 0.0
    ensures WarmStarted(vcs, vels, n) == vels
    decreases n
  {
    if n > 0 {
      WarmStartWithoutImpulses(vcs, vels, n - 1);
      var vc := vcs[n - 1];
      WarmStartFromZero(vc, MotionOf(vels, vc.indexA, vc.indexB), vc.pointCount);
      assert WithMotion(vels, vc.indexA, vc.indexB, MotionOf(vels, vc.indexA, vc.indexB)) == vels;
    }
  }

  // ---------------------------------------------------------------------
  // solveVelocityConstraints

  /** The constraints and velocities after one velocity iteration over constraints `0 .. n-1` in order. */
  function VelocitySolved(vcs: seq<VelocityConstraint>, vels: seq<Velocity>, n: int)
    : (r: (seq<VelocityConstraint>, seq<Velocity>))
    requires VelocitiesFit(vcs, n, |vels|)
    ensures |r.0| == |vcs| && |r.1| == |vels|
    decreases n
  {
    if n == 0 then (vcs, vels)
    else
      var (cs, vs) := VelocitySolved(vcs, vels, n - 1);
      var vc := vcs[n - 1];
      var (c, m) := SolveVelocity(vc, MotionOf(vs, vc.indexA, vc.indexB));
      (cs[n - 1 := c], WithMotion(vs, vc.indexA, vc.indexB, m))
  }

  /**
   * A velocity iteration changes only the points of the constraints (their
   * impulses), and leaves the constraints from `n` on as they were.
   */
  lemma {:induction false} VelocitySolvedKeeps(vcs: seq<VelocityConstraint>, vels: seq<Velocity>, n: int)
    requires VelocitiesFit(vcs, n, |vels|)
    ensures var r := VelocitySolved(vcs, vels, n).0;
            (forall i :: 0 <= i < |vcs| ==> r[i].(point1 := vcs[i].point1, point2 := vcs[i].point2) == vcs[i]) &&
            (forall i :: n <= i < |vcs| ==> r[i] == vcs[i])
    decreases n
  {
    if n > 0 {
      VelocitySolvedKeeps(vcs, vels, n - 1);
      var (cs, vs) := VelocitySolved(vcs, vels, n - 1);
      var vc := vcs[n - 1];
      var c := SolveVelocity(vc, MotionOf(vs, vc.indexA, vc.indexB)).0;
      assert VelocitySolved(vcs, vels, n).0 == cs[n - 1 := c];
      assert c.(point1 := vc.point1, point2 := vc.point2) == vc;
    }
  }

  /** One more constraint of a velocity iteration, from the state the previous ones left. */
  lemma VelocitySolvedStep(vcs: seq<VelocityConstraint>, vels: seq<Velocity>, i: int)
    requires 0 <= i < |vcs| && VelocitiesFit(vcs, i + 1, |vels|)
    ensures var (cs, vs) := VelocitySolved(vcs, vels, i);
            cs[i] == vcs[i] &&
            var (c, m) := SolveVelocity(vcs[i], MotionOf(vs, vcs[i].indexA, vcs[i].indexB));
            VelocitySolved(vcs, vels, i + 1) == (cs[i := c], WithMotion(vs, vcs[i].indexA, vcs[i].indexB, m))
  {
    VelocitySolvedKeeps(vcs, vels, i);
  }

  /** A velocity iteration keeps each constraint's bodies, point count and contact, so the constraints still fit. */
  lemma VelocitySolvedFits(vcs: seq<VelocityConstraint>, vels: seq<Velocity>, n: int)
    requires VelocitiesFit(vcs, n, |vels|)
    ensures VelocitiesFit(VelocitySolved(vcs, vels, n).0, n, |vels|)
    ensures forall i :: 0 <= i < |vcs| ==> VelocitySolved(vcs, vels, n).0[i].contactIndex == vcs[i].contactIndex
  {
    var r := VelocitySolved(vcs, vels, n).0;
    VelocitySolvedKeeps(vcs, vels, n);
    forall i | 0 <= i < |vcs|
      ensures r[i].indexA == vcs[i].indexA && r[i].indexB == vcs[i].indexB
      ensures r[i].pointCount == vcs[i].pointCount && r[i].contactIndex == vcs[i].contactIndex
    {
      assert r[i].(point1 := vcs[i].point1, point2 := vcs[i].point2) == vcs[i];
    }
  }

  /** Every constraint `0 .. n-1` has non-negative normal impulses at the points in use. */
  predicate ImpulsesNonNegative(vcs: seq<VelocityConstraint>, n: int)
    requires 0 <= n <= |vcs|
  {
    forall i :: 0 <= i < n && 0 <= vcs[i].pointCount <= 2 ==> NormalImpulsesNonNegative(vcs[i])
  }

  /** A velocity iteration keeps every accumulated normal impulse non-negative. */
  lemma {:induction false} VelocitySolvedKeepsImpulsesNonNegative(vcs: seq<VelocityConstraint>, vels: seq<Velocity>,
                                                                  n: int, total: int)
    requires VelocitiesFit(vcs, total, |vels|) && 0 <= n <= total && ImpulsesNonNegative(vcs, total)
    ensures ImpulsesNonNegative(VelocitySolved(vcs, vels, n).0, total)
    decreases n
  {
    if n > 0 {
      VelocitySolvedKeepsImpulsesNonNegative(vcs, vels, n - 1, total);
      var (cs, vs) := VelocitySolved(vcs, vels, n - 1);
      var vc := vcs[n - 1];
      SolveVelocityKeepsImpulsesNonNegative(vc, MotionOf(vs, vc.indexA, vc.indexB));
      assert VelocitySolved(vcs, vels, n).0 == cs[n - 1 := SolveVelocity(vc, MotionOf(vs, vc.indexA, vc.indexB)).0];
    }
  }

  /** A velocity iteration leaves the velocity of a static body, and of a body no constraint touches, as it was. */
  lemma {:induction false} VelocitySolvedKeepsStaticBodies(vcs: seq<VelocityConstraint>, vels: seq<Velocity>, n: int, k: int)
    requires VelocitiesFit(vcs, n, |vels|) && 0 <= k < |vels| && StaticBody(vcs, n, k)
    ensures VelocitySolved(vcs, vels, n).1[k] == vels[k]
    decreases n
  {
    if n > 0 {
      VelocitySolvedKeepsStaticBodies(vcs, vels, n - 1, k);
      var (cs, vs) := VelocitySolved(vcs, vels, n - 1);
      var vc := vcs[n - 1];
      SolveVelocityKeepsStatic(vc, MotionOf(vs, vc.indexA, vc.indexB));
    }
  }

  // ---------------------------------------------------------------------
  // storeImpulses

  /** The impulses of points `0 .. n-1` of a constraint written into the manifold's points. */
  function StorePoints(vc: VelocityConstraint, m: Manifold, n: int): (r: Manifold)
    requires 0 <= n <= 2
    ensures r.(point1 := m.point1, point2 := m.point2) == m
    decreases n
  {
    if n == 0 then m
    else
      var prev := StorePoints(vc, m, n - 1);
      prev.WithPoint(n - 1, prev.Point(n - 1).(normalImpulse := vc.Point(n - 1).normalImpulse,
                                              tangentImpulse := vc.Point(n - 1).tangentImpulse))
  }

  /**
   * The write-back copies both impulses of the points in use into the
   * manifold and keeps their local points and ids; the manifold points
   * beyond the constraint's count are untouched.
   */
  lemma StorePointsWritesBack(vc: VelocityConstraint, m: Manifold, j: int)
    requires 1 <= vc.pointCount <= 2 && 0 <= j < 2
    ensures var r := StorePoints(vc, m, vc.pointCount);
            (j < vc.pointCount ==>
               r.Point(j).normalImpulse == vc.Point(j).normalImpulse &&
               r.Point(j).tangentImpulse == vc.Point(j).tangentImpulse &&
               r.Point(j).localPoint == m.Point(j).localPoint && r.Point(j).id == m.Point(j).id) &&
            (j >= vc.pointCount ==> r.Point(j) == m.Point(j))
  {
  }

  /** The contacts after the impulses of constraints `0 .. n-1` are stored in order. */
  function Stored(vcs: seq<VelocityConstraint>, contacts: seq<Contact>, n: int): (r: seq<Contact>)
    requires 0 <= n <= |vcs|
    requires forall i :: 0 <= i < n ==> 0 <= vcs[i].contactIndex < |contacts| && 0 <= vcs[i].pointCount <= 2
    ensures |r| == |contacts|
    decreases n
  {
    if n == 0 then contacts
    else
      var prev := Stored(vcs, contacts, n - 1);
      var vc := vcs[n - 1];
      var c := prev[vc.contactIndex];
      prev[vc.contactIndex := c.(manifold := StorePoints(vc, c.manifold, vc.pointCount))]
  }

  /**
   * With constraint `i` belonging to contact `i`, as `init` arranges,
   * storing gives each of the first `n` contacts its own constraint's
   * impulses and leaves the other contacts alone.
   */
  lemma {:induction false} StoredOwnContacts(vcs: seq<VelocityConstraint>, contacts: seq<Contact>, n: int)
    requires 0 <= n <= |vcs| && n <= |contacts|
    requires forall i :: 0 <= i < n ==> vcs[i].contactIndex == i && 0 <= vcs[i].pointCount <= 2
    ensures forall k :: 0 <= k < |contacts| ==>
              Stored(vcs, contacts, n)[k] ==
                if k < n then contacts[k].(manifold := StorePoints(vcs[k], contacts[k].manifold, vcs[k].pointCount))
                else contacts[k]
    decreases n
  {
    if n > 0 {
      StoredOwnContacts(vcs, contacts, n - 1);
    }
  }

  // ---------------------------------------------------------------------
  // solvePositionConstraints and solveTOIPositionConstraints

  /** The regular position solver, or the one for the time of impact of two bodies. */
  datatype SolveMode = Regular | Impact(toiIndexA: int, toiIndexB: int)

  function ModeMasses(pc: PositionConstraint, mode: SolveMode): Masses
  {
    match mode
    case Regular => ConstraintMasses(pc)
    case Impact(a, b) => ImpactMasses(pc, a, b)
  }

  function ModeBaumgarte(mode: SolveMode, cfg: Config): real
  {
    if mode.Regular? then cfg.baumgarte else cfg.toiBaugarte
  }

  /** The positions and the separations seen after one position iteration over constraints `0 .. n-1`. */
  function PositionsSolved(pcs: seq<PositionConstraint>, poss: seq<Position>, n: int, mode: SolveMode,
                           cfg: Config, ext: Externals): (r: (seq<Position>, seq<real>))
    requires cfg.Valid() && PositionsFit(pcs, n, |poss|)
    ensures |r.0| == |poss|
    decreases n
  {
    if n == 0 then (poss, [])
    else
      var (ps, seps) := PositionsSolved(pcs, poss, n - 1, mode, cfg, ext);
      var pc := pcs[n - 1];
      var (pl, s) := PositionPoints(pc, PlacementOf(ps, pc.indexA, pc.indexB), ModeMasses(pc, mode),
                                    ModeBaumgarte(mode, cfg), cfg, ext, pc.pointCount);
      (WithPlacement(ps, pc.indexA, pc.indexB, pl), seps + s)
  }

  /** One more constraint of a position iteration, from the state the previous ones left. */
  lemma PositionsSolvedStep(pcs: seq<PositionConstraint>, poss: seq<Position>, i: int, mode: SolveMode,
                            cfg: Config, ext: Externals)
    requires cfg.Valid() && 0 <= i < |pcs| && PositionsFit(pcs, i + 1, |poss|)
    ensures var (ps, seps) := PositionsSolved(pcs, poss, i, mode, cfg, ext);
            var pc := pcs[i];
            var (pl, s) := PositionPoints(pc, PlacementOf(ps, pc.indexA, pc.indexB), ModeMasses(pc, mode),
                                          ModeBaumgarte(mode, cfg), cfg, ext, pc.pointCount);
            PositionsSolved(pcs, poss, i + 1, mode, cfg, ext) == (WithPlacement(ps, pc.indexA, pc.indexB, pl), seps + s)
  {
  }

  /** A body that takes part in every position constraint with zero inverse mass and inertia does not move. */
  lemma {:induction false} PositionsSolvedKeepBody(pcs: seq<PositionConstraint>, poss: seq<Position>, n: int,
                                                   mode: SolveMode, cfg: Config, ext: Externals, k: int)
    requires cfg.Valid() && PositionsFit(pcs, n, |poss|) && 0 <= k < |poss|
    requires forall i :: 0 <= i < n ==>
               (pcs[i].indexA == k ==> ModeMasses(pcs[i], mode).mA == 0.0 && ModeMasses(pcs[i], mode).iA == 0.0) &&
               (pcs[i].indexB == k ==> ModeMasses(pcs[i], mode).mB == 0.0 && ModeMasses(pcs[i], mode).iB == 0.0)
    ensures PositionsSolved(pcs, poss, n, mode, cfg, ext).0[k] == poss[k]
    decreases n
  {
    if n > 0 {
      PositionsSolvedKeepBody(pcs, poss, n - 1, mode, cfg, ext, k);
      var ps := PositionsSolved(pcs, poss, n - 1, mode, cfg, ext).0;
      var pc := pcs[n - 1];
      PositionPointsKeepHeavyBodies(pc, PlacementOf(ps, pc.indexA, pc.indexB), ModeMasses(pc, mode),
                                    ModeBaumgarte(mode, cfg), cfg, ext, pc.pointCount);
    }
  }

  /** The time-of-impact solver moves no body but the two of the impact. */
  lemma ImpactMovesOnlyImpactBodies(pcs: seq<PositionConstraint>, poss: seq<Position>, n: int,
                                    toiIndexA: int, toiIndexB: int, cfg: Config, ext: Externals, k: int)
    requires cfg.Valid() && PositionsFit(pcs, n, |poss|) && 0 <= k < |poss| && k != toiIndexA && k != toiIndexB
    ensures PositionsSolved(pcs, poss, n, Impact(toiIndexA, toiIndexB), cfg, ext).0[k] == poss[k]
  {
    PositionsSolvedKeepBody(pcs, poss, n, Impact(toiIndexA, toiIndexB), cfg, ext, k);
  }

  /** The smallest separation of an iteration, starting from 0, reaches `t` exactly when every separation does. */
  lemma SmallestSeparation(seps: seq<real>, t: real)
    requires t <= 0.0
    ensures MinOf(0.0, seps) >= t <==> forall k :: 0 <= k < |seps| ==> seps[k] >= t
  {
    MinOfAtLeast(0.0, seps, t);
  }

  // ---------------------------------------------------------------------
  // One constraint at a time: the inner loops of the solver's passes

  /** Warm starting one constraint: the accumulated impulses of its points applied in order. */
  method WarmStartConstraint(vc: VelocityConstraint, m0: Motion) returns (m: Motion)
    requires 0 <= vc.pointCount <= 2
    ensures m == WarmStartPoints(vc, m0, vc.pointCount)
  {
    m := m0;
    var j := 0;
    while j < vc.pointCount
      invariant 0 <= j <= vc.pointCount
      invariant m == WarmStartPoints(vc, m0, j)
    {
      m := WarmStartPoint(vc, vc.Point(j), m);
      j := j + 1;
    }
  }

  /**
   * Preparing one constraint at the bodies' placement and motion: the world
   * manifold, then each point's anchors, masses and bias, then the block
   * matrices for two points.
   */
  method PrepareConstraint(vc: VelocityConstraint, pc: PositionConstraint, manifold: Manifold, pos: Placement,
                           m: Motion, ext: Externals, velocityThreshold: real) returns (r: VelocityConstraint)
    requires 0 <= vc.pointCount <= 2
    ensures r == InitializeVelocity(vc, pc, manifold, pos, m, ext, velocityThreshold)
  {
    var xfA := BodyTransform(pos.cA, pos.aA, pc.localCenterA, ext.rotation);
    var xfB := BodyTransform(pos.cB, pos.aB, pc.localCenterB, ext.rotation);
    var wm := ext.worldManifold(manifold, xfA, pc.radiusA, xfB, pc.radiusB);
    r := vc.(normal := wm.normal);
    var j := 0;
    while j < r.pointCount
      invariant 0 <= j <= r.pointCount == vc.pointCount
      invariant PreparePoints(r, wm, pos.cA, pos.cB, m, velocityThreshold, ext.invert, j) ==
                InitializeVelocity(vc, pc, manifold, pos, m, ext, velocityThreshold)
    {
      r := r.WithPoint(j, SetUpPoint(r, r.Point(j), wm.Point(j), pos.cA, pos.cB, m, velocityThreshold));
      j := j + 1;
    }
    if r.pointCount == 2 {
      r := PrepareBlock(r, ext.invert);
    }
  }

  /** One velocity iteration of one constraint: the friction rows of its points in order, then its normal rows. */
  method SolveConstraint(vc: VelocityConstraint, m0: Motion) returns (c: VelocityConstraint, m: Motion)
    requires 1 <= vc.pointCount <= 2
    ensures (c, m) == SolveVelocity(vc, m0)
  {
    c, m := vc, m0;
    var j := 0;
    while j < vc.pointCount
      invariant 0 <= j <= c.pointCount == vc.pointCount
      invariant SolveRows(c, m, j) == SolveVelocity(vc, m0)
    {
      var (p, m') := FrictionPoint(c, c.Point(j), m);
      c, m := c.WithPoint(j, p), m';
      j := j + 1;
    }
    var (c', m') := NormalRows(c, m);
    c, m := c', m';
  }

  /** The impulses of one constraint's points written into its contact's manifold. */
  method StoreConstraint(vc: VelocityConstraint, manifold0: Manifold) returns (manifold: Manifold)
    requires 0 <= vc.pointCount <= 2
    ensures manifold == StorePoints(vc, manifold0, vc.pointCount)
  {
    manifold := manifold0;
    var j := 0;
    while j < vc.pointCount
      invariant 0 <= j <= vc.pointCount
      invariant manifold == StorePoints(vc, manifold0, j)
    {
      var cp := manifold.Point(j);
      manifold := manifold.WithPoint(j, cp.(normalImpulse := vc.Point(j).normalImpulse,
                                           tangentImpulse := vc.Point(j).tangentImpulse));
      j := j + 1;
    }
  }

  /**
   * One position iteration of one constraint: each point in order pushes
   * the two bodies apart, and the smallest separation so far takes in the
   * separation the point saw.
   */
  method SolvePositionConstraint(pc: PositionConstraint, pl0: Placement, ms: Masses, baumgarte: real,
                                 cfg: Config, ext: Externals, minSeparation0: real)
    returns (pl: Placement, minSeparation: real)
    requires 0 <= pc.pointCount <= 2 && cfg.Valid()
    ensures pl == PositionPoints(pc, pl0, ms, baumgarte, cfg, ext, pc.pointCount).0
    ensures minSeparation == MinOf(minSeparation0, PositionPoints(pc, pl0, ms, baumgarte, cfg, ext, pc.pointCount).1)
  {
    pl, minSeparation := pl0, minSeparation0;
    var j := 0;
    while j < pc.pointCount
      invariant 0 <= j <= pc.pointCount
      invariant pl == PositionPoints(pc, pl0, ms, baumgarte, cfg, ext, j).0
      invariant minSeparation == MinOf(minSeparation0, PositionPoints(pc, pl0, ms, baumgarte, cfg, ext, j).1)
    {
      var st := PositionStepAt(pc, pl, j, ms, baumgarte, cfg, ext);
      ghost var seen := PositionPoints(pc, pl0, ms, baumgarte, cfg, ext, j).1;
      assert (seen + [st.sp.separation])[..|seen|] == seen;
      minSeparation := MathUtils.Min(minSeparation, st.sp.separation);
      pl := Push(pl, st, ms);
      j := j + 1;
    }
  }

  /** The velocity iteration over the constraints `0 .. n-1` of `vcs`, in place on them and on `vels`. */
  method SolveVelocityPass(vcs: array<VelocityConstraint>, vels: array<Velocity>, n: int)
    requires VelocitiesFit(vcs[..], n, vels.Length)
    modifies vcs, vels
    ensures (vcs[..], vels[..]) == VelocitySolved(old(vcs[..]), old(vels[..]), n)
  {
    ghost var vcs0 := vcs[..];
    ghost var vels0 := vels[..];
    var i := 0;
    while i < n
      invariant 0 <= i <= n
      invariant (vcs[..], vels[..]) == VelocitySolved(vcs0, vels0, i)
    {
      VelocitySolvedStep(vcs0, vels0, i);
      SolveVelocityAt(vcs, vels, i);
      i := i + 1;
    }
  }

  /** Constraint `i` of `vcs` solved once, in place on it and on the velocities of its two bodies. */
  method SolveVelocityAt(vcs: array<VelocityConstraint>, vels: array<Velocity>, i: int)
    requires 0 <= i < vcs.Length && VelocityFits(vcs[i], vels.Length)
    modifies vcs, vels
    ensures var vc := old(vcs[i]);
            var (c, m) := SolveVelocity(vc, MotionOf(old(vels[..]), vc.indexA, vc.indexB));
            vcs[..] == old(vcs[..])[i := c] && vels[..] == WithMotion(old(vels[..]), vc.indexA, vc.indexB, m)
  {
    var vc := vcs[i];
    var solved, m := SolveConstraint(vc, Motion(vels[vc.indexA].v, vels[vc.indexA].w, vels[vc.indexB].v, vels[vc.indexB].w));
    vcs[i] := solved;
    vels[vc.indexA] := Velocity(m.vA, m.wA);
    vels[vc.indexB] := Velocity(m.vB, m.wB);
  }

  /**
   * The position iteration over the constraints `0 .. n-1` of `pcs` in the
   * given mode, in place on `poss`; the result is the smallest separation
   * seen, starting from 0.
   */
  method SolvePositionPass(pcs: array<PositionConstraint>, poss: array<Position>, n: int, mode: SolveMode,
                           cfg: Config, ext: Externals) returns (minSeparation: real)
    requires cfg.Valid() && PositionsFit(pcs[..], n, poss.Length)
    modifies poss
    ensures poss[..] == PositionsSolved(pcs[..], old(poss[..]), n, mode, cfg, ext).0
    ensures minSeparation == MinOf(0.0, PositionsSolved(pcs[..], old(poss[..]), n, mode, cfg, ext).1)
  {
    ghost var poss0 := poss[..];
    ghost var seps: seq<real> := [];
    minSeparation := 0.0;
    var i := 0;
    while i < n
      invariant 0 <= i <= n
      invariant (poss[..], seps) == PositionsSolved(pcs[..], poss0, i, mode, cfg, ext)
      invariant minSeparation == MinOf(0.0, seps)
    {
      PositionsSolvedStep(pcs[..], poss0, i, mode, cfg, ext);
      var pc := pcs[i];
      ghost var local :=
        PositionPoints(pc, PlacementOf(poss[..], pc.indexA, pc.indexB), ModeMasses(pc, mode), ModeBaumgarte(mode, cfg),
                       cfg, ext, pc.pointCount).1;
      MinOfAppend(0.0, seps, local);
      minSeparation := SolvePositionAt(pc, poss, mode, cfg, ext, minSeparation);
      seps := seps + local;
      i := i + 1;
    }
  }

  /**
   * Constraint `pc` solved once in the given mode, in place on the
   * positions of its two bodies; the smallest separation so far takes in
   * the separations its points saw.
   */
  method SolvePositionAt(pc: PositionConstraint, poss: array<Position>, mode: SolveMode, cfg: Config, ext: Externals,
                         minSeparation0: real) returns (minSeparation: real)
    requires cfg.Valid() && PositionFits(pc, poss.Length)
    modifies poss
    ensures var (pl, seps) := PositionPoints(pc, PlacementOf(old(poss[..]), pc.indexA, pc.indexB), ModeMasses(pc, mode),
                                             ModeBaumgarte(mode, cfg), cfg, ext, pc.pointCount);
            poss[..] == WithPlacement(old(poss[..]), pc.indexA, pc.indexB, pl) && minSeparation == MinOf(minSeparation0, seps)
  {
    var ms := ModeMasses(pc, mode);
    var baumgarte := ModeBaumgarte(mode, cfg);
    var pl := Placement(poss[pc.indexA].c, poss[pc.indexA].a, poss[pc.indexB].c, poss[pc.indexB].a);
    pl, minSeparation := SolvePositionConstraint(pc, pl, ms, baumgarte, cfg, ext, minSeparation0);
    poss[pc.indexA] := Position(pl.cA, pl.aA);
    poss[pc.indexB] := Position(pl.cB, pl.aB);
  }

  /** Constraint `vc` prepared against the positions `poss` and velocities `vels` of the island and the manifold of its contact. */
  function Initialized(vc: VelocityConstraint, pc: PositionConstraint, poss: seq<Position>, vels: seq<Velocity>,
                       contacts: seq<Contact>, cfg: Config, ext: Externals): VelocityConstraint
    requires VelocityFits(vc, |vels|) && |poss| == |vels| && 0 <= vc.contactIndex < |contacts|
  {
    InitializeVelocity(vc, pc, contacts[vc.contactIndex].manifold, PlacementOf(poss, vc.indexA, vc.indexB),
                       MotionOf(vels, vc.indexA, vc.indexB), ext, cfg.velocityThreshold)
  }

  /** Constraint `i` of `vcs` prepared in place against the positions, velocities and contacts of the island. */
  method InitializeAt(vcs: array<VelocityConstraint>, pc: PositionConstraint, poss: array<Position>,
                      vels: array<Velocity>, contacts: array<Contact>, i: int, cfg: Config, ext: Externals)
    requires 0 <= i < vcs.Length && VelocityFits(vcs[i], vels.Length) && poss.Length == vels.Length
    requires 0 <= vcs[i].contactIndex < contacts.Length
    modifies vcs
    ensures vcs[..] == old(vcs[..])[i := Initialized(old(vcs[i]), pc, poss[..], vels[..], contacts[..], cfg, ext)]
  {
    var vc := vcs[i];
    var manifold := contacts[vc.contactIndex].manifold;
    var pos := Placement(poss[vc.indexA].c, poss[vc.indexA].a, poss[vc.indexB].c, poss[vc.indexB].a);
    var m := Motion(vels[vc.indexA].v, vels[vc.indexA].w, vels[vc.indexB].v, vels[vc.indexB].w);
    var prepared := PrepareConstraint(vc, pc, manifold, pos, m, ext, cfg.velocityThreshold);
    vcs[i] := prepared;
  }

  /** The accumulated impulses of `vc` applied in place to the velocities of its two bodies. */
  method WarmStartAt(vc: VelocityConstraint, vels: array<Velocity>)
    requires VelocityFits(vc, vels.Length)
    modifies vels
    ensures vels[..] == WithMotion(old(vels[..]), vc.indexA, vc.indexB,
                                   WarmStartPoints(vc, MotionOf(old(vels[..]), vc.indexA, vc.indexB), vc.pointCount))
  {
    var m := WarmStartConstraint(vc, Motion(vels[vc.indexA].v, vels[vc.indexA].w, vels[vc.indexB].v, vels[vc.indexB].w));
    vels[vc.indexA] := Velocity(m.vA, m.wA);
    vels[vc.indexB] := Velocity(m.vB, m.wB);
  }

  /** The constraints number `i` of `vcs` and `pcs` set up in place from `contact`. */
  method SetUpAt(vcs: array<VelocityConstraint>, pcs: array<PositionConstraint>, contact: Contact, i: int, step: TimeStep)
    requires 0 <= i < vcs.Length && i < pcs.Length && 1 <= contact.manifold.pointCount <= 2
    modifies vcs, pcs
    ensures vcs[..] == old(vcs[..])[i := SetUpVelocity(old(vcs[i]), contact, i, step)]
    ensures pcs[..] == old(pcs[..])[i := SetUpPosition(old(pcs[i]), contact)]
  {
    var vc, pc := SetUpConstraint(vcs[i], pcs[i], contact, i, step);
    vcs[i] := vc;
    pcs[i] := pc;
  }

  // ---------------------------------------------------------------------
  // The solver

  class ContactSolver {
    var step: TimeStep
    var positions: array<Position>
    var velocities: array<Velocity>
    var positionConstraints: array<PositionConstraint>
    var velocityConstraints: array<VelocityConstraint>
    var contacts: array<Contact>
    var count: int

    /** The solver holds `count` constraints that fit the island's bodies and contacts. */
    predicate Ready()
      reads this, positionConstraints, velocityConstraints
    {
      0 <= count <= velocityConstraints.Length && count <= positionConstraints.Length &&
      positions.Length == velocities.Length &&
      VelocitiesFit(velocityConstraints[..], count, velocities.Length) &&
      PositionsFit(positionConstraints[..], count, positions.Length) &&
      forall i :: 0 <= i < count ==> 0 <= velocityConstraints[i].contactIndex < contacts.Length
    }

    /** A solver with room for `InitialNumConstraints` blank constraints and no island yet. */
    constructor ()
      ensures positionConstraints.Length == InitialNumConstraints && velocityConstraints.Length == InitialNumConstraints
      ensures forall i :: 0 <= i < InitialNumConstraints ==>
                positionConstraints[i] == BlankPositionConstraint && velocityConstraints[i] == BlankVelocityConstraint
      ensures fresh(positionConstraints) && fresh(velocityConstraints)
      ensures count == 0 && Ready()
    {
      positionConstraints := new PositionConstraint[InitialNumConstraints](_ => BlankPositionConstraint);
      velocityConstraints := new VelocityConstraint[InitialNumConstraints](_ => BlankVelocityConstraint);
      positions := new Position[0];
      velocities := new Velocity[0];
      contacts := new Contact[0];
      step := TimeStep(0.0, false);
      count := 0;
    }

    /**
     * Room for `n` position constraints: an array that is too short is
     * replaced by one of `GrownLength` entries that starts with the old
     * entries and continues with blank ones.
     */
    method GrowPositionConstraints(n: MathUtils.Int32)
      requires 0 <= n && positionConstraints.Length <= MathUtils.Int32Max
      modifies this`positionConstraints
      ensures positionConstraints.Length >= n
      ensures old(positionConstraints.Length) >= n ==> positionConstraints == old(positionConstraints)
      ensures old(positionConstraints.Length) < n ==>
                fresh(positionConstraints) && positionConstraints.Length == GrownLength(old(positionConstraints.Length), n)
      ensures forall i :: 0 <= i < positionConstraints.Length ==>
                positionConstraints[i] == Reused(old(positionConstraints[..]), i, BlankPositionConstraint)
    {
      if positionConstraints.Length < n {
        var previous := positionConstraints;
        var grown := new PositionConstraint[GrownLength(previous.Length, n)](_ => BlankPositionConstraint);
        var i := 0;
        while i < previous.Length
          invariant 0 <= i <= previous.Length
          invariant forall k :: 0 <= k < grown.Length ==> grown[k] == if k < i then previous[k] else BlankPositionConstraint
        {
          grown[i] := previous[i];
          i := i + 1;
        }
        positionConstraints := grown;
      }
    }

    /** Room for `n` velocity constraints, grown as `GrowPositionConstraints` does. */
    method GrowVelocityConstraints(n: MathUtils.Int32)
      requires 0 <= n && velocityConstraints.Length <= MathUtils.Int32Max
      modifies this`velocityConstraints
      ensures velocityConstraints.Length >= n
      ensures old(velocityConstraints.Length) >= n ==> velocityConstraints == old(velocityConstraints)
      ensures old(velocityConstraints.Length) < n ==>
                fresh(velocityConstraints) && velocityConstraints.Length == GrownLength(old(velocityConstraints.Length), n)
      ensures forall i :: 0 <= i < velocityConstraints.Length ==>
                velocityConstraints[i] == Reused(old(velocityConstraints[..]), i, BlankVelocityConstraint)
    {
      if velocityConstraints.Length < n {
        var previous := velocityConstraints;
        var grown := new VelocityConstraint[GrownLength(previous.Length, n)](_ => BlankVelocityConstraint);
        var i := 0;
        while i < previous.Length
          invariant 0 <= i <= previous.Length
          invariant forall k :: 0 <= k < grown.Length ==> grown[k] == if k < i then previous[k] else BlankVelocityConstraint
        {
          grown[i] := previous[i];
          i := i + 1;
        }
        velocityConstraints := grown;
      }
    }

    /**
     * Takes the island's contacts and bodies: the constraint arrays grow to
     * hold `n` constraints, and constraint `i` is set up from contact `i`,
     * its points seeded with the manifold's impulses when warm starting.
     */
    method Init(stepIn: TimeStep, n: MathUtils.Int32, positionsIn: array<Position>, velocitiesIn: array<Velocity>,
                contactsIn: array<Contact>)
      requires 0 <= n <= contactsIn.Length && positionsIn.Length == velocitiesIn.Length
      requires positionConstraints.Length <= MathUtils.Int32Max && velocityConstraints.Length <= MathUtils.Int32Max
      requires forall i :: 0 <= i < n ==>
                 BodiesFit(contactsIn[i].bodyA.islandIndex, contactsIn[i].bodyB.islandIndex, positionsIn.Length) &&
                 1 <= contactsIn[i].manifold.pointCount <= 2
      modifies this, positionConstraints, velocityConstraints
      ensures Ready() && count == n && step == stepIn
      ensures positions == positionsIn && velocities == velocitiesIn && contacts == contactsIn
      ensures old(positionConstraints.Length) >= n ==> positionConstraints == old(positionConstraints)
      ensures old(positionConstraints.Length) < n ==>
                fresh(positionConstraints) && positionConstraints.Length == GrownLength(old(positionConstraints.Length), n)
      ensures old(velocityConstraints.Length) >= n ==> velocityConstraints == old(velocityConstraints)
      ensures old(velocityConstraints.Length) < n ==>
                fresh(velocityConstraints) && velocityConstraints.Length == GrownLength(old(velocityConstraints.Length), n)
      ensures forall i :: 0 <= i < velocityConstraints.Length ==>
                var reused := Reused(old(velocityConstraints[..]), i, BlankVelocityConstraint);
                velocityConstraints[i] == if i < n then SetUpVelocity(reused, contactsIn[i], i, stepIn) else reused
      ensures forall i :: 0 <= i < positionConstraints.Length ==>
                var reused := Reused(old(positionConstraints[..]), i, BlankPositionConstraint);
                positionConstraints[i] == if i < n then SetUpPosition(reused, contactsIn[i]) else reused
    {
      step := stepIn;
      count := n;
      GrowPositionConstraints(n);
      GrowVelocityConstraints(n);
      positions := positionsIn;
      velocities := velocitiesIn;
      contacts := contactsIn;
      SetUpConstraints();
    }

    /** Sets up constraints `0 .. count-1` from the contacts of the same index, in place. */
    method SetUpConstraints()
      requires 0 <= count <= contacts.Length && count <= velocityConstraints.Length && count <= positionConstraints.Length
      requires positions.Length == velocities.Length
      requires forall i :: 0 <= i < count ==>
                 BodiesFit(contacts[i].bodyA.islandIndex, contacts[i].bodyB.islandIndex, positions.Length) &&
                 1 <= contacts[i].manifold.pointCount <= 2
      modifies velocityConstraints, positionConstraints
      ensures Ready()
      ensures forall i :: 0 <= i < velocityConstraints.Length ==>
                velocityConstraints[i] ==
                  if i < count then SetUpVelocity(old(velocityConstraints[i]), contacts[i], i, step)
                  else old(velocityConstraints[i])
      ensures forall i :: 0 <= i < positionConstraints.Length ==>
                positionConstraints[i] ==
                  if i < count then SetUpPosition(old(positionConstraints[i]), contacts[i]) else old(positionConstraints[i])
    {
      ghost var vcs0 := velocityConstraints[..];
      ghost var pcs0 := positionConstraints[..];
      ghost var cs := contacts[..];
      var i := 0;
      while i < count
        invariant 0 <= i <= count
        invariant forall k :: 0 <= k < |vcs0| ==>
                    velocityConstraints[k] == if k < i then SetUpVelocity(vcs0[k], cs[k], k, step) else vcs0[k]
        invariant forall k :: 0 <= k < |pcs0| ==>
                    positionConstraints[k] == if k < i then SetUpPosition(pcs0[k], cs[k]) else pcs0[k]
      {
        SetUpAt(velocityConstraints, positionConstraints, contacts[i], i, step);
        i := i + 1;
      }
      forall k | 0 <= k < count
        ensures VelocityFits(velocityConstraints[k], velocities.Length) && velocityConstraints[k].contactIndex == k
        ensures PositionFits(positionConstraints[k], positions.Length)
      {
        SetUpFits(old(velocityConstraints[k]), old(positionConstraints[k]), contacts[k], k, step, positions.Length);
      }
    }

    /** Applies each constraint's accumulated impulses to the velocities of its bodies, constraint by constraint. */
    method WarmStart()
      requires Ready()
      modifies velocities
      ensures velocities[..] == WarmStarted(velocityConstraints[..], old(velocities[..]), count)
    {
      ghost var vcs := velocityConstraints[..];
      ghost var vels0 := velocities[..];
      var i := 0;
      while i < count
        invariant 0 <= i <= count
        invariant velocities[..] == WarmStarted(vcs, vels0, i)
      {
        WarmStartAt(velocityConstraints[i], velocities);
        i := i + 1;
      }
    }

    /**
     * Prepares every velocity constraint for the iterations: world normal
     * and anchors, effective masses, restitution bias, and the block
     * solver's matrices or a fall-back to one point.
     */
    method InitializeVelocityConstraints(cfg: Config, ext: Externals)
      requires Ready()
      modifies velocityConstraints
      ensures Ready()
      ensures forall i :: 0 <= i < velocityConstraints.Length ==>
                velocityConstraints[i] ==
                  if i < count
                  then Initialized(old(velocityConstraints[i]), positionConstraints[i], positions[..], velocities[..],
                                   contacts[..], cfg, ext)
                  else old(velocityConstraints[i])
    {
      ghost var vcs0 := velocityConstraints[..];
      ghost var pcs := positionConstraints[..];
      ghost var poss := positions[..];
      ghost var vels := velocities[..];
      ghost var cs := contacts[..];
      var i := 0;
      while i < count
        invariant 0 <= i <= count
        invariant forall k :: 0 <= k < |vcs0| ==>
                    velocityConstraints[k] == if k < i then Initialized(vcs0[k], pcs[k], poss, vels, cs, cfg, ext) else vcs0[k]
      {
        InitializeAt(velocityConstraints, positionConstraints[i], positions, velocities, contacts, i, cfg, ext);
        i := i + 1;
      }
      forall k | 0 <= k < count
        ensures VelocityFits(velocityConstraints[k], velocities.Length)
        ensures velocityConstraints[k].contactIndex == vcs0[k].contactIndex
      {
        var vc := vcs0[k];
        InitializeVelocityKeeps(vc, pcs[k], cs[vc.contactIndex].manifold, PlacementOf(poss, vc.indexA, vc.indexB),
                                MotionOf(vels, vc.indexA, vc.indexB), ext, cfg.velocityThreshold);
      }
    }

    /**
     * One velocity iteration: for each constraint in turn, the friction
     * rows of its points and then its normal rows, each applied at once to
     * the velocities of its two bodies.
     */
    method SolveVelocityConstraints()
      requires Ready()
      modifies velocities, velocityConstraints
      ensures Ready()
      ensures (velocityConstraints[..], velocities[..]) ==
              VelocitySolved(old(velocityConstraints[..]), old(velocities[..]), count)
    {
      ghost var vcs0 := velocityConstraints[..];
      ghost var vels0 := velocities[..];
      SolveVelocityPass(velocityConstraints, velocities, count);
      VelocitySolvedFits(vcs0, vels0, count);
    }

    /** Writes each constraint's accumulated impulses back into the manifold points of its contact. */
    method StoreImpulses()
      requires Ready()
      modifies contacts
      ensures contacts[..] == Stored(velocityConstraints[..], old(contacts[..]), count)
    {
      ghost var vcs := velocityConstraints[..];
      ghost var contacts0 := contacts[..];
      var i := 0;
      while i < count
        invariant 0 <= i <= count
        invariant contacts[..] == Stored(vcs, contacts0, i)
      {
        var vc := velocityConstraints[i];
        var manifold := StoreConstraint(vc, contacts[vc.contactIndex].manifold);
        contacts[vc.contactIndex] := contacts[vc.contactIndex].(manifold := manifold);
        i := i + 1;
      }
    }

    /**
     * One position iteration in the given mode: for each constraint in
     * turn, each point pushes the two bodies apart; the result is the
     * smallest separation seen, and at most 0.
     */
    method SolvePositions(mode: SolveMode, cfg: Config, ext: Externals) returns (minSeparation: real)
      requires Ready() && cfg.Valid()
      modifies positions
      ensures positions[..] == PositionsSolved(positionConstraints[..], old(positions[..]), count, mode, cfg, ext).0
      ensures minSeparation == MinOf(0.0, PositionsSolved(positionConstraints[..], old(positions[..]), count, mode, cfg, ext).1)
      ensures minSeparation <= 0.0
    {
      minSeparation := SolvePositionPass(positionConstraints, positions, count, mode, cfg, ext);
      MinOfAtMost(0.0, PositionsSolved(positionConstraints[..], old(positions[..]), count, mode, cfg, ext).1);
    }

    /**
     * One regular position iteration; the answer is whether every
     * separation seen was at least `-3 linearSlop`.
     */
    method SolvePositionConstraints(cfg: Config, ext: Externals) returns (ok: bool)
      requires Ready() && cfg.Valid()
      modifies positions
      ensures positions[..] == PositionsSolved(positionConstraints[..], old(positions[..]), count, Regular, cfg, ext).0
      ensures var seps := PositionsSolved(positionConstraints[..], old(positions[..]), count, Regular, cfg, ext).1;
              ok <==> forall k :: 0 <= k < |seps| ==> seps[k] >= -3.0 * cfg.linearSlop
    {
      var minSeparation := SolvePositions(Regular, cfg, ext);
      ok := minSeparation >= -3.0 * cfg.linearSlop;
      SmallestSeparation(PositionsSolved(positionConstraints[..], old(positions[..]), count, Regular, cfg, ext).1,
                         -3.0 * cfg.linearSlop);
    }

    /**
     * One position iteration at a time of impact, in which only the bodies
     * `toiIndexA` and `toiIndexB` move; the answer is whether every
     * separation seen was at least `-1.5 linearSlop`.
     */
    method SolveTOIPositionConstraints(toiIndexA: int, toiIndexB: int, cfg: Config, ext: Externals) returns (ok: bool)
      requires Ready() && cfg.Valid()
      modifies positions
      ensures positions[..] ==
              PositionsSolved(positionConstraints[..], old(positions[..]), count, Impact(toiIndexA, toiIndexB), cfg, ext).0
      ensures var seps := PositionsSolved(positionConstraints[..], old(positions[..]), count,
                                          Impact(toiIndexA, toiIndexB), cfg, ext).1;
              ok <==> forall k :: 0 <= k < |seps| ==> seps[k] >= -1.5 * cfg.linearSlop
      ensures forall k :: 0 <= k < positions.Length && k != toiIndexA && k != toiIndexB ==> positions[k] == old(positions[k])
    {
      ghost var poss0 := positions[..];
      var minSeparation := SolvePositions(Impact(toiIndexA, toiIndexB), cfg, ext);
      ok := minSeparation >= -1.5 * cfg.linearSlop;
      SmallestSeparation(PositionsSolved(positionConstraints[..], poss0, count, Impact(toiIndexA, toiIndexB), cfg, ext).1,
                         -1.5 * cfg.linearSlop);
      forall k | 0 <= k < positions.Length && k != toiIndexA && k != toiIndexB
        ensures positions[k] == poss0[k]
      {
        ImpactMovesOnlyImpactBodies(positionConstraints[..], poss0, count, toiIndexA, toiIndexB, cfg, ext, k);
      }
    }
  }
}
