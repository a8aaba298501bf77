# jbox2d contact solver, GJK distance and edge shape in Dafny

This project models the core of the jbox2d physics engine that resolves
contacts between rigid bodies, and proves properties of that model.

- **Contact solver** (`contact_solver.dfy`, `velocity_rows.dfy`, `position_rows.dfy`, `contact_data.dfy`).
  `ContactSolver` keeps one velocity constraint and one position constraint per contact of an island.
  - The constraint arrays are fields that grow by doubling when they are too short.
  - The solver works in place on the island's arrays of body positions and velocities.
  - Every pass is proved equal to a fold of per-constraint functions over the constraints in order. The passes are warm start, velocity iteration, impulse write-back and position iteration.
  - Lemmas about those functions state what the solver promises:
    - friction is clamped to the Coulomb cone;
    - normal impulses stay non-negative;
    - the two-point block solver returns a complementarity solution;
    - static bodies do not move;
    - the time-of-impact solver moves only the two impact bodies;
    - stored impulses reach their own contacts.
- **GJK distance** (`distance.dfy`).
  - The simplex, its cache and the distance routine are classes whose methods are proved against value functions.
  - The lemmas cover the Voronoi-region reductions (weights positive and summing to 1, the foot of the perpendicular, the barycentric origin of a triangle), the cache round trip, the witness points and the effect of the radii.
- **Edge shape** (`edge_shape.dfy`): the segment shape, with its distance to a point, ray cast, bounding box and mass.
- **Vectors and math helpers** (`vec2.dfy`, `math_utils.dfy`).
  - The mutable `Vec2` is a class over a value type.
  - `MathUtils` covers the integer bit tricks on 32-bit words, Java's saturating `(int)` cast, clamping, mapping and the power-of-two helpers.

Java `float` is modelled as `real`. Java `int` is modelled as a 32-bit range with explicit wrap-around, or as `bv32` for bit tricks. The collaborators whose code is not part of this model are passed in as functions (`Externals`):

- the rotation of an angle (`Rot.set`);
- the inverse of a 2x2 matrix;
- `WorldManifold.initialize`;
- the square root.

The model follows the code where it departs from the engine's design.

- **`Solve3`, edge 1-2 region.** In the trunk `Distance.java`, this region sets both weights to `d12_1 / (d12_1 + d12_2)`, and `Distances.Solve3Edge12Weights` states exactly that.
- **`getClosestPoint`.** A one-point simplex falls through to the two-point formula.
- **`Vec2.normalize`.** A vector shorter than epsilon is left unchanged, not zeroed.
- **The GJK progress test.** Its `break` is commented out, so it has no effect.
- **`EdgeShape.raycast`.** It never reads `input.maxFraction`: any hit with a fraction from 0 to 1 is reported, and `Edges.EdgeRayCast` does the same.

## Model

| member | source | states |
|---|---|---|
| ContactSolvers.ContactSolver.constructor | jbox2d-library/src/main/java/de/pirckheimer_gymnasium/jbox2d/dynamics/contacts/ContactSolver.java:75-84 | a new solver has 256 blank position and velocity constraints and no contacts |
| ContactSolvers.GrownLength | jbox2d-library/src/main/java/de/pirckheimer_gymnasium/jbox2d/dynamics/contacts/ContactSolver.java:91-112 | the grown length of a constraint array (Java `int` doubling or the count) always covers the count |
| ContactSolvers.GrownLengthDoubles | jbox2d-library/src/main/java/de/pirckheimer_gymnasium/jbox2d/dynamics/contacts/ContactSolver.java:91-112 | the new length is twice the old one unless the count is larger, then it is the count |
| ContactSolvers.ContactSolver.GrowPositionConstraints | jbox2d-library/src/main/java/de/pirckheimer_gymnasium/jbox2d/dynamics/contacts/ContactSolver.java:91-101 | a long enough array is kept as it is; a short one is replaced by an array of the grown length that starts with the old entries and continues with blank ones |
| ContactSolvers.ContactSolver.GrowVelocityConstraints | jbox2d-library/src/main/java/de/pirckheimer_gymnasium/jbox2d/dynamics/contacts/ContactSolver.java:102-112 | the same for the velocity constraints |
| ContactSolvers.ContactSolver.Init | jbox2d-library/src/main/java/de/pirckheimer_gymnasium/jbox2d/dynamics/contacts/ContactSolver.java:86-186 | takes the step, the count, the bodies and the contacts; grows both arrays; sets constraint `i` up from contact `i` and keeps every entry beyond `count`; the solver is then ready |
| ContactSolvers.SetUpConstraint | jbox2d-library/src/main/java/de/pirckheimer_gymnasium/jbox2d/dynamics/contacts/ContactSolver.java:116-185 | the per-contact loop body builds exactly the velocity and position constraints that `SetUpVelocity` and `SetUpPosition` specify |
| ContactSolvers.ContactSolver.SetUpConstraints | jbox2d-library/src/main/java/de/pirckheimer_gymnasium/jbox2d/dynamics/contacts/ContactSolver.java:116-185 | constraint `i < count` of both arrays is set up from contact `i` and the others are unchanged; every constraint set up fits the island and names its own contact |
| ContactSolvers.SetUpAt | jbox2d-library/src/main/java/de/pirckheimer_gymnasium/jbox2d/dynamics/contacts/ContactSolver.java:116-185 | one pass of the per-contact loop of `init`: entry `i` of the velocity constraints becomes `SetUpVelocity` of its old value and the contact, entry `i` of the position constraints becomes `SetUpPosition`, and every other entry of both arrays is unchanged |
| ContactSolvers.SetUpFits | jbox2d-library/src/main/java/de/pirckheimer_gymnasium/jbox2d/dynamics/contacts/ContactSolver.java:130-158 | the constraints of a contact between two different island bodies fit the island and keep the contact's index and point count |
| VelocityRows.SetUpVelocitySeeds | jbox2d-library/src/main/java/de/pirckheimer_gymnasium/jbox2d/dynamics/contacts/ContactSolver.java:132-181 | the constraint takes the contact's friction, restitution, tangent speed, body island indices, inverse masses and inertias, its index and point count, with `K` and `normalMass` cleared and the normal kept; each point in use carries the manifold point's impulses times `dtRatio` when warm starting and zero impulses otherwise, with anchors, both masses and the bias cleared; the other points are untouched |
| VelocityRows.SeedPointNonNegative | jbox2d-library/src/main/java/de/pirckheimer_gymnasium/jbox2d/dynamics/contacts/ContactSolver.java:165-177 | non-negative stored impulses and ratio seed non-negative normal impulses |
| VelocityRows.SeedPoints | jbox2d-library/src/main/java/de/pirckheimer_gymnasium/jbox2d/dynamics/contacts/ContactSolver.java:161-177 | seeding changes only the points of the constraint |
| VelocityRows.SetUpPositionCopies | jbox2d-library/src/main/java/de/pirckheimer_gymnasium/jbox2d/dynamics/contacts/ContactSolver.java:144-158 | the position constraint carries the contact's bodies, radii, manifold normal, point and type, and the local points of the manifold points in use; the others are untouched |
| VelocityRows.CopyLocalPoints | jbox2d-library/src/main/java/de/pirckheimer_gymnasium/jbox2d/dynamics/contacts/ContactSolver.java:182-183 | copying the local points changes nothing else of the constraint |
| ContactSolvers.WarmStartConstraint | jbox2d-library/src/main/java/de/pirckheimer_gymnasium/jbox2d/dynamics/contacts/ContactSolver.java:209-222 | the point loop of warm start applies each point's accumulated impulses in order |
| ContactSolvers.ContactSolver.WarmStart | jbox2d-library/src/main/java/de/pirckheimer_gymnasium/jbox2d/dynamics/contacts/ContactSolver.java:189-226 | the velocities become the fold of warm starting over the constraints `0 .. count-1` in order |
| ContactSolvers.WarmStartAt | jbox2d-library/src/main/java/de/pirckheimer_gymnasium/jbox2d/dynamics/contacts/ContactSolver.java:192-225 | one pass of the warm-start loop: the velocities of the constraint's two bodies become `WarmStartPoints` of their old values, written back by `WithMotion`, and no other body's velocity changes |
| ContactSolvers.WarmStarted | jbox2d-library/src/main/java/de/pirckheimer_gymnasium/jbox2d/dynamics/contacts/ContactSolver.java:189-226 | warm starting keeps the number of bodies |
| ContactSolvers.WarmStartKeepsStaticBodies | jbox2d-library/src/main/java/de/pirckheimer_gymnasium/jbox2d/dynamics/contacts/ContactSolver.java:209-222 | a body with zero inverse mass and inertia in every constraint on it, or on no constraint, keeps its velocity |
| ContactSolvers.WarmStartWithoutImpulses | jbox2d-library/src/main/java/de/pirckheimer_gymnasium/jbox2d/dynamics/contacts/ContactSolver.java:165-177 | with all impulses zero, as after `init` with warm starting off, warm starting changes nothing |
| VelocityRows.WarmStartFromZero | jbox2d-library/src/main/java/de/pirckheimer_gymnasium/jbox2d/dynamics/contacts/ContactSolver.java:209-222 | zero impulses leave the two bodies' velocities alone |
| VelocityRows.WarmStartKeepsStatic | jbox2d-library/src/main/java/de/pirckheimer_gymnasium/jbox2d/dynamics/contacts/ContactSolver.java:209-222 | warm starting does not move a static body |
| VelocityRows.ApplyImpulseEqualAndOpposite | jbox2d-library/src/main/java/de/pirckheimer_gymnasium/jbox2d/dynamics/contacts/ContactSolver.java:215-221 | an impulse changes A's and B's momenta by equal and opposite amounts and each angular velocity by the moment of the impulse |
| VelocityRows.ApplyImpulseKeepsStatic | jbox2d-library/src/main/java/de/pirckheimer_gymnasium/jbox2d/dynamics/contacts/ContactSolver.java:215-221 | an impulse does not move a body of zero inverse mass and inertia |
| VelocityRows.ApplyZeroImpulse | jbox2d-library/src/main/java/de/pirckheimer_gymnasium/jbox2d/dynamics/contacts/ContactSolver.java:215-221 | a zero impulse changes nothing |
| ContactSolvers.PrepareConstraint | jbox2d-library/src/main/java/de/pirckheimer_gymnasium/jbox2d/dynamics/contacts/ContactSolver.java:262-336 | the loop over one constraint's points, then the block preparation, computes `InitializeVelocity` |
| ContactSolvers.ContactSolver.InitializeVelocityConstraints | jbox2d-library/src/main/java/de/pirckheimer_gymnasium/jbox2d/dynamics/contacts/ContactSolver.java:235-338 | constraint `i < count` becomes its preparation against the island's positions, velocities and its contact's manifold; the others are unchanged; the solver stays ready |
| ContactSolvers.InitializeAt | jbox2d-library/src/main/java/de/pirckheimer_gymnasium/jbox2d/dynamics/contacts/ContactSolver.java:238-337 | one pass of the loop of `initializeVelocityConstraints`: entry `i` becomes `InitializeVelocity` of its old value against its bodies' positions and velocities and its contact's manifold; every other entry is unchanged |
| VelocityRows.InitializeVelocityKeeps | jbox2d-library/src/main/java/de/pirckheimer_gymnasium/jbox2d/dynamics/contacts/ContactSolver.java:235-338 | preparation keeps the bodies, the contact index and the accumulated impulses, and can only lower the point count from 2 to 1 |
| VelocityRows.PreparePointsKeep | jbox2d-library/src/main/java/de/pirckheimer_gymnasium/jbox2d/dynamics/contacts/ContactSolver.java:279-336 | the same for the points from `j` on and the block preparation |
| VelocityRows.InverseMass | jbox2d-library/src/main/java/de/pirckheimer_gymnasium/jbox2d/dynamics/contacts/ContactSolver.java:289-298 | a positive effective mass `k` gives `r` with `r * k == 1`; a non-positive one gives 0 |
| VelocityRows.RowMassBound | jbox2d-library/src/main/java/de/pirckheimer_gymnasium/jbox2d/dynamics/contacts/ContactSolver.java:289-298 | with non-negative inverse masses and inertias the effective mass is at least `mA + mB` |
| VelocityRows.RowInverseMass | jbox2d-library/src/main/java/de/pirckheimer_gymnasium/jbox2d/dynamics/contacts/ContactSolver.java:289-298 | a row mass is `1/k` for positive `k`, otherwise 0, never negative, and positive when the total inverse mass is |
| VelocityRows.RestitutionBias | jbox2d-library/src/main/java/de/pirckheimer_gymnasium/jbox2d/dynamics/contacts/ContactSolver.java:300-307 | only an approach faster than the threshold bounces, with bias `-restitution * vRel`; otherwise the bias is 0 |
| VelocityRows.RestitutionBiasNonNegative | jbox2d-library/src/main/java/de/pirckheimer_gymnasium/jbox2d/dynamics/contacts/ContactSolver.java:300-307 | a non-negative restitution and threshold give a non-negative bias |
| VelocityRows.SetUpPointMasses | jbox2d-library/src/main/java/de/pirckheimer_gymnasium/jbox2d/dynamics/contacts/ContactSolver.java:279-308 | a prepared point has normal and tangent masses that are inverses of positive effective masses or 0, a non-negative bias that is 0 unless the bodies approach fast enough, and its old impulses |
| VelocityRows.BlockMatrixSymmetric | jbox2d-library/src/main/java/de/pirckheimer_gymnasium/jbox2d/dynamics/contacts/ContactSolver.java:314-327 | the 2x2 effective mass matrix K is symmetric |
| VelocityRows.WellConditionedIsRegular | jbox2d-library/src/main/java/de/pirckheimer_gymnasium/jbox2d/dynamics/contacts/ContactSolver.java:318-329 | a K that passes the condition-number test has a positive determinant |
| VelocityRows.PrepareBlockInvertsOnlyRegular | jbox2d-library/src/main/java/de/pirckheimer_gymnasium/jbox2d/dynamics/contacts/ContactSolver.java:310-336 | K is kept with its inverse as normal mass only when well conditioned (so invertible); otherwise the point count drops to 1 and the matrices are untouched |
| ContactSolvers.SolveConstraint | jbox2d-library/src/main/java/de/pirckheimer_gymnasium/jbox2d/dynamics/contacts/ContactSolver.java:344-730 | the loops of one constraint's velocity iteration compute `SolveVelocity` |
| ContactSolvers.SolveVelocityPass | jbox2d-library/src/main/java/de/pirckheimer_gymnasium/jbox2d/dynamics/contacts/ContactSolver.java:340-732 | solving constraints `0 .. n-1` in place gives the fold `VelocitySolved` of the constraints and velocities |
| ContactSolvers.SolveVelocityAt | jbox2d-library/src/main/java/de/pirckheimer_gymnasium/jbox2d/dynamics/contacts/ContactSolver.java:342-731 | one pass of the loop of `solveVelocityConstraints`: entry `i` becomes the constraint `SolveVelocity` returns from the old constraint and its bodies' old velocities, and the velocities become `WithMotion` of the two bodies' new motion, as written back at lines 727-730; every other entry is unchanged |
| ContactSolvers.ContactSolver.SolveVelocityConstraints | jbox2d-library/src/main/java/de/pirckheimer_gymnasium/jbox2d/dynamics/contacts/ContactSolver.java:340-732 | one velocity iteration over all constraints equals `VelocitySolved`, and the solver stays ready |
| ContactSolvers.VelocitySolved | jbox2d-library/src/main/java/de/pirckheimer_gymnasium/jbox2d/dynamics/contacts/ContactSolver.java:340-732 | an iteration keeps the number of constraints and of bodies |
| ContactSolvers.VelocitySolvedKeeps | jbox2d-library/src/main/java/de/pirckheimer_gymnasium/jbox2d/dynamics/contacts/ContactSolver.java:340-732 | an iteration changes only the points (impulses) of constraints `0 .. n-1` and leaves the later constraints as they were |
| ContactSolvers.VelocitySolvedStep | jbox2d-library/src/main/java/de/pirckheimer_gymnasium/jbox2d/dynamics/contacts/ContactSolver.java:344-730 | constraint `i` is solved from the state the first `i` constraints left |
| ContactSolvers.VelocitySolvedFits | jbox2d-library/src/main/java/de/pirckheimer_gymnasium/jbox2d/dynamics/contacts/ContactSolver.java:340-732 | the constraints keep their bodies, point counts and contacts, so they still fit the island |
| ContactSolvers.VelocitySolvedKeepsImpulsesNonNegative | jbox2d-library/src/main/java/de/pirckheimer_gymnasium/jbox2d/dynamics/contacts/ContactSolver.java:394-725 | non-negative accumulated normal impulses stay non-negative through an iteration (the block solver asserts this at 475-477) |
| ContactSolvers.VelocitySolvedKeepsStaticBodies | jbox2d-library/src/main/java/de/pirckheimer_gymnasium/jbox2d/dynamics/contacts/ContactSolver.java:340-732 | a body that is static in every constraint on it, or in none, keeps its velocity |
| VelocityRows.SolveVelocity | jbox2d-library/src/main/java/de/pirckheimer_gymnasium/jbox2d/dynamics/contacts/ContactSolver.java:344-730 | one iteration of a constraint changes nothing of it but its points |
| VelocityRows.SolveRows | jbox2d-library/src/main/java/de/pirckheimer_gymnasium/jbox2d/dynamics/contacts/ContactSolver.java:364-725 | the rows from point `j` on change nothing of the constraint but its points |
| VelocityRows.FrictionClamp | jbox2d-library/src/main/java/de/pirckheimer_gymnasium/jbox2d/dynamics/contacts/ContactSolver.java:364-392 | the friction impulse is clamped into `[-friction * normalImpulse, friction * normalImpulse]` and equals the unclamped update inside it; the applied impulse is the change along the tangent; nothing else of the point changes |
| VelocityRows.NormalPointClamp | jbox2d-library/src/main/java/de/pirckheimer_gymnasium/jbox2d/dynamics/contacts/ContactSolver.java:394-420 | the single-point normal impulse becomes `max(old + lambda, 0)` and the applied impulse is its change along the normal |
| VelocityRows.BlockSolveComplementarity | jbox2d-library/src/main/java/de/pirckheimer_gymnasium/jbox2d/dynamics/contacts/ContactSolver.java:421-725 | the block solver's outcome is a complementarity solution for `b' = vn - bias - K a`: accepted impulses are non-negative, an inactive point has zero impulse and non-negative normal speed, and with no solution the old impulses stay |
| VelocityRows.BlockTryComplementarity | jbox2d-library/src/main/java/de/pirckheimer_gymnasium/jbox2d/dynamics/contacts/ContactSolver.java:496-724 | every outcome of the case enumeration from any case on is complementary and keeps `b'` |
| VelocityRows.SolveVelocityKeepsStatic | jbox2d-library/src/main/java/de/pirckheimer_gymnasium/jbox2d/dynamics/contacts/ContactSolver.java:344-730 | a velocity iteration does not move a static body |
| VelocityRows.SolveRowsKeepStatic | jbox2d-library/src/main/java/de/pirckheimer_gymnasium/jbox2d/dynamics/contacts/ContactSolver.java:364-725 | the rows from point `j` on do not move a static body |
| VelocityRows.FrictionPointKeepsStatic | jbox2d-library/src/main/java/de/pirckheimer_gymnasium/jbox2d/dynamics/contacts/ContactSolver.java:364-392 | a friction row does not move a static body |
| VelocityRows.NormalRowsKeepStatic | jbox2d-library/src/main/java/de/pirckheimer_gymnasium/jbox2d/dynamics/contacts/ContactSolver.java:394-725 | the normal rows do not move a static body |
| VelocityRows.BlockApplyKeepsStatic | jbox2d-library/src/main/java/de/pirckheimer_gymnasium/jbox2d/dynamics/contacts/ContactSolver.java:496-721 | the block solver's impulses do not move a static body |
| VelocityRows.SolveVelocityKeepsImpulsesNonNegative | jbox2d-library/src/main/java/de/pirckheimer_gymnasium/jbox2d/dynamics/contacts/ContactSolver.java:394-725 | one iteration keeps the normal impulses of the points in use non-negative |
| VelocityRows.SolveRowsKeepImpulsesNonNegative | jbox2d-library/src/main/java/de/pirckheimer_gymnasium/jbox2d/dynamics/contacts/ContactSolver.java:364-725 | friction rows leave the normal impulses alone and the normal rows keep them non-negative |
| VelocityRows.NormalRowsKeepImpulsesNonNegative | jbox2d-library/src/main/java/de/pirckheimer_gymnasium/jbox2d/dynamics/contacts/ContactSolver.java:394-725 | the normal rows keep the impulses non-negative, and with no block solution change neither impulses nor velocities |
| ContactSolvers.StoreConstraint | jbox2d-library/src/main/java/de/pirckheimer_gymnasium/jbox2d/dynamics/contacts/ContactSolver.java:740-744 | the loop over one constraint's points writes `StorePoints` |
| ContactSolvers.ContactSolver.StoreImpulses | jbox2d-library/src/main/java/de/pirckheimer_gymnasium/jbox2d/dynamics/contacts/ContactSolver.java:734-746 | the contacts become the fold `Stored` of the constraints `0 .. count-1` |
| ContactSolvers.StorePoints | jbox2d-library/src/main/java/de/pirckheimer_gymnasium/jbox2d/dynamics/contacts/ContactSolver.java:737-744 | storing changes nothing of a manifold but its points |
| ContactSolvers.StorePointsWritesBack | jbox2d-library/src/main/java/de/pirckheimer_gymnasium/jbox2d/dynamics/contacts/ContactSolver.java:737-744 | the points in use get both impulses of the constraint's points and keep local point and id; the other points are untouched |
| ContactSolvers.Stored | jbox2d-library/src/main/java/de/pirckheimer_gymnasium/jbox2d/dynamics/contacts/ContactSolver.java:734-746 | storing keeps the number of contacts |
| ContactSolvers.StoredOwnContacts | jbox2d-library/src/main/java/de/pirckheimer_gymnasium/jbox2d/dynamics/contacts/ContactSolver.java:734-746 | with constraint `i` belonging to contact `i`, each of the first `n` contacts gets its own constraint's impulses and the others are unchanged |
| PositionRows.CirclesSeparation | jbox2d-library/src/main/java/de/pirckheimer_gymnasium/jbox2d/dynamics/contacts/ContactSolver.java:978-1008 | for circles further apart than epsilon the normal is the unit vector from A's centre to B's, the point their midpoint, the separation the centre distance less both radii |
| PositionRows.CirclesShortNormal | jbox2d-library/src/main/java/de/pirckheimer_gymnasium/jbox2d/dynamics/contacts/ContactSolver.java:978-1008 | closer centres keep the unnormalised offset as normal |
| PositionRows.FaceASeparation | jbox2d-library/src/main/java/de/pirckheimer_gymnasium/jbox2d/dynamics/contacts/ContactSolver.java:1010-1038 | for a face of A the normal is A's rotated face normal, the point B's clip point, the separation its height over the face in A's frame less both radii |
| PositionRows.FaceBNormalPointsFromAToB | jbox2d-library/src/main/java/de/pirckheimer_gymnasium/jbox2d/dynamics/contacts/ContactSolver.java:1040-1073 | for a face of B the normal is B's face normal turned around to point from A to B, and the separation is A's clip point's height over B's face less both radii |
| PositionRows.ImpactMasses | jbox2d-library/src/main/java/de/pirckheimer_gymnasium/jbox2d/dynamics/contacts/ContactSolver.java:873-886 | in the time-of-impact solver a body other than the two impact bodies moves with zero inverse mass and inertia; an impact body with its own |
| PositionRows.CorrectionBounds | jbox2d-library/src/main/java/de/pirckheimer_gymnasium/jbox2d/dynamics/contacts/ContactSolver.java:829-831 | the correction lies in `[-maxLinearCorrection, 0]`, is 0 exactly within the slop, and is the scaled penetration below the limit |
| PositionRows.PositionImpulseSign | jbox2d-library/src/main/java/de/pirckheimer_gymnasium/jbox2d/dynamics/contacts/ContactSolver.java:833-837 | the pseudo-impulse is non-negative, and 0 for a zero correction or a non-positive mass |
| PositionRows.PositionPoints | jbox2d-library/src/main/java/de/pirckheimer_gymnasium/jbox2d/dynamics/contacts/ContactSolver.java:818-852 | one separation is seen per point solved |
| PositionRows.PositionStepPushesApart | jbox2d-library/src/main/java/de/pirckheimer_gymnasium/jbox2d/dynamics/contacts/ContactSolver.java:818-845 | each point's impulse is non-negative, so it pushes the bodies apart, and is 0 within the slop or with no positive mass |
| PositionRows.PushKeepsHeavyBodies | jbox2d-library/src/main/java/de/pirckheimer_gymnasium/jbox2d/dynamics/contacts/ContactSolver.java:838-845 | a body of zero inverse mass and inertia is not moved by a step |
| PositionRows.PositionPointsKeepHeavyBodies | jbox2d-library/src/main/java/de/pirckheimer_gymnasium/jbox2d/dynamics/contacts/ContactSolver.java:818-852 | such a body keeps its place through all points of a constraint |
| PositionRows.MinOfAtLeast | jbox2d-library/src/main/java/de/pirckheimer_gymnasium/jbox2d/dynamics/contacts/ContactSolver.java:827 | the running minimum is at least `t` exactly when the start and every separation are |
| PositionRows.MinOfAtMost | jbox2d-library/src/main/java/de/pirckheimer_gymnasium/jbox2d/dynamics/contacts/ContactSolver.java:827 | the running minimum is never above its start and never above any separation taken in |
| PositionRows.MinOfAppend | jbox2d-library/src/main/java/de/pirckheimer_gymnasium/jbox2d/dynamics/contacts/ContactSolver.java:827 | carrying the minimum across constraints is the minimum over all their separations |
| ContactSolvers.SolvePositionConstraint | jbox2d-library/src/main/java/de/pirckheimer_gymnasium/jbox2d/dynamics/contacts/ContactSolver.java:818-852 | the point loop of one constraint gives the placement and running minimum of `PositionPoints` |
| ContactSolvers.SolvePositionPass | jbox2d-library/src/main/java/de/pirckheimer_gymnasium/jbox2d/dynamics/contacts/ContactSolver.java:779-855 | the positions become the fold `PositionsSolved`, and the result is the minimum of 0 and every separation seen |
| ContactSolvers.SolvePositionAt | jbox2d-library/src/main/java/de/pirckheimer_gymnasium/jbox2d/dynamics/contacts/ContactSolver.java:782-852 | one pass of the loop of `solvePositionConstraints` (and, in impact mode, of `solveTOIPositionConstraints`): the positions become `WithPlacement` of the placement `PositionPoints` computes for the two bodies, and the running minimum takes in that constraint's separations |
| ContactSolvers.PositionsSolved | jbox2d-library/src/main/java/de/pirckheimer_gymnasium/jbox2d/dynamics/contacts/ContactSolver.java:779-855 | an iteration keeps the number of bodies |
| ContactSolvers.PositionsSolvedStep | jbox2d-library/src/main/java/de/pirckheimer_gymnasium/jbox2d/dynamics/contacts/ContactSolver.java:785-852 | constraint `i` is solved from the positions the first `i` left, and its separations are appended |
| ContactSolvers.PositionsSolvedKeepBody | jbox2d-library/src/main/java/de/pirckheimer_gymnasium/jbox2d/dynamics/contacts/ContactSolver.java:838-845 | a body that has zero inverse mass and inertia in every constraint on it does not move |
| ContactSolvers.ImpactMovesOnlyImpactBodies | jbox2d-library/src/main/java/de/pirckheimer_gymnasium/jbox2d/dynamics/contacts/ContactSolver.java:858-945 | the time-of-impact iteration moves no body but the two impact bodies |
| ContactSolvers.SmallestSeparation | jbox2d-library/src/main/java/de/pirckheimer_gymnasium/jbox2d/dynamics/contacts/ContactSolver.java:854 | the minimum separation from 0 reaches `t` exactly when every separation does |
| ContactSolvers.ContactSolver.SolvePositions | jbox2d-library/src/main/java/de/pirckheimer_gymnasium/jbox2d/dynamics/contacts/ContactSolver.java:779-945 | one position iteration in either mode gives `PositionsSolved` and its smallest separation, which is at most 0 because the minimum starts from 0 |
| ContactSolvers.ContactSolver.SolvePositionConstraints | jbox2d-library/src/main/java/de/pirckheimer_gymnasium/jbox2d/dynamics/contacts/ContactSolver.java:779-855 | the positions after a regular iteration, and `true` exactly when every separation seen was at least `-3 linearSlop` |
| ContactSolvers.ContactSolver.SolveTOIPositionConstraints | jbox2d-library/src/main/java/de/pirckheimer_gymnasium/jbox2d/dynamics/contacts/ContactSolver.java:858-945 | the positions after an impact iteration, `true` exactly when every separation was at least `-1.5 linearSlop`, and every other body unmoved |
| ContactSolvers.WithMotion | jbox2d-library/src/main/java/de/pirckheimer_gymnasium/jbox2d/dynamics/contacts/ContactSolver.java:727-730 | writing two bodies' velocities back changes those two entries and no other |
| ContactSolvers.WithPlacement | jbox2d-library/src/main/java/de/pirckheimer_gymnasium/jbox2d/dynamics/contacts/ContactSolver.java:847-850 | writing two bodies' positions back changes those two entries and no other |
| ContactData.BodyTransform | jbox2d-library/src/main/java/de/pirckheimer_gymnasium/jbox2d/dynamics/contacts/ContactSolver.java:262-273 | the transform built from a body's centre and angle places its local mass centre at the centre |
| Distances.Simplex.ReadCache | trunk/updating/src/org/jbox2d/collision/Distance.java:57-99 | the simplex becomes `FromCache` of the cache record, with one to three points, each a support point of the two shapes |
| Distances.FromCache | trunk/updating/src/org/jbox2d/collision/Distance.java:57-99 | the simplex read from a cache has one to three points |
| Distances.ReadCacheResult | trunk/updating/src/org/jbox2d/collision/Distance.java:57-99 | an empty or flushed cache gives the single support pair of vertices 0; any other restores the cached count and index pairs with their support points and zero weights |
| Distances.Simplex.WriteCache | trunk/updating/src/org/jbox2d/collision/Distance.java:102-110 | the cache becomes `ToCache` of the simplex: its metric, count and the index pairs in use |
| Distances.ToCache | trunk/updating/src/org/jbox2d/collision/Distance.java:102-110 | the record written is well formed |
| Distances.CacheRoundTrip | trunk/updating/src/org/jbox2d/collision/Distance.java:57-110 | a cache written from a consistent simplex that is a point or has metric at least epsilon reads back with the same count, index pairs and points |
| Distances.Simplex.GetSearchDirection | trunk/updating/src/org/jbox2d/collision/Distance.java:114-138 | the direction is `SearchDirection` and for a segment it is perpendicular to the segment |
| Distances.SearchDirectionOfSegment | trunk/updating/src/org/jbox2d/collision/Distance.java:114-138 | a segment's search direction is perpendicular to it and points to the origin's side |
| Distances.Simplex.GetClosestPoint | trunk/updating/src/org/jbox2d/collision/Distance.java:148-172 | the point is `ClosestPoint`, including the fall-through of the one-point case |
| Distances.Simplex.GetWitnessPoints | trunk/updating/src/org/jbox2d/collision/Distance.java:178-214 | the output's points become `WitnessPoints` and its distance and iterations are unchanged |
| Distances.WitnessPointsGap | trunk/updating/src/org/jbox2d/collision/Distance.java:178-214 | a segment's witness points differ by its closest point; a triangle's coincide |
| Distances.Simplex.GetMetric | trunk/updating/src/org/jbox2d/collision/Distance.java:217-240 | the result is `Metric`: 0, the segment length or the signed doubled triangle area |
| Distances.Simplex.Solve2 | trunk/updating/src/org/jbox2d/collision/Distance.java:246-275 | the simplex becomes `Solved2` with one or two points |
| Distances.Solve2Regions | trunk/updating/src/org/jbox2d/collision/Distance.java:246-275 | behind w1 keep w1 with weight 1, behind w2 keep w2 with weight 1, otherwise keep both with positive weights summing to 1 whose combination is the foot of the perpendicular from the origin |
| Distances.Simplex.Solve3 | trunk/updating/src/org/jbox2d/collision/Distance.java:289-391 | the simplex becomes `Solved3` with one to three points |
| Distances.Simplex.SolveInterior | trunk/updating/src/org/jbox2d/collision/Distance.java:385-390 | the triangle case leaves the simplex at `Solved3` with three points |
| Distances.Simplex.SolveFarFeatures | trunk/updating/src/org/jbox2d/collision/Distance.java:357-390 | the regions after w1, e12 and e13 leave the simplex at `Solved3` |
| Distances.Solve3Regions | trunk/updating/src/org/jbox2d/collision/Distance.java:289-391 | each vertex region keeps that vertex with weight 1; edges 1-3 and 2-3 keep their ends with positive weights summing to 1 at the foot on the edge; the triangle keeps three points |
| Distances.Solve3Edge13 | trunk/updating/src/org/jbox2d/collision/Distance.java:347-355 | the edge 1-3 region keeps w1 and w3 with positive weights of sum 1 at the foot of the perpendicular |
| Distances.Solve3Edge23 | trunk/updating/src/org/jbox2d/collision/Distance.java:374-383 | the edge 2-3 region keeps w3 and w2 with positive weights of sum 1 at the foot of the perpendicular |
| Distances.Solve3Edge12Weights | trunk/updating/src/org/jbox2d/collision/Distance.java:338-345 | as written, the edge 1-2 region gives both retained points the same positive weight |
| Distances.Solve3TriangleWeights | trunk/updating/src/org/jbox2d/collision/Distance.java:385-390 | in the triangle region the three weights sum to 1 and combine the three points to the origin |
| Distances.DegenerateNotTriangle | trunk/updating/src/org/jbox2d/collision/Distance.java:325-391 | a degenerate (zero-area) triangle never reaches the triangle region |
| Distances.TriangleSumNonZero | trunk/updating/src/org/jbox2d/collision/Distance.java:386 | in the triangle region the sum of the area terms is not zero, so the division is defined |
| Distances.RadiiEffect | trunk/updating/src/org/jbox2d/collision/Distance.java:539-561 | separated rounded shapes get the distance less both radii, still positive; otherwise both points go to the midpoint and the distance is 0 |
| Distances.Distance.MoveToSurfaces | trunk/updating/src/org/jbox2d/collision/Distance.java:539-561 | the output's points and distance become `ApplyRadii` of the old ones, the iteration count unchanged |
| Distances.Distance.SaveIndices | trunk/updating/src/org/jbox2d/collision/Distance.java:439-443 | the first `count` saved pairs are the simplex vertices' index pairs |
| Distances.Distance.FindDuplicate | trunk/updating/src/org/jbox2d/collision/Distance.java:507-517 | the answer is true exactly when the new support pair is one of the saved pairs |
| Distances.Distance.Step | trunk/updating/src/org/jbox2d/collision/Distance.java:438-525 | one pass of the loop keeps every point in use a support point of the two shapes; it stops on a triangle, a search direction shorter than epsilon, or a repeated support pair (saved at the slot after the last point), and a pass that goes on leaves one point more than the reduced simplex |
| Distances.Distance.ReduceSimplex | trunk/updating/src/org/jbox2d/collision/Distance.java:445-458 | the simplex becomes `Reduce` of the old one: `Solved2` for two points, `Solved3` for three |
| Distances.ReduceKeepsConsistent | trunk/updating/src/org/jbox2d/collision/Distance.java:445-458 | the reduction keeps one point up to the old count, and keeps every point in use a support point |
| Distances.Distance.AddSupportPoint | trunk/updating/src/org/jbox2d/collision/Distance.java:495-525 | the slot after the last point becomes the support point for the search direction (vertex of A furthest against it, of B furthest along it); the count grows by one exactly when that index pair is not among the saved ones; every point in use stays a support point |
| Distances.GrowKeepsConsistent | trunk/updating/src/org/jbox2d/collision/Distance.java:495-525 | adding a support point in the next free slot keeps the simplex consistent and grows its count by one |
| Distances.Distance.CountIteration | trunk/updating/src/org/jbox2d/collision/Distance.java:507-508 | `iter` grows by one and `gjkIters` is incremented once more in 32-bit arithmetic |
| Distances.IncrementedWraps | trunk/updating/src/org/jbox2d/collision/Distance.java:507-508 | incrementing a 32-bit counter `n` times gives the exact sum wrapped to 32 bits, as Java's `++` does |
| Distances.Distance.Iterate | trunk/updating/src/org/jbox2d/collision/Distance.java:434-526 | at most `gjkMaxIters` support points, each counted in `iter` and in `gjkIters` (`Incremented`); every point in use stays a support point; the reason for stopping holds of the final simplex |
| Distances.Distance.Search | trunk/updating/src/org/jbox2d/collision/Distance.java:420-528 | the simplex is read from the cache and improved, ending with one to three support points; `gjkIters` is incremented once per iteration and `gjkMaxIters` becomes the maximum of its old value and the iterations |
| Distances.Distance.Report | trunk/updating/src/org/jbox2d/collision/Distance.java:530-561 | the output holds the witness points, their distance and the iterations, with radii applied on request; the cache holds the simplex, which is unchanged |
| Distances.Distance.Compute | trunk/updating/src/org/jbox2d/collision/Distance.java:409-562 | the whole routine: counters incremented with Java wrap-around, iterations bounded, the final simplex made of one to three support points of the two shapes, the cache written from it, the output's witness points and distance |
| Distances.Distance.constructor | trunk/updating/src/org/jbox2d/collision/Distance.java:23-25 | the counters start at 0, 0 and 20 |
| Distances.SimplexCache.constructor | trunk/updating/src/org/jbox2d/collision/Distance.java:57-60 | a new cache is empty, as a first call expects |
| Distances.Simplex.SetVertex | trunk/updating/src/org/jbox2d/collision/Distance.java:38-45 | copying a vertex into a slot changes that slot only |
| Edges.EdgeShape.constructor | jbox2d-library/src/main/java/de/pirckheimer_gymnasium/jbox2d/collision/shapes/EdgeShape.java:68-73 | a new edge has zero vertices, no ghost vertices and the polygon radius |
| Edges.EdgeShape.ChildCount | jbox2d-library/src/main/java/de/pirckheimer_gymnasium/jbox2d/collision/shapes/EdgeShape.java:75-78 | an edge has one child |
| Edges.EdgeShape.TestPoint | jbox2d-library/src/main/java/de/pirckheimer_gymnasium/jbox2d/collision/shapes/EdgeShape.java:88-91 | no point is inside an edge |
| Edges.EdgeShape.Set | jbox2d-library/src/main/java/de/pirckheimer_gymnasium/jbox2d/collision/shapes/EdgeShape.java:80-86 | the two vertices are set and both ghost vertices dropped, the rest kept |
| Edges.EdgeShape.ComputeDistanceToOut | jbox2d-library/src/main/java/de/pirckheimer_gymnasium/jbox2d/collision/shapes/EdgeShape.java:97-139 | distance and normal are `EdgeDistance` of the placed segment and the point |
| Edges.SegmentOffsetInterior | jbox2d-library/src/main/java/de/pirckheimer_gymnasium/jbox2d/collision/shapes/EdgeShape.java:113-130 | for a point projecting inside the segment the offset is perpendicular to it |
| Edges.SegmentOffsetEnds | jbox2d-library/src/main/java/de/pirckheimer_gymnasium/jbox2d/collision/shapes/EdgeShape.java:113-130 | before the first end the offset is from `v1`, past the second from `v2` |
| Edges.OffsetDistanceIsLength | jbox2d-library/src/main/java/de/pirckheimer_gymnasium/jbox2d/collision/shapes/EdgeShape.java:131-138 | the distance is the length of the offset and the normal times it gives the offset back |
| Edges.OffsetDistanceNormalIsUnit | jbox2d-library/src/main/java/de/pirckheimer_gymnasium/jbox2d/collision/shapes/EdgeShape.java:131-138 | a non-zero offset gives a unit normal |
| Edges.EdgeShape.Raycast | jbox2d-library/src/main/java/de/pirckheimer_gymnasium/jbox2d/collision/shapes/EdgeShape.java:146-225 | the answer and output are `EdgeRayCast` of the segment and the ray |
| Edges.EdgeRayCast | jbox2d-library/src/main/java/de/pirckheimer_gymnasium/jbox2d/collision/shapes/EdgeShape.java:146-225 | a parallel ray or a zero-length edge misses; a hit has a fraction in `[0, 1]` |
| Edges.EdgeRayCastHit | jbox2d-library/src/main/java/de/pirckheimer_gymnasium/jbox2d/collision/shapes/EdgeShape.java:190-224 | a hit point lies on the edge's line within the segment, and the normal faces the ray's start |
| Edges.EdgeShape.ComputeAABB | jbox2d-library/src/main/java/de/pirckheimer_gymnasium/jbox2d/collision/shapes/EdgeShape.java:228-246 | the box is `EdgeBox`: the placed vertices' bounds widened by the radius |
| Edges.EdgeBox | jbox2d-library/src/main/java/de/pirckheimer_gymnasium/jbox2d/collision/shapes/EdgeShape.java:228-246 | with a non-negative radius the box is ordered and contains both placed vertices |
| Edges.EdgeShape.ComputeMass | jbox2d-library/src/main/java/de/pirckheimer_gymnasium/jbox2d/collision/shapes/EdgeShape.java:248-254 | an edge has zero mass and inertia and its centre at the midpoint |
| Edges.EdgeCenterIsMidpoint | jbox2d-library/src/main/java/de/pirckheimer_gymnasium/jbox2d/collision/shapes/EdgeShape.java:248-254 | the mass centre is equally far from both vertices, halfway along the edge |
| Edges.EdgeShape.Clone | jbox2d-library/src/main/java/de/pirckheimer_gymnasium/jbox2d/collision/shapes/EdgeShape.java:256-267 | the clone is a fresh edge with the same fields |
| Edges.AABB.constructor | jbox2d-library/src/main/java/de/pirckheimer_gymnasium/jbox2d/collision/shapes/EdgeShape.java:228-246 | a new box has both bounds at the origin |
| Edges.MassData.constructor | jbox2d-library/src/main/java/de/pirckheimer_gymnasium/jbox2d/collision/shapes/EdgeShape.java:248-254 | new mass data are zero |
| Edges.RayCastOutput.constructor | jbox2d-library/src/main/java/de/pirckheimer_gymnasium/jbox2d/collision/shapes/EdgeShape.java:146-225 | a new ray-cast output is zero |
| ManifoldPoints.ManifoldPoint.constructor | jbox2d-library/src/main/java/de/pirckheimer_gymnasium/jbox2d/collision/ManifoldPoint.java:68-73 | a blank point has zero local point, impulses and id |
| ManifoldPoints.ManifoldPoint.Copy | jbox2d-library/src/main/java/de/pirckheimer_gymnasium/jbox2d/collision/ManifoldPoint.java:80-86 | a copy has fresh local point and id objects with the same values |
| ManifoldPoints.ManifoldPoint.Set | jbox2d-library/src/main/java/de/pirckheimer_gymnasium/jbox2d/collision/ManifoldPoint.java:93-99 | the point takes the values of the other one, which is unchanged |
| ManifoldPoints.ContactID.constructor | jbox2d-library/src/main/java/de/pirckheimer_gymnasium/jbox2d/collision/ManifoldPoint.java:72 | a new id has key 0 |
| ManifoldPoints.ContactID.Copy | jbox2d-library/src/main/java/de/pirckheimer_gymnasium/jbox2d/collision/ManifoldPoint.java:85 | a copied id has the same key |
| ManifoldPoints.ContactID.Set | jbox2d-library/src/main/java/de/pirckheimer_gymnasium/jbox2d/collision/ManifoldPoint.java:98 | an id takes the other's key |
| Vectors.MutableVec2.constructor | jbox2d-library/src/main/java/de/pirckheimer_gymnasium/jbox2d/common/Vec2.java:60-64 | the vector holds the given coordinates |
| Vectors.MutableVec2.Origin | jbox2d-library/src/main/java/de/pirckheimer_gymnasium/jbox2d/common/Vec2.java:50-58 | a default vector is zero |
| Vectors.MutableVec2.Copy | jbox2d-library/src/main/java/de/pirckheimer_gymnasium/jbox2d/common/Vec2.java:66-72 | a copy holds the same value |
| Vectors.MutableVec2.SetZero | jbox2d-library/src/main/java/de/pirckheimer_gymnasium/jbox2d/common/Vec2.java:74-78 | the vector becomes zero |
| Vectors.MutableVec2.SetXY | jbox2d-library/src/main/java/de/pirckheimer_gymnasium/jbox2d/common/Vec2.java:83-88 | the vector takes the given coordinates |
| Vectors.MutableVec2.Set | jbox2d-library/src/main/java/de/pirckheimer_gymnasium/jbox2d/common/Vec2.java:93-98 | the vector takes the other's value |
| Vectors.MutableVec2.Add | jbox2d-library/src/main/java/de/pirckheimer_gymnasium/jbox2d/common/Vec2.java:105-108 | a fresh vector holding the sum |
| Vectors.MutableVec2.Sub | jbox2d-library/src/main/java/de/pirckheimer_gymnasium/jbox2d/common/Vec2.java:116-119 | a fresh vector holding the difference |
| Vectors.MutableVec2.Mul | jbox2d-library/src/main/java/de/pirckheimer_gymnasium/jbox2d/common/Vec2.java:126-129 | a fresh vector holding the scaled value |
| Vectors.MutableVec2.Negate | jbox2d-library/src/main/java/de/pirckheimer_gymnasium/jbox2d/common/Vec2.java:136-139 | a fresh vector holding the negation |
| Vectors.MutableVec2.NegateLocal | jbox2d-library/src/main/java/de/pirckheimer_gymnasium/jbox2d/common/Vec2.java:144-149 | the vector is negated in place |
| Vectors.MutableVec2.AddLocal | jbox2d-library/src/main/java/de/pirckheimer_gymnasium/jbox2d/common/Vec2.java:154-159 | the other vector is added in place (also when it is this one) |
| Vectors.MutableVec2.AddLocalXY | jbox2d-library/src/main/java/de/pirckheimer_gymnasium/jbox2d/common/Vec2.java:164-170 | the given offsets are added in place |
| Vectors.MutableVec2.SubLocal | jbox2d-library/src/main/java/de/pirckheimer_gymnasium/jbox2d/common/Vec2.java:175-180 | the other vector is subtracted in place |
| Vectors.MutableVec2.MulLocal | jbox2d-library/src/main/java/de/pirckheimer_gymnasium/jbox2d/common/Vec2.java:185-190 | the vector is scaled in place |
| Vectors.MutableVec2.Skew | jbox2d-library/src/main/java/de/pirckheimer_gymnasium/jbox2d/common/Vec2.java:195-198 | a fresh vector perpendicular to this one, `(-y, x)` |
| Vectors.MutableVec2.SkewToOut | jbox2d-library/src/main/java/de/pirckheimer_gymnasium/jbox2d/common/Vec2.java:203-207 | `out` becomes the skew of this vector, and `(-y, -y)` when `out` is this vector |
| Vectors.MutableVec2.Normalize | jbox2d-library/src/main/java/de/pirckheimer_gymnasium/jbox2d/common/Vec2.java:238-249 | the vector and result are `Normalized` of the old value |
| Vectors.Normalized | jbox2d-library/src/main/java/de/pirckheimer_gymnasium/jbox2d/common/Vec2.java:238-249 | a vector shorter than epsilon stays as it is with length 0; otherwise the result times the length gives the vector back |
| Vectors.NormalizedIsUnit | jbox2d-library/src/main/java/de/pirckheimer_gymnasium/jbox2d/common/Vec2.java:238-249 | a normalized vector of length at least epsilon has unit length |
| Vectors.MutableVec2.Abs | jbox2d-library/src/main/java/de/pirckheimer_gymnasium/jbox2d/common/Vec2.java:266-269 | a fresh vector of the absolute coordinates |
| Vectors.MutableVec2.AbsLocal | jbox2d-library/src/main/java/de/pirckheimer_gymnasium/jbox2d/common/Vec2.java:271-276 | the coordinates become their absolute values |
| Vectors.MutableVec2.Clone | jbox2d-library/src/main/java/de/pirckheimer_gymnasium/jbox2d/common/Vec2.java:281-284 | a fresh vector with the same value |
| Vectors.AbsVec | jbox2d-library/src/main/java/de/pirckheimer_gymnasium/jbox2d/common/Vec2.java:295-298 | both coordinates are non-negative with the old squares |
| Vectors.MutableVec2.AbsToOut | jbox2d-library/src/main/java/de/pirckheimer_gymnasium/jbox2d/common/Vec2.java:300-304 | `out` becomes the absolute value of `a` |
| Vectors.MutableVec2.CrossToOutVS | jbox2d-library/src/main/java/de/pirckheimer_gymnasium/jbox2d/common/Vec2.java:321-326 | `out` becomes `a x s`, also when it aliases `a` |
| Vectors.MutableVec2.CrossToOutUnsafeVS | jbox2d-library/src/main/java/de/pirckheimer_gymnasium/jbox2d/common/Vec2.java:328-333 | for `out` distinct from `a`, `out` becomes `a x s` |
| Vectors.MutableVec2.CrossToOutSV | jbox2d-library/src/main/java/de/pirckheimer_gymnasium/jbox2d/common/Vec2.java:340-345 | `out` becomes `s x a`, also when it aliases `a` |
| Vectors.MutableVec2.CrossToOutUnsafeSV | jbox2d-library/src/main/java/de/pirckheimer_gymnasium/jbox2d/common/Vec2.java:347-352 | for `out` distinct from `a`, `out` becomes `s x a` |
| Vectors.MutableVec2.NegateToOut | jbox2d-library/src/main/java/de/pirckheimer_gymnasium/jbox2d/common/Vec2.java:354-358 | `out` becomes the negation of `a` |
| Vectors.Min | jbox2d-library/src/main/java/de/pirckheimer_gymnasium/jbox2d/common/Vec2.java:360-363 | each coordinate is the smaller of the two |
| Vectors.Max | jbox2d-library/src/main/java/de/pirckheimer_gymnasium/jbox2d/common/Vec2.java:365-368 | each coordinate is the larger of the two |
| Vectors.MinBelowMax | jbox2d-library/src/main/java/de/pirckheimer_gymnasium/jbox2d/common/Vec2.java:360-368 | the minimum lies below the maximum and the two add up to `a + b` |
| Vectors.MutableVec2.MinToOut | jbox2d-library/src/main/java/de/pirckheimer_gymnasium/jbox2d/common/Vec2.java:370-374 | `out` becomes the coordinate-wise minimum |
| Vectors.MutableVec2.MaxToOut | jbox2d-library/src/main/java/de/pirckheimer_gymnasium/jbox2d/common/Vec2.java:376-380 | `out` becomes the coordinate-wise maximum |
| Vectors.NegateInvolutive | jbox2d-library/src/main/java/de/pirckheimer_gymnasium/jbox2d/common/Vec2.java:136-149 | negating twice gives the vector back |
| Vectors.AddSubInverse | jbox2d-library/src/main/java/de/pirckheimer_gymnasium/jbox2d/common/Vec2.java:105-119 | adding and subtracting the same vector cancel |
| Vectors.SkewDotIsCross | jbox2d-library/src/main/java/de/pirckheimer_gymnasium/jbox2d/common/Vec2.java:195-198 | the skew dotted with `w` is the cross product with `w` |
| Vectors.CrossAntisymmetric | jbox2d-library/src/main/java/de/pirckheimer_gymnasium/jbox2d/common/Vec2.java:311-314 | the cross product changes sign with its arguments and is 0 on a vector with itself |
| Vectors.CrossScalarAntisymmetric | jbox2d-library/src/main/java/de/pirckheimer_gymnasium/jbox2d/common/Vec2.java:316-338 | `s x a` is the negation of `a x s` |
| Vectors.CrossScalarPerpendicular | jbox2d-library/src/main/java/de/pirckheimer_gymnasium/jbox2d/common/Vec2.java:316-338 | both scalar cross products are perpendicular to `a` |
| Vectors.LengthSquaredIsDot | jbox2d-library/src/main/java/de/pirckheimer_gymnasium/jbox2d/common/Vec2.java:226-229 | the squared length is the vector dotted with itself and is non-negative |
| Vectors.AbsReal | jbox2d-library/src/main/java/de/pirckheimer_gymnasium/jbox2d/common/MathUtils.java:144-159 | the absolute value is non-negative and is the number or its negation |
| MathUtils.AbsIntIsNegation | jbox2d-library/src/main/java/de/pirckheimer_gymnasium/jbox2d/common/MathUtils.java:161-165 | the bit trick returns a non-negative number unchanged and negates a negative one; `Integer.MIN_VALUE` stays itself |
| MathUtils.AbsIntIdempotent | jbox2d-library/src/main/java/de/pirckheimer_gymnasium/jbox2d/common/MathUtils.java:161-165 | applying it twice is applying it once |
| MathUtils.JavaIntCast | jbox2d-library/src/main/java/de/pirckheimer_gymnasium/jbox2d/common/MathUtils.java:167-221 | Java's `(int)` cast of a float truncates inside the `int` range and saturates outside it |
| MathUtils.FastFloor | jbox2d-library/src/main/java/de/pirckheimer_gymnasium/jbox2d/common/MathUtils.java:179-187 | the floor inside the range; a too-large input gives `MAX_VALUE`, a too-small one wraps to `MAX_VALUE` |
| MathUtils.FastCeil | jbox2d-library/src/main/java/de/pirckheimer_gymnasium/jbox2d/common/MathUtils.java:201-209 | the ceiling inside the range; out-of-range inputs give `MIN_VALUE` |
| MathUtils.Floor | jbox2d-library/src/main/java/de/pirckheimer_gymnasium/jbox2d/common/MathUtils.java:167-177 | the mathematical floor inside the `int` range, on either path |
| MathUtils.Ceil | jbox2d-library/src/main/java/de/pirckheimer_gymnasium/jbox2d/common/MathUtils.java:189-199 | the mathematical ceiling inside the `int` range, on either path |
| MathUtils.Round | jbox2d-library/src/main/java/de/pirckheimer_gymnasium/jbox2d/common/MathUtils.java:211-221 | `floor(x + 0.5)` inside the `int` range, on either path |
| MathUtils.CeilPowerOf2 | jbox2d-library/src/main/java/de/pirckheimer_gymnasium/jbox2d/common/MathUtils.java:228-236 | the smallest power of two that is at least `x` |
| MathUtils.Max | jbox2d-library/src/main/java/de/pirckheimer_gymnasium/jbox2d/common/MathUtils.java:238-241 | the larger of two floats |
| MathUtils.MaxInt | jbox2d-library/src/main/java/de/pirckheimer_gymnasium/jbox2d/common/MathUtils.java:243-246 | the larger of two ints |
| MathUtils.Min | jbox2d-library/src/main/java/de/pirckheimer_gymnasium/jbox2d/common/MathUtils.java:248-251 | the smaller of two floats |
| MathUtils.MinInt | jbox2d-library/src/main/java/de/pirckheimer_gymnasium/jbox2d/common/MathUtils.java:253-256 | the smaller of two ints |
| MathUtils.Map | jbox2d-library/src/main/java/de/pirckheimer_gymnasium/jbox2d/common/MathUtils.java:258-263 | the ends of the source range map to the ends of the target range |
| MathUtils.Clamp | jbox2d-library/src/main/java/de/pirckheimer_gymnasium/jbox2d/common/MathUtils.java:268-271 | within an ordered range the result is in it, equal to the input inside and to the nearer bound outside; a reversed range gives `low` |
| MathUtils.ClampVec | jbox2d-library/src/main/java/de/pirckheimer_gymnasium/jbox2d/common/MathUtils.java:273-281 | each coordinate is clamped separately |
| MathUtils.ClampToOut | jbox2d-library/src/main/java/de/pirckheimer_gymnasium/jbox2d/common/MathUtils.java:283-290 | `dest` becomes the clamped vector, or `min(a, high)` when `dest` aliases `low` |
| MathUtils.NextPowerOfTwo | jbox2d-library/src/main/java/de/pirckheimer_gymnasium/jbox2d/common/MathUtils.java:299-307 | below `2^30` the result is a power of two strictly above `x` whose half is at most `x`: the least power of two above `x` |
| MathUtils.IsPowerOfTwoIff | jbox2d-library/src/main/java/de/pirckheimer_gymnasium/jbox2d/common/MathUtils.java:309-312 | the bit test holds exactly for the powers `2^0 .. 2^30` |
| MathUtils.DistanceSquared | jbox2d-library/src/main/java/de/pirckheimer_gymnasium/jbox2d/common/MathUtils.java:398-403 | the squared distance is the squared length of the difference, never negative |
| MathUtils.DistanceSquaredSymmetric | jbox2d-library/src/main/java/de/pirckheimer_gymnasium/jbox2d/common/MathUtils.java:398-403 | it is symmetric and 0 from a point to itself |
| MathUtils.Distance | jbox2d-library/src/main/java/de/pirckheimer_gymnasium/jbox2d/common/MathUtils.java:405-408 | with a true square root the distance is non-negative and squares to the squared distance |

## Left out

- Floating point: `float` is `real`, so rounding, overflow to infinity and NaN are not modelled, and neither is `Vec2.isValid`.
- `MathUtils` trigonometry, its sine table, `atan2`/`fastAtan2`, `pow`, `reduceAngle`, `randomFloat` and the implementation of `sqrt`: the square root is a parameter, and the rotation of an angle is a parameter too.
- `Vec2.toString`, `hashCode` and `equals`: no behaviour the solver depends on.
- `Vec2.length`, `lengthSquared`, `dot` and `cross` are plain value functions of the vector type; their properties are the lemmas about `Dot`, `Cross` and `LengthSquared` above.
- `Rot`, `Transform`, `Mat22.invertToOut`, `WorldManifold.initialize`, `DistanceProxy.getSupport`/`getVertex` and `ContactID`'s fields are not part of this model. The first four are passed-in functions or plain rotation formulas; the support queries are functions of the proxy; an id is an opaque key.
- The `DEBUG_SOLVER` blocks and the sequential solver inside the `#if 0` comment of `ContactSolver.java` are not modelled.
- Constraints are values in arrays, not shared objects. The write-back of two bodies' velocities and positions is the same only because the two bodies of a constraint differ, which the solver requires of its contacts.
- The `Fixture`/`Shape`/`Body` lookups of `init` are flattened into one `Contact` value. The position constraint type of a blank constraint is `Circles` (unset in the engine).
- ContactSolvers.ContactSolver.Init: the contacts are copied in as values; the aliasing of the engine's contact objects is not modelled.
- VelocityRows.BlockSolveComplementarity: the accepted cases are proved complementary (signs and zero impulses), not to solve `K x + b' = 0` exactly.
- MathUtils.CeilPowerOf2: inputs above `2^30` make the engine's loop overflow and never end, so they are excluded by its precondition.
- Distances.Distance.Iterate: the progress test on the closest point is commented out in the source, so it is not modelled.
- `MathUtils.abs(float)` and `fastAbs` are both `Vectors.AbsReal`; the `FAST_ABS` switch and `StrictMath.abs` agree on reals.
