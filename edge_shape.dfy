/**
 * The line-segment shape: two vertices, two optional neighbouring vertices
 * used for smooth collision, and the skin radius. Its geometric queries are
 * specified by functions on vertex values; the class methods write their
 * results into caller-supplied objects and are proved to agree with them.
 */
module Edges {
  import opened Settings
  import opened Vectors
  import opened Geometry
  import opened MathUtils

  // ---------------------------------------------------------------------
  // Distance from a point to the segment

  /**
   * The vector from the point of segment `v1`-`v2` closest to `p` to `p`:
   * the projection of `p - v1` onto the segment direction decides whether
   * the closest point is `v1`, `v2` or the foot of the perpendicular.
   */
  function SegmentOffset(v1: Vec2, v2: Vec2, p: Vec2): Vec2
  {
    var d := p.Sub(v1);
    var s := v2.Sub(v1);
    var ds := Dot(d, s);
    if ds > 0.0 then
      var s2 := s.LengthSquared();
      if ds > s2 then p.Sub(v2)
      else Vec2(d.x - ds / s2 * s.x, d.y - ds / s2 * s.y)
    else d
  }

  /**
   * Where the projection falls inside the segment, the offset is
   * perpendicular to the segment and `p` minus the offset is the point
   * `v1 + t * (v2 - v1)` with `0 < t <= 1`.
   */
  lemma SegmentOffsetInterior(v1: Vec2, v2: Vec2, p: Vec2)
    requires var ds := Dot(p.Sub(v1), v2.Sub(v1)); 0.0 < ds <= v2.Sub(v1).LengthSquared()
    ensures var s := v2.Sub(v1);
      var t := Dot(p.Sub(v1), s) / s.LengthSquared();
      0.0 < t <= 1.0 &&
      Dot(SegmentOffset(v1, v2, p), s) == 0.0 &&
      p.Sub(SegmentOffset(v1, v2, p)) == v1.Add(s.Mul(t))
  {
    var d := p.Sub(v1);
    var s := v2.Sub(v1);
    var ds := Dot(d, s);
    var s2 := s.LengthSquared();
    var t := ds / s2;
    assert s2 > 0.0;
    DivisionBounds(ds, s2);
    assert SegmentOffset(v1, v2, p) == Vec2(d.x - t * s.x, d.y - t * s.y);
    ProjectionIsPerpendicular(d, s, t);
  }

  /** Removing `t` times `s` from `d` leaves a vector perpendicular to `s` when `t` is the projection ratio. */
  lemma ProjectionIsPerpendicular(d: Vec2, s: Vec2, t: real)
    requires t * s.LengthSquared() == Dot(d, s)
    ensures Dot(Vec2(d.x - t * s.x, d.y - t * s.y), s) == 0.0
  {
    DotAfterProjection(d.x, d.y, s.x, s.y, t);
  }

  lemma DivisionBounds(a: real, b: real)
    requires 0.0 < a <= b
    ensures 0.0 < a / b <= 1.0 && (a / b) * b == a
  {
  }

  lemma DotAfterProjection(dx: real, dy: real, sx: real, sy: real, t: real)
    ensures (dx - t * sx) * sx + (dy - t * sy) * sy == (dx * sx + dy * sy) - t * (sx * sx + sy * sy)
  {
  }

  /** Outside the segment's span the closest point is the nearer endpoint. */
  lemma SegmentOffsetEnds(v1: Vec2, v2: Vec2, p: Vec2)
    ensures Dot(p.Sub(v1), v2.Sub(v1)) <= 0.0 ==> SegmentOffset(v1, v2, p) == p.Sub(v1)
    ensures Dot(p.Sub(v1), v2.Sub(v1)) > v2.Sub(v1).LengthSquared() ==> SegmentOffset(v1, v2, p) == p.Sub(v2)
  {
    if Dot(p.Sub(v1), v2.Sub(v1)) > v2.Sub(v1).LengthSquared() {
      LengthSquaredNonNegative(v2.Sub(v1));
    }
  }

  lemma LengthSquaredNonNegative(v: Vec2)
    ensures v.LengthSquared() >= 0.0
  {
    LengthSquaredIsDot(v);
  }

  /**
   * The length of an offset and its unit direction; the zero vector when
   * the length is not positive.
   */
  function OffsetDistance(off: Vec2, sqrt: real -> real): (real, Vec2)
  {
    var d1 := sqrt(off.LengthSquared());
    if d1 > 0.0 then (d1, Vec2(1.0 / d1 * off.x, 1.0 / d1 * off.y))
    else (d1, Zero)
  }

  /**
   * The distance from `p` to the edge placed by `xf`, and the unit normal
   * pointing from the edge to `p` (zero when `p` is on the edge).
   */
  function EdgeDistance(v1: Vec2, v2: Vec2, xf: Transform, p: Vec2, sqrt: real -> real): (real, Vec2)
  {
    OffsetDistance(SegmentOffset(Apply(xf, v1), Apply(xf, v2), p), sqrt)
  }

  /**
   * The distance is the length of the offset; the normal scaled by a
   * positive distance gives back the offset, and a distance that is not
   * positive gives the zero normal.
   */
  lemma OffsetDistanceIsLength(off: Vec2, sqrt: real -> real)
    ensures var r := OffsetDistance(off, sqrt);
      (IsSqrt(sqrt) ==> r.0 >= 0.0 && r.0 * r.0 == off.LengthSquared()) &&
      (r.0 > 0.0 ==> r.1.Mul(r.0) == off) &&
      (r.0 <= 0.0 ==> r.1 == Zero)
  {
    var r := OffsetDistance(off, sqrt);
    LengthSquaredNonNegative(off);
    if r.0 > 0.0 {
      ScaleBack(off, r.0);
    }
  }

  lemma ScaleBack(v: Vec2, d: real)
    requires d > 0.0
    ensures Vec2(1.0 / d * v.x, 1.0 / d * v.y).Mul(d) == v
  {
    assert 1.0 / d * v.x * d == v.x;
    assert 1.0 / d * v.y * d == v.y;
  }

  /** The normal of a positive distance has unit length. */
  lemma OffsetDistanceNormalIsUnit(off: Vec2, sqrt: real -> real)
    requires IsSqrt(sqrt)
    requires OffsetDistance(off, sqrt).0 > 0.0
    ensures OffsetDistance(off, sqrt).1.LengthSquared() == 1.0
  {
    var r := OffsetDistance(off, sqrt);
    LengthSquaredNonNegative(off);
    UnitAfterScaling(off, r.0);
  }

  lemma UnitAfterScaling(v: Vec2, d: real)
    requires d > 0.0 && d * d == v.LengthSquared()
    ensures Vec2(1.0 / d * v.x, 1.0 / d * v.y).LengthSquared() == 1.0
  {
    var inv := 1.0 / d;
    calc {
      Vec2(inv * v.x, inv * v.y).LengthSquared();
      == inv * v.x * (inv * v.x) + inv * v.y * (inv * v.y);
      == (inv * inv) * v.LengthSquared();
      == (inv * inv) * (d * d);
      == (inv * d) * (inv * d);
      == 1.0;
    }
  }

  // ---------------------------------------------------------------------
  // Ray cast

  datatype RayCastInput = RayCastInput(p1: Vec2, p2: Vec2, maxFraction: real)

  datatype RayHit = Miss | Hit(fraction: real, normal: Vec2)

  /** The ray and the edge normal in the edge's own frame. */
  datatype RayTerms = RayTerms(p1: Vec2, d: Vec2, n: Vec2, numerator: real, denominator: real)

  function LocalRay(v1: Vec2, v2: Vec2, input: RayCastInput, xf: Transform, eps: real, sqrt: real -> real): RayTerms
    requires eps > 0.0
  {
    var p1 := RotateInv(xf.q, input.p1.Sub(xf.p));
    var p2 := RotateInv(xf.q, input.p2.Sub(xf.p));
    var d := p2.Sub(p1);
    var n := Normalized(Vec2(v2.y - v1.y, v1.x - v2.x), eps, sqrt).0;
    RayTerms(p1, d, n, Dot(n, v1.Sub(p1)), Dot(n, d))
  }

  /**
   * The ray `p1 + t * (p2 - p1)` against the edge: a miss when the ray is
   * parallel to the edge, when the crossing is outside `0 <= t <= 1`, when
   * the edge is degenerate or when the crossing is outside the edge;
   * otherwise the crossing parameter and the edge normal turned toward the
   * ray's start, in world coordinates.
   */
  function EdgeRayCast(v1: Vec2, v2: Vec2, input: RayCastInput, xf: Transform, eps: real, sqrt: real -> real): (r: RayHit)
    requires eps > 0.0
    ensures LocalRay(v1, v2, input, xf, eps, sqrt).denominator == 0.0 ==> r == Miss
    ensures v2.Sub(v1).LengthSquared() == 0.0 ==> r == Miss
    ensures r.Hit? ==> 0.0 <= r.fraction <= 1.0
  {
    var ray := LocalRay(v1, v2, input, xf, eps, sqrt);
    if ray.denominator == 0.0 then Miss
    else
      var t := ray.numerator / ray.denominator;
      if t < 0.0 || 1.0 < t then Miss
      else
        var q := ray.p1.Add(ray.d.Mul(t));
        var r := v2.Sub(v1);
        var rr := r.LengthSquared();
        if rr == 0.0 then Miss
        else
          var s := Dot(q.Sub(v1), r) / rr;
          if s < 0.0 || 1.0 < s then Miss
          else if ray.numerator > 0.0 then Hit(t, Rotate(xf.q, ray.n).Negate())
          else Hit(t, Rotate(xf.q, ray.n))
  }

  /**
   * A hit lies on the edge: the point at the hit fraction is on the edge's
   * line, its projection parameter along the edge is in `[0, 1]`, and the
   * reported normal, taken back into the edge's frame, points to the side
   * of the edge the ray starts from.
   */
  lemma EdgeRayCastHit(v1: Vec2, v2: Vec2, input: RayCastInput, xf: Transform, eps: real, sqrt: real -> real)
    requires eps > 0.0 && xf.q.IsUnit()
    requires EdgeRayCast(v1, v2, input, xf, eps, sqrt).Hit?
    ensures var ray := LocalRay(v1, v2, input, xf, eps, sqrt);
      var hit := EdgeRayCast(v1, v2, input, xf, eps, sqrt);
      var q := ray.p1.Add(ray.d.Mul(hit.fraction));
      var r := v2.Sub(v1);
      Dot(ray.n, q.Sub(v1)) == 0.0 &&
      0.0 <= Dot(q.Sub(v1), r) / r.LengthSquared() <= 1.0 &&
      Dot(RotateInv(xf.q, hit.normal), ray.p1.Sub(v1)) >= 0.0
  {
    var ray := LocalRay(v1, v2, input, xf, eps, sqrt);
    var hit := EdgeRayCast(v1, v2, input, xf, eps, sqrt);
    var t := hit.fraction;
    assert t * ray.denominator == ray.numerator;
    OnLine(ray.n, ray.p1, ray.d, v1, t);
    if ray.numerator > 0.0 {
      assert hit.normal == Rotate(xf.q, ray.n).Negate();
      RotateInvNegate(xf.q, ray.n);
      DotNegate(ray.n, v1, ray.p1);
    } else {
      DotNegate(ray.n, v1, ray.p1);
      RotateInvRotate(xf.q, ray.n);
    }
  }

  lemma OnLine(n: Vec2, p1: Vec2, d: Vec2, v1: Vec2, t: real)
    requires t * Dot(n, d) == Dot(n, v1.Sub(p1))
    ensures Dot(n, p1.Add(d.Mul(t)).Sub(v1)) == 0.0
  {
  }

  lemma DotNegate(n: Vec2, a: Vec2, b: Vec2)
    ensures Dot(n.Negate(), b.Sub(a)) == Dot(n, a.Sub(b))
    ensures Dot(n, b.Sub(a)) == -Dot(n, a.Sub(b))
  {
  }

  lemma RotateInvNegate(q: Rot, v: Vec2)
    requires q.IsUnit()
    ensures RotateInv(q, Rotate(q, v).Negate()) == v.Negate()
  {
    RotateInvRotate(q, v);
  }

  // ---------------------------------------------------------------------
  // Bounding box and mass

  /** The box around the placed edge, widened on every side by the radius. */
  function EdgeBox(v1: Vec2, v2: Vec2, xf: Transform, radius: real): (r: (Vec2, Vec2))
    ensures var w1 := Apply(xf, v1); var w2 := Apply(xf, v2);
      r.1.x - r.0.x == AbsReal(w1.x - w2.x) + 2.0 * radius &&
      r.1.y - r.0.y == AbsReal(w1.y - w2.y) + 2.0 * radius
    ensures radius >= 0.0 ==> r.0.x <= r.1.x && r.0.y <= r.1.y
    ensures radius >= 0.0 ==> InBox(r, Apply(xf, v1)) && InBox(r, Apply(xf, v2))
  {
    var w1 := Apply(xf, v1);
    var w2 := Apply(xf, v2);
    (Vec2(MinReal(w1.x, w2.x) - radius, MinReal(w1.y, w2.y) - radius),
     Vec2(MaxReal(w1.x, w2.x) + radius, MaxReal(w1.y, w2.y) + radius))
  }

  predicate InBox(box: (Vec2, Vec2), v: Vec2)
  {
    box.0.x <= v.x <= box.1.x && box.0.y <= v.y <= box.1.y
  }

  /** The mass centre of an edge is the midpoint of its vertices. */
  function EdgeCenter(v1: Vec2, v2: Vec2): Vec2
  {
    v1.Add(v2).Mul(0.5)
  }

  /** The centre is equally far from both vertices and on the segment. */
  lemma EdgeCenterIsMidpoint(v1: Vec2, v2: Vec2)
    ensures DistanceSquared(EdgeCenter(v1, v2), v1) == DistanceSquared(EdgeCenter(v1, v2), v2)
    ensures EdgeCenter(v1, v2) == v1.Add(v2.Sub(v1).Mul(0.5))
  {
    var c := EdgeCenter(v1, v2);
    assert c.x - v1.x == -(c.x - v2.x);
    assert c.y - v1.y == -(c.y - v2.y);
    NegSquare(c.x - v2.x);
    NegSquare(c.y - v2.y);
  }

  // ---------------------------------------------------------------------
  // Objects the queries write into

  /** The box a shape query fills. */
  class AABB {
    const lowerBound: MutableVec2
    const upperBound: MutableVec2

    /** The two corners are different objects. */
    predicate Valid()
      reads this
    {
      lowerBound != upperBound
    }

    constructor ()
      ensures Valid() && fresh(lowerBound) && fresh(upperBound)
      ensures lowerBound.Value() == Zero && upperBound.Value() == Zero
    {
      lowerBound := new MutableVec2.Origin();
      upperBound := new MutableVec2.Origin();
    }
  }

  /** The mass properties a shape query fills. */
  class MassData {
    var mass: real
    const center: MutableVec2
    var I: real

    constructor ()
      ensures fresh(center) && mass == 0.0 && I == 0.0 && center.Value() == Zero
    {
      mass := 0.0;
      center := new MutableVec2.Origin();
      I := 0.0;
    }
  }

  /** The hit a ray cast reports. */
  class RayCastOutput {
    const normal: MutableVec2
    var fraction: real

    constructor ()
      ensures fresh(normal) && normal.Value() == Zero && fraction == 0.0
    {
      normal := new MutableVec2.Origin();
      fraction := 0.0;
    }
  }

  // ---------------------------------------------------------------------
  // The shape

  datatype EdgeRecord = EdgeRecord(
    vertex0: Vec2, vertex1: Vec2, vertex2: Vec2, vertex3: Vec2,
    hasVertex0: bool, hasVertex3: bool, radius: real)

  class EdgeShape {
    /** The edge's two vertices. */
    const vertex1: MutableVec2
    const vertex2: MutableVec2
    /** The optional neighbouring vertices, used for smooth collision. */
    const vertex0: MutableVec2
    const vertex3: MutableVec2
    var hasVertex0: bool
    var hasVertex3: bool
    var radius: real

    /** The four vertices are four different objects. */
    predicate Valid()
      reads this
    {
      vertex0 != vertex1 && vertex0 != vertex2 && vertex0 != vertex3 &&
      vertex1 != vertex2 && vertex1 != vertex3 && vertex2 != vertex3
    }

    function Fields(): EdgeRecord
      reads this, vertex0, vertex1, vertex2, vertex3
    {
      EdgeRecord(vertex0.Value(), vertex1.Value(), vertex2.Value(), vertex3.Value(),
                 hasVertex0, hasVertex3, radius)
    }

    /** A new edge: all vertices at the origin, no neighbours, the polygon radius. */
    constructor (polygonRadius: real)
      ensures Valid()
      ensures fresh(vertex0) && fresh(vertex1) && fresh(vertex2) && fresh(vertex3)
      ensures Fields() == EdgeRecord(Zero, Zero, Zero, Zero, false, false, polygonRadius)
    {
      vertex1 := new MutableVec2.Origin();
      vertex2 := new MutableVec2.Origin();
      vertex0 := new MutableVec2.Origin();
      vertex3 := new MutableVec2.Origin();
      hasVertex0 := false;
      hasVertex3 := false;
      radius := polygonRadius;
    }

    /** An edge has exactly one child. */
    function ChildCount(): (r: int)
      ensures r == 1
    {
      1
    }

    /** An edge has no interior, so no point is inside it. */
    function TestPoint(xf: Transform, p: Vec2): (r: bool)
      ensures !r
    {
      false
    }

    /**
     * Places the edge between the values of `v1` and `v2` and forgets the
     * neighbours. `vertex1` is written first, so when `v2` is `vertex1`
     * itself both vertices end up at `v1`.
     */
    method Set(v1: MutableVec2, v2: MutableVec2)
      requires Valid()
      modifies this, vertex1, vertex2
      ensures Valid()
      ensures Fields() == old(Fields()).(
        vertex1 := old(v1.Value()),
        vertex2 := if v2 == vertex1 then old(v1.Value()) else old(v2.Value()),
        hasVertex0 := false, hasVertex3 := false)
    {
      vertex1.Set(v1);
      vertex2.Set(v2);
      hasVertex0 := false;
      hasVertex3 := false;
    }

    /**
     * The distance from `p` to the placed edge; the unit direction from the
     * edge to `p` goes into `normalOut`.
     */
    method ComputeDistanceToOut(xf: Transform, p: Vec2, childIndex: int, normalOut: MutableVec2, sqrt: real -> real)
      returns (d1: real)
      modifies normalOut
      ensures (d1, normalOut.Value()) == EdgeDistance(old(vertex1.Value()), old(vertex2.Value()), xf, p, sqrt)
    {
      // The vertices in world coordinates.
      var v1 := Apply(xf, vertex1.Value());
      var v2 := Apply(xf, vertex2.Value());
      var offset := SegmentOffset(v1, v2, p);
      ghost var r := OffsetDistance(offset, sqrt);
      d1 := sqrt(offset.LengthSquared());
      assert d1 == r.0;
      var normal := if d1 > 0.0 then Vec2(1.0 / d1 * offset.x, 1.0 / d1 * offset.y) else Zero;
      assert normal == r.1;
      normalOut.x := normal.x;
      normalOut.y := normal.y;
    }

    /**
     * Casts the ray against the placed edge. On a hit the fraction and the
     * world normal are written into `output` and the result is true; on a
     * miss `output` is left as it was.
     */
    method Raycast(output: RayCastOutput, input: RayCastInput, xf: Transform, childIndex: int, eps: real, sqrt: real -> real)
      returns (hit: bool)
      requires eps > 0.0
      modifies output, output.normal
      ensures var r := EdgeRayCast(old(vertex1.Value()), old(vertex2.Value()), input, xf, eps, sqrt);
        hit == r.Hit? &&
        (hit ==> output.fraction == r.fraction && output.normal.Value() == r.normal) &&
        (!hit ==> output.fraction == old(output.fraction) && output.normal.Value() == old(output.normal.Value()))
    {
      ghost var ray := LocalRay(vertex1.Value(), vertex2.Value(), input, xf, eps, sqrt);
      ghost var result := EdgeRayCast(vertex1.Value(), vertex2.Value(), input, xf, eps, sqrt);
      var v1 := vertex1.Value();
      var v2 := vertex2.Value();
      var xfq := xf.q;
      // The ray in the edge's frame of reference.
      var p1 := RotateInv(xfq, input.p1.Sub(xf.p));
      var p2 := RotateInv(xfq, input.p2.Sub(xf.p));
      var d := p2.Sub(p1);
      var normal := new MutableVec2(v2.y - v1.y, v1.x - v2.x);
      var _ := normal.Normalize(eps, sqrt);
      var n := normal.Value();
      var numerator := Dot(n, v1.Sub(p1));
      var denominator := Dot(n, d);
      assert ray == RayTerms(p1, d, n, numerator, denominator);
      if denominator == 0.0 {
        assert result == Miss;
        return false;
      }
      var t := numerator / denominator;
      if t < 0.0 || 1.0 < t {
        assert result == Miss;
        return false;
      }
      var q := p1.Add(d.Mul(t));
      var r := v2.Sub(v1);
      var rr := r.LengthSquared();
      if rr == 0.0 {
        assert result == Miss;
        return false;
      }
      var s := Dot(q.Sub(v1), r) / rr;
      if s < 0.0 || 1.0 < s {
        assert result == Miss;
        return false;
      }
      // The edge normal in world coordinates, negated when the ray starts
      // on the side the normal points to.
      var worldNormal := if numerator > 0.0 then Rotate(xfq, n).Negate() else Rotate(xfq, n);
      assert result == Hit(t, worldNormal);
      output.fraction := t;
      output.normal.x := worldNormal.x;
      output.normal.y := worldNormal.y;
      return true;
    }

    /** Fills `aabb` with the box around the placed edge. */
    method ComputeAABB(aabb: AABB, xf: Transform, childIndex: int)
      requires aabb.Valid()
      modifies aabb.lowerBound, aabb.upperBound
      ensures (aabb.lowerBound.Value(), aabb.upperBound.Value())
           == EdgeBox(old(vertex1.Value()), old(vertex2.Value()), xf, radius)
    {
      ghost var w1 := Apply(xf, vertex1.Value());
      ghost var w2 := Apply(xf, vertex2.Value());
      var lowerBound := aabb.lowerBound;
      var upperBound := aabb.upperBound;
      var xfq := xf.q;
      var v1x := (xfq.c * vertex1.x - xfq.s * vertex1.y) + xf.p.x;
      var v1y := (xfq.s * vertex1.x + xfq.c * vertex1.y) + xf.p.y;
      var v2x := (xfq.c * vertex2.x - xfq.s * vertex2.y) + xf.p.x;
      var v2y := (xfq.s * vertex2.x + xfq.c * vertex2.y) + xf.p.y;
      assert w1 == Vec2(v1x, v1y) && w2 == Vec2(v2x, v2y);
      lowerBound.x := MinReal(v1x, v2x);
      lowerBound.y := MinReal(v1y, v2y);
      upperBound.x := MaxReal(v1x, v2x);
      upperBound.y := MaxReal(v1y, v2y);
      lowerBound.x := lowerBound.x - radius;
      lowerBound.y := lowerBound.y - radius;
      upperBound.x := upperBound.x + radius;
      upperBound.y := upperBound.y + radius;
    }

    /**
     * An edge has no area: zero mass and zero inertia whatever the density,
     * with the centre at the midpoint of the vertices.
     */
    method ComputeMass(massData: MassData, density: real)
      requires massData.center != vertex2
      modifies massData, massData.center
      ensures massData.mass == 0.0 && massData.I == 0.0
      ensures massData.center.Value() == EdgeCenter(old(vertex1.Value()), old(vertex2.Value()))
    {
      massData.mass := 0.0;
      massData.center.Set(vertex1);
      massData.center.AddLocal(vertex2);
      massData.center.MulLocal(0.5);
      massData.I := 0.0;
    }

    /** A new edge with equal fields that shares none of this edge's objects. */
    method Clone() returns (edge: EdgeShape)
      requires Valid()
      ensures fresh(edge) && fresh(edge.vertex0) && fresh(edge.vertex1) && fresh(edge.vertex2) && fresh(edge.vertex3)
      ensures edge.Valid() && edge.Fields() == Fields()
    {
      edge := new EdgeShape(radius);
      edge.radius := radius;
      edge.hasVertex0 := hasVertex0;
      edge.hasVertex3 := hasVertex3;
      edge.vertex0.Set(vertex0);
      edge.vertex1.Set(vertex1);
      edge.vertex2.Set(vertex2);
      edge.vertex3.Set(vertex3);
    }
  }
}
