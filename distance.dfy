/**
 * The GJK distance routine between two convex shapes: a simplex of up to
 * three support points of the Minkowski difference, reduced to the feature
 * closest to the origin with barycentric coordinates, grown with support
 * points until it stops changing, and cached between calls.
 *
 * A simplex vertex and all vectors inside the routine are values here; the
 * shapes and the transforms are the uninterpreted operations the routine
 * calls on them.
 */
module Distances {
  import opened Settings
  import opened Vectors
  import opened MathUtils

  /** A convex shape as the routine sees it: its vertices, its support function and its radius. */
  datatype Proxy = Proxy(getVertex: int -> Vec2, getSupport: Vec2 -> int, radius: real)

  /** The two products of a transform the routine uses: `xf * v` and `xf.R^T * v`. */
  datatype Placement = Placement(mul: Vec2 -> Vec2, mulTransR: Vec2 -> Vec2)

  /**
   * A support point of the Minkowski difference: the world points on both
   * shapes, their difference `w = wB - wA`, its barycentric coordinate and
   * the vertex indices it came from.
   */
  datatype SimplexVertex = SimplexVertex(wA: Vec2, wB: Vec2, w: Vec2, a: real, indexA: int, indexB: int)

  const BlankVertex := SimplexVertex(Zero, Zero, Zero, 0.0, 0, 0)

  /** The three vertex slots of a simplex and how many of them are in use. */
  datatype SimplexState = SimplexState(v1: SimplexVertex, v2: SimplexVertex, v3: SimplexVertex, count: int)
  {
    /** `vertices[i]`, the array view of the three slots. */
    function Vertex(i: int): SimplexVertex
      requires 0 <= i < 3
    {
      if i == 0 then v1 else if i == 1 then v2 else v3
    }

    function WithVertex(i: int, v: SimplexVertex): (r: SimplexState)
      requires 0 <= i < 3
      ensures r.Vertex(i) == v && r.count == count
      ensures forall j :: 0 <= j < 3 && j != i ==> r.Vertex(j) == Vertex(j)
    {
      if i == 0 then this.(v1 := v) else if i == 1 then this.(v2 := v) else this.(v3 := v)
    }
  }

  /** The support point made of vertex `indexA` of A and vertex `indexB` of B. */
  function SupportVertex(proxyA: Proxy, xfA: Placement, indexA: int,
                         proxyB: Proxy, xfB: Placement, indexB: int, a: real): SimplexVertex
  {
    var wA := xfA.mul(proxyA.getVertex(indexA));
    var wB := xfB.mul(proxyB.getVertex(indexB));
    SimplexVertex(wA, wB, wB.Sub(wA), a, indexA, indexB)
  }

  /** A vertex whose points are the transformed shape vertices its indices name. */
  predicate Supported(v: SimplexVertex, proxyA: Proxy, xfA: Placement, proxyB: Proxy, xfB: Placement)
  {
    v == SupportVertex(proxyA, xfA, v.indexA, proxyB, xfB, v.indexB, v.a)
  }

  /** Every vertex in use is `Supported`. */
  predicate Consistent(s: SimplexState, proxyA: Proxy, xfA: Placement, proxyB: Proxy, xfB: Placement)
  {
    (s.count >= 1 ==> Supported(s.v1, proxyA, xfA, proxyB, xfB)) &&
    (s.count >= 2 ==> Supported(s.v2, proxyA, xfA, proxyB, xfB)) &&
    (s.count >= 3 ==> Supported(s.v3, proxyA, xfA, proxyB, xfB))
  }

  // ---------------------------------------------------------------------
  // The simplex as values

  /**
   * The size measure of the simplex that decides whether a cache is still
   * valid: 0 for a point, the length of a segment, the signed doubled area
   * of a triangle.
   */
  function Metric(s: SimplexState, sqrt: real -> real): real
  {
    if s.count == 2 then sqrt(DistanceSquared(s.v1.w, s.v2.w))
    else if s.count == 3 then Cross(s.v2.w.Sub(s.v1.w), s.v3.w.Sub(s.v1.w))
    else 0.0
  }

  /** The direction in which the next support point is searched for. */
  function SearchDirection(s: SimplexState): Vec2
  {
    if s.count == 1 then s.v1.w.Negate()
    else if s.count == 2 then
      var e12 := s.v2.w.Sub(s.v1.w);
      var sgn := Cross(e12, s.v1.w.Negate());
      if sgn > 0.0 then CrossSV(1.0, e12) else CrossVS(e12, 1.0)
    else Zero
  }

  /**
   * The closest point of the simplex to the origin. A one-point simplex
   * falls through to the two-point formula, so it reads the weight of the
   * second slot as well.
   */
  function ClosestPoint(s: SimplexState): Vec2
  {
    if s.count == 1 || s.count == 2 then s.v1.w.Mul(s.v1.a).Add(s.v2.w.Mul(s.v2.a))
    else Zero
  }

  /**
   * The witness points on A and on B; with an unused count the two points
   * passed in are returned unchanged.
   */
  function WitnessPoints(s: SimplexState, pA: Vec2, pB: Vec2): (Vec2, Vec2)
  {
    if s.count == 1 then (s.v1.wA, s.v1.wB)
    else if s.count == 2 then
      (s.v2.wA.Mul(s.v2.a).Add(s.v1.wA.Mul(s.v1.a)), s.v2.wB.Mul(s.v2.a).Add(s.v1.wB.Mul(s.v1.a)))
    else if s.count == 3 then
      var p := s.v1.wA.Mul(s.v1.a).Add(s.v2.wA.Mul(s.v2.a)).Add(s.v3.wA.Mul(s.v3.a));
      (p, p)
    else (pA, pB)
  }

  /** The reduction of a segment to the feature closest to the origin. */
  function Solved2(s: SimplexState): SimplexState
  {
    var w1 := s.v1.w;
    var w2 := s.v2.w;
    var e12 := w2.Sub(w1);
    var d12_2 := -Dot(w1, e12);
    if d12_2 <= 0.0 then
      s.(v1 := s.v1.(a := 1.0), count := 1)
    else
      var d12_1 := Dot(w2, e12);
      if d12_1 <= 0.0 then
        var v2 := s.v2.(a := 1.0);
        s.(v1 := v2, v2 := v2, count := 1)
      else
        var inv := 1.0 / (d12_1 + d12_2);
        s.(v1 := s.v1.(a := d12_1 * inv), v2 := s.v2.(a := d12_2 * inv), count := 2)
  }

  /** The Voronoi region of a triangle that `Solved3` picks, in the order it tests them. */
  datatype Region = VertexW1 | Edge12 | Edge13 | VertexW2 | VertexW3 | Edge23 | Triangle

  /** The unnormalized barycentric terms of a triangle. */
  datatype TriangleTerms = TriangleTerms(
    d12_1: real, d12_2: real, d13_1: real, d13_2: real, d23_1: real, d23_2: real,
    n123: real, d123_1: real, d123_2: real, d123_3: real)

  function Terms(w1: Vec2, w2: Vec2, w3: Vec2): TriangleTerms
  {
    var e12 := w2.Sub(w1);
    var e13 := w3.Sub(w1);
    var e23 := w3.Sub(w2);
    var n123 := Cross(e12, e13);
    TriangleTerms(Dot(w2, e12), -Dot(w1, e12), Dot(w3, e13), -Dot(w1, e13),
                  Dot(w3, e23), -Dot(w2, e23),
                  n123, n123 * Cross(w2, w3), n123 * Cross(w3, w1), n123 * Cross(w1, w2))
  }

  function RegionOf(t: TriangleTerms): Region
  {
    if t.d12_2 <= 0.0 && t.d13_2 <= 0.0 then VertexW1
    else if t.d12_1 > 0.0 && t.d12_2 > 0.0 && t.d123_3 <= 0.0 then Edge12
    else if t.d13_1 > 0.0 && t.d13_2 > 0.0 && t.d123_2 <= 0.0 then Edge13
    else if t.d12_1 <= 0.0 && t.d23_2 <= 0.0 then VertexW2
    else if t.d13_1 <= 0.0 && t.d23_1 <= 0.0 then VertexW3
    else if t.d23_1 > 0.0 && t.d23_2 > 0.0 && t.d123_1 <= 0.0 then Edge23
    else Triangle
  }

  // ---------------------------------------------------------------------
  // Why the weights of the triangle region are defined

  /** A product of a non-zero number with a copy of itself is positive. */
  lemma ProductOfCopies(x: real, z: real, p: real)
    requires z == x && p == x * z && x != 0.0
    ensures p > 0.0
  {
  }

  lemma SquareNonNegative(x: real)
    ensures x * x >= 0.0
  {
  }

  lemma PositivePlusNonNegative(a: real, b: real, p: real)
    requires p == a + b && a > 0.0 && b >= 0.0
    ensures p > 0.0
  {
  }

  lemma FirstComponentLengthSquared(u: Vec2)
    requires u.x != 0.0
    ensures u.LengthSquared() > 0.0
  {
    var a := u.x * u.x;
    var b := u.y * u.y;
    ProductOfCopies(u.x, u.x, a);
    SquareNonNegative(u.y);
    PositivePlusNonNegative(a, b, u.LengthSquared());
  }

  /** Only the zero vector has length 0. */
  lemma NonZeroLengthSquared(u: Vec2)
    requires u != Zero
    ensures u.LengthSquared() > 0.0
  {
    if u.x != 0.0 {
      FirstComponentLengthSquared(u);
    } else {
      FirstComponentLengthSquared(Vec2(u.y, u.x));
      assert Vec2(u.y, u.x).LengthSquared() == u.LengthSquared();
    }
  }

  /** A vector parallel to a non-zero vector u is a multiple of u. */
  lemma ParallelIsMultiple(u: Vec2, v: Vec2)
    requires u != Zero && Cross(u, v) == 0.0
    ensures u.LengthSquared() > 0.0
    ensures v == u.Mul(Dot(v, u) / u.LengthSquared())
  {
    var L := u.LengthSquared();
    NonZeroLengthSquared(u);
    var lam := Dot(v, u) / L;
    assert u.x * v.y == u.y * v.x;
    assert v.x * L == u.x * Dot(v, u) by {
      assert v.x * L == v.x * u.x * u.x + u.y * (u.y * v.x);
      assert u.y * (u.y * v.x) == u.y * (u.x * v.y);
    }
    assert v.y * L == u.y * Dot(v, u) by {
      assert v.y * L == u.x * (u.x * v.y) + v.y * u.y * u.y;
      assert u.x * (u.x * v.y) == u.x * (u.y * v.x);
    }
    assert v.x == u.x * lam;
    assert v.y == u.y * lam;
  }

  lemma DotScaled(a: Vec2, u: Vec2, lam: real)
    ensures Dot(a, u.Mul(lam)) == lam * Dot(a, u)
  {
  }

  lemma DotShift(a: Vec2, u: Vec2, lam: real)
    ensures Dot(a.Add(u.Mul(lam)), u) == Dot(a, u) + lam * u.LengthSquared()
  {
  }

  /**
   * Three points on a line, at x1, x1 + L and x1 + lam*L along it, never
   * fall through every region test to the triangle region: the edge-23 test
   * catches what the others let through.
   */
  lemma CollinearNotTriangle(x1: real, lam: real, L: real)
    requires L > 0.0
    ensures (-x1 > 0.0 || -lam * x1 > 0.0) &&
            ((x1 + L) <= 0.0 || -x1 <= 0.0) &&
            (lam * (x1 + lam * L) <= 0.0 || -lam * x1 <= 0.0) &&
            ((x1 + L) > 0.0 || -(lam - 1.0) * (x1 + L) > 0.0) &&
            (lam * (x1 + lam * L) > 0.0 || (lam - 1.0) * (x1 + lam * L) > 0.0) ==>
            (lam - 1.0) * (x1 + lam * L) > 0.0 && -(lam - 1.0) * (x1 + L) > 0.0
  {
  }

  /** Region terms of three points at x1, x1 + L and x1 + lam*L on a line of squared length L. */
  lemma LineTermsNotTriangle(t: TriangleTerms, x1: real, x2: real, x3: real, lam: real, L: real)
    requires L > 0.0 && x2 == x1 + L && x3 == x1 + lam * L
    requires t.d123_1 == 0.0 && t.d123_2 == 0.0 && t.d123_3 == 0.0
    requires t.d12_1 == x2 && t.d12_2 == -x1
    requires t.d13_1 == lam * x3 && t.d13_2 == -(lam * x1)
    requires t.d23_1 == (lam - 1.0) * x3 && t.d23_2 == -((lam - 1.0) * x2)
    ensures RegionOf(t) != Triangle
  {
    CollinearNotTriangle(x1, lam, L);
  }

  /** Region terms of a triangle whose first two points coincide. */
  lemma DoubledTermsNotTriangle(t: TriangleTerms)
    requires t.d12_1 == 0.0 && t.d12_2 == 0.0 && t.d123_2 == 0.0
    requires t.d23_1 == t.d13_1 && t.d23_2 == t.d13_2
    ensures RegionOf(t) != Triangle
  {
  }

  /**
   * Three collinear points with w1 != w2, placed on the line through them:
   * their region terms in terms of the coordinates x1, x2, x3 along e12.
   */
  lemma LineCoordinates(w1: Vec2, w2: Vec2, w3: Vec2) returns (x1: real, x2: real, x3: real, lam: real, L: real)
    requires w2.Sub(w1) != Zero && Terms(w1, w2, w3).n123 == 0.0
    ensures var t := Terms(w1, w2, w3);
            L > 0.0 && x2 == x1 + L && x3 == x1 + lam * L &&
            t.d123_1 == 0.0 && t.d123_2 == 0.0 && t.d123_3 == 0.0 &&
            t.d12_1 == x2 && t.d12_2 == -x1 &&
            t.d13_1 == lam * x3 && t.d13_2 == -(lam * x1) &&
            t.d23_1 == (lam - 1.0) * x3 && t.d23_2 == -((lam - 1.0) * x2)
  {
    var e12 := w2.Sub(w1);
    var e13 := w3.Sub(w1);
    var e23 := w3.Sub(w2);
    ParallelIsMultiple(e12, e13);
    L := e12.LengthSquared();
    lam := Dot(e13, e12) / L;
    x1 := Dot(w1, e12);
    x2 := Dot(w2, e12);
    x3 := Dot(w3, e12);
    assert w2 == w1.Add(e12.Mul(1.0));
    assert w3 == w1.Add(e12.Mul(lam));
    assert e23 == e12.Mul(lam - 1.0);
    LineShifts(w1, w2, w3, e12, lam);
    LineTermsOf(w1, w2, w3, e12, lam);
  }

  /** Points at 1 and `lam` times `e12` from `w1` lie at those multiples of its squared length along `e12`. */
  lemma LineShifts(w1: Vec2, w2: Vec2, w3: Vec2, e12: Vec2, lam: real)
    requires w2 == w1.Add(e12.Mul(1.0)) && w3 == w1.Add(e12.Mul(lam))
    ensures Dot(w2, e12) == Dot(w1, e12) + e12.LengthSquared()
    ensures Dot(w3, e12) == Dot(w1, e12) + lam * e12.LengthSquared()
  {
    DotShift(w1, e12, 1.0);
    DotShift(w1, e12, lam);
  }

  /** The region terms of three collinear points whose differences are multiples of `e12`. */
  lemma LineTermsOf(w1: Vec2, w2: Vec2, w3: Vec2, e12: Vec2, lam: real)
    requires w2.Sub(w1) == e12 && w3.Sub(w1) == e12.Mul(lam) && w3.Sub(w2) == e12.Mul(lam - 1.0)
    requires Terms(w1, w2, w3).n123 == 0.0
    ensures var t := Terms(w1, w2, w3);
            t.d123_1 == 0.0 && t.d123_2 == 0.0 && t.d123_3 == 0.0 &&
            t.d12_1 == Dot(w2, e12) && t.d12_2 == -Dot(w1, e12) &&
            t.d13_1 == lam * Dot(w3, e12) && t.d13_2 == -(lam * Dot(w1, e12)) &&
            t.d23_1 == (lam - 1.0) * Dot(w3, e12) && t.d23_2 == -((lam - 1.0) * Dot(w2, e12))
  {
    LineTerms13(w1, w3, e12, lam);
    LineTerms23(w2, w3, e12, lam - 1.0);
  }

  /** The edge-13 terms when `w3 - w1` is `lam` times `e12`. */
  lemma LineTerms13(w1: Vec2, w3: Vec2, e12: Vec2, lam: real)
    requires w3.Sub(w1) == e12.Mul(lam)
    ensures Dot(w3, w3.Sub(w1)) == lam * Dot(w3, e12) && -Dot(w1, w3.Sub(w1)) == -(lam * Dot(w1, e12))
  {
    DotScaled(w3, e12, lam);
    DotScaled(w1, e12, lam);
  }

  /** The edge-23 terms when `w3 - w2` is `mu` times `e12`. */
  lemma LineTerms23(w2: Vec2, w3: Vec2, e12: Vec2, mu: real)
    requires w3.Sub(w2) == e12.Mul(mu)
    ensures Dot(w3, w3.Sub(w2)) == mu * Dot(w3, e12) && -Dot(w2, w3.Sub(w2)) == -(mu * Dot(w2, e12))
  {
    DotScaled(w3, e12, mu);
    DotScaled(w2, e12, mu);
  }

  /** A triangle of zero area, three points on a line, is never in the triangle region. */
  lemma DegenerateNotTriangle(w1: Vec2, w2: Vec2, w3: Vec2)
    ensures Terms(w1, w2, w3).n123 == 0.0 ==> RegionOf(Terms(w1, w2, w3)) != Triangle
  {
    var t := Terms(w1, w2, w3);
    if t.n123 == 0.0 {
      var e12 := w2.Sub(w1);
      var e13 := w3.Sub(w1);
      if e12 == Zero {
        assert w2 == w1;
        DoubledTermsNotTriangle(t);
      } else {
        var x1, x2, x3, lam, L := LineCoordinates(w1, w2, w3);
        LineTermsNotTriangle(t, x1, x2, x3, lam, L);
      }
    }
  }

  /** The denominator of the triangle weights is not zero in the triangle region. */
  lemma TriangleSumNonZero(w1: Vec2, w2: Vec2, w3: Vec2)
    requires RegionOf(Terms(w1, w2, w3)) == Triangle
    ensures var t := Terms(w1, w2, w3);
            t.d123_1 + t.d123_2 + t.d123_3 > 0.0
  {
    var t := Terms(w1, w2, w3);
    DegenerateNotTriangle(w1, w2, w3);
    AreaTermsSum(w1, w2, w3);
    ProductOfCopies(t.n123, t.n123, t.d123_1 + t.d123_2 + t.d123_3);
  }

  /**
   * The reduction of a triangle to the feature closest to the origin. In
   * the edge-12 region both weights are set from `d12_1`.
   */
  function Solved3(s: SimplexState): SimplexState
  {
    var t := Terms(s.v1.w, s.v2.w, s.v3.w);
    assert RegionOf(t) == Triangle ==> t.d123_1 + t.d123_2 + t.d123_3 != 0.0 by {
      if RegionOf(t) == Triangle {
        TriangleSumNonZero(s.v1.w, s.v2.w, s.v3.w);
      }
    }
    Reduced(s, t)
  }

  /** The reduction of `Solved3` for given region terms `t` of the triangle. */
  function Reduced(s: SimplexState, t: TriangleTerms): SimplexState
    requires RegionOf(t) == Triangle ==> t.d123_1 + t.d123_2 + t.d123_3 != 0.0
  {
    match RegionOf(t)
    case VertexW1 => s.(v1 := s.v1.(a := 1.0), count := 1)
    case Edge12 =>
      var inv := 1.0 / (t.d12_1 + t.d12_2);
      s.(v1 := s.v1.(a := t.d12_1 * inv), v2 := s.v2.(a := t.d12_1 * inv), count := 2)
    case Edge13 =>
      var inv := 1.0 / (t.d13_1 + t.d13_2);
      var v3 := s.v3.(a := t.d13_2 * inv);
      s.(v1 := s.v1.(a := t.d13_1 * inv), v2 := v3, v3 := v3, count := 2)
    case VertexW2 =>
      var v2 := s.v2.(a := 1.0);
      s.(v1 := v2, v2 := v2, count := 1)
    case VertexW3 =>
      var v3 := s.v3.(a := 1.0);
      s.(v1 := v3, v3 := v3, count := 1)
    case Edge23 =>
      var inv := 1.0 / (t.d23_1 + t.d23_2);
      var v3 := s.v3.(a := t.d23_2 * inv);
      s.(v1 := v3, v2 := s.v2.(a := t.d23_1 * inv), v3 := v3, count := 2)
    case Triangle =>
      var inv := 1.0 / (t.d123_1 + t.d123_2 + t.d123_3);
      s.(v1 := s.v1.(a := t.d123_1 * inv), v2 := s.v2.(a := t.d123_2 * inv),
         v3 := s.v3.(a := t.d123_3 * inv), count := 3)
  }

  // ---------------------------------------------------------------------
  // The cache as values

  /** The cached count, index pairs and metric of a previous call. */
  datatype CacheRecord = CacheRecord(metric: real, count: int, indexA: seq<int>, indexB: seq<int>)
  {
    predicate WellFormed()
    {
      0 <= count <= 3 && |indexA| == 3 && |indexB| == 3
    }
  }

  /** The simplex after the cached vertices are copied in, before the metric test. */
  function Loaded(s: SimplexState, c: CacheRecord, proxyA: Proxy, xfA: Placement, proxyB: Proxy, xfB: Placement): SimplexState
    requires c.WellFormed()
  {
    SimplexState(
      if c.count >= 1 then SupportVertex(proxyA, xfA, c.indexA[0], proxyB, xfB, c.indexB[0], 0.0) else s.v1,
      if c.count >= 2 then SupportVertex(proxyA, xfA, c.indexA[1], proxyB, xfB, c.indexB[1], 0.0) else s.v2,
      if c.count >= 3 then SupportVertex(proxyA, xfA, c.indexA[2], proxyB, xfB, c.indexB[2], 0.0) else s.v3,
      c.count)
  }

  /** A cached simplex of more than one point is flushed when its metric changed too much or is tiny. */
  predicate Flushed(c: CacheRecord, metric2: real, eps: real)
  {
    c.count > 1 && (metric2 < 0.5 * c.metric || 2.0 * c.metric < metric2 || metric2 < eps)
  }

  /**
   * The simplex rebuilt from a cache: the cached vertices, or the single
   * pair of vertices 0 when the cache is empty or flushed (that slot keeps
   * its old weight).
   */
  function FromCache(s: SimplexState, c: CacheRecord, proxyA: Proxy, xfA: Placement, proxyB: Proxy, xfB: Placement,
                     eps: real, sqrt: real -> real): (r: SimplexState)
    requires c.WellFormed()
    ensures 1 <= r.count <= 3
  {
    var l := Loaded(s, c, proxyA, xfA, proxyB, xfB);
    if c.count == 0 || Flushed(c, Metric(l, sqrt), eps) then
      l.(v1 := SupportVertex(proxyA, xfA, 0, proxyB, xfB, 0, l.v1.a), count := 1)
    else l
  }

  /** The cache written from a simplex: its metric, count and the index pairs in use. */
  function ToCache(s: SimplexState, c: CacheRecord, sqrt: real -> real): (r: CacheRecord)
    requires 0 <= s.count <= 3 && |c.indexA| == 3 && |c.indexB| == 3
    ensures r.WellFormed()
  {
    CacheRecord(Metric(s, sqrt), s.count,
      seq(3, i requires 0 <= i < 3 => if i < s.count then s.Vertex(i).indexA else c.indexA[i]),
      seq(3, i requires 0 <= i < 3 => if i < s.count then s.Vertex(i).indexB else c.indexB[i]))
  }

  // ---------------------------------------------------------------------
  // The output

  /**
   * The effect of the proxies' radii on the witness points and the distance:
   * the points move onto the rounded surfaces, or both go to their midpoint
   * when the rounded shapes overlap.
   */
  function ApplyRadii(pA: Vec2, pB: Vec2, distance: real, rA: real, rB: real,
                      eps: real, sqrt: real -> real): (Vec2, Vec2, real)
    requires eps > 0.0
  {
    if distance > rA + rB && distance > eps then
      var normal := Normalized(pB.Sub(pA), eps, sqrt).0;
      (pA.Add(normal.Mul(rA)), pB.Sub(normal.Mul(rB)), distance - (rA + rB))
    else
      var p := pA.Add(pB).Mul(0.5);
      (p, p, 0.0)
  }

  /** Adding one to a wrapped counter wraps the exact sum. */
  lemma WrapStep(v: int)
    ensures Wrap(Wrap(v) + 1) == Wrap(v + 1)
  {
  }

  /** `++c` on a 32-bit counter: the largest value wraps to the smallest. */
  function Increment(c: Int32): Int32
  {
    if c == Int32Max then Int32Min else c + 1
  }

  /** A 32-bit counter after `n` increments from `c`. */
  function Incremented(c: Int32, n: nat): Int32
  {
    if n == 0 then c else Increment(Incremented(c, n - 1))
  }

  /** Incrementing `n` times wraps the exact sum `c + n` into 32 bits. */
  lemma {:induction false} IncrementedWraps(c: Int32, n: nat)
    ensures Incremented(c, n) == Wrap(c + n)
  {
    if n > 0 {
      IncrementedWraps(c, n - 1);
      WrapStep(c + (n - 1));
    }
  }

  /** Why the main loop stopped; `Duplicate` holds how many index pairs were saved. */
  datatype Exit = TriangleFound | SmallDirection | Duplicate(saveCount: int) | IterationLimit

  // ---------------------------------------------------------------------
  // Properties of the simplex operations

  lemma WeightsSumToOne(d1: real, d2: real)
    requires d1 + d2 != 0.0
    ensures d1 * (1.0 / (d1 + d2)) + d2 * (1.0 / (d1 + d2)) == 1.0
  {
    var inv := 1.0 / (d1 + d2);
    assert d1 * inv + d2 * inv == (d1 + d2) * inv;
  }

  lemma PositiveWeights(d1: real, d2: real)
    requires d1 > 0.0 && d2 > 0.0
    ensures d1 * (1.0 / (d1 + d2)) > 0.0 && d2 * (1.0 / (d1 + d2)) > 0.0
  {
    var inv := 1.0 / (d1 + d2);
    assert inv > 0.0;
  }

  lemma DotOfCombination(p: Vec2, a: real, q: Vec2, b: real, e: Vec2)
    ensures Dot(p.Mul(a).Add(q.Mul(b)), e) == a * Dot(p, e) + b * Dot(q, e)
  {
    assert Dot(p.Mul(a).Add(q.Mul(b)), e) == (p.x * a + q.x * b) * e.x + (p.y * a + q.y * b) * e.y;
  }

  lemma WeightedTermsCancel(d1: real, d2: real, inv: real)
    ensures (d1 * inv) * (-d2) + (d2 * inv) * d1 == 0.0
  {
    assert (d1 * inv) * (-d2) == -(d1 * d2 * inv);
    assert (d2 * inv) * d1 == d1 * d2 * inv;
  }

  /**
   * The point `p*a + q*b` with the weights of the edge from p to q lies on
   * the line of that edge, at the foot of the perpendicular from the origin.
   */
  lemma EdgePointIsFoot(p: Vec2, q: Vec2)
    requires Dot(q, q.Sub(p)) + -Dot(p, q.Sub(p)) != 0.0
    ensures var e := q.Sub(p);
            var d1 := Dot(q, e);
            var d2 := -Dot(p, e);
            var inv := 1.0 / (d1 + d2);
            Dot(p.Mul(d1 * inv).Add(q.Mul(d2 * inv)), e) == 0.0
  {
    var e := q.Sub(p);
    var d1 := Dot(q, e);
    var d2 := -Dot(p, e);
    var inv := 1.0 / (d1 + d2);
    DotOfCombination(p, d1 * inv, q, d2 * inv, e);
    WeightedTermsCancel(d1, d2, inv);
    assert Dot(p, e) == -d2;
  }

  /**
   * `Solved2` keeps one or two points. Behind w1 it keeps w1 with weight 1;
   * behind w2 it keeps w2 with weight 1; otherwise both weights are positive,
   * sum to 1 and combine to the foot of the perpendicular from the origin.
   */
  lemma Solve2Regions(s: SimplexState)
    ensures var r := Solved2(s);
            var e12 := s.v2.w.Sub(s.v1.w);
            (r.count == 1 || r.count == 2) && r.v3 == s.v3 &&
            (-Dot(s.v1.w, e12) <= 0.0 ==> r.count == 1 && r.v1 == s.v1.(a := 1.0)) &&
            (-Dot(s.v1.w, e12) > 0.0 && Dot(s.v2.w, e12) <= 0.0 ==> r.count == 1 && r.v1 == s.v2.(a := 1.0)) &&
            (r.count == 2 ==>
               r.v1 == s.v1.(a := r.v1.a) && r.v2 == s.v2.(a := r.v2.a) &&
               r.v1.a > 0.0 && r.v2.a > 0.0 && r.v1.a + r.v2.a == 1.0 &&
               Dot(ClosestPoint(r), e12) == 0.0)
  {
    var w1 := s.v1.w;
    var w2 := s.v2.w;
    var e12 := w2.Sub(w1);
    var d12_1 := Dot(w2, e12);
    var d12_2 := -Dot(w1, e12);
    if d12_2 > 0.0 && d12_1 > 0.0 {
      PositiveWeights(d12_1, d12_2);
      WeightsSumToOne(d12_1, d12_2);
      EdgePointIsFoot(w1, w2);
    }
  }

  /** The weights of the two retained points of an edge region sum to 1. */
  lemma Solve3Regions(s: SimplexState)
    ensures var r := Solved3(s);
            var t := Terms(s.v1.w, s.v2.w, s.v3.w);
            1 <= r.count <= 3 &&
            (RegionOf(t) == VertexW1 ==> r.count == 1 && r.v1 == s.v1.(a := 1.0)) &&
            (RegionOf(t) == VertexW2 ==> r.count == 1 && r.v1 == s.v2.(a := 1.0)) &&
            (RegionOf(t) == VertexW3 ==> r.count == 1 && r.v1 == s.v3.(a := 1.0)) &&
            (RegionOf(t) == Edge13 ==>
               r.count == 2 && r.v1 == s.v1.(a := r.v1.a) && r.v2 == s.v3.(a := r.v2.a) &&
               r.v1.a > 0.0 && r.v2.a > 0.0 && r.v1.a + r.v2.a == 1.0 &&
               Dot(ClosestPoint(r), s.v3.w.Sub(s.v1.w)) == 0.0) &&
            (RegionOf(t) == Edge23 ==>
               r.count == 2 && r.v1 == s.v3.(a := r.v1.a) && r.v2 == s.v2.(a := r.v2.a) &&
               r.v1.a > 0.0 && r.v2.a > 0.0 && r.v1.a + r.v2.a == 1.0 &&
               Dot(ClosestPoint(r), s.v3.w.Sub(s.v2.w)) == 0.0) &&
            (RegionOf(t) == Triangle ==> r.count == 3)
  {
    var t := Terms(s.v1.w, s.v2.w, s.v3.w);
    var r := Solved3(s);
    match RegionOf(t)
    case Edge13 => Solve3Edge13(s);
    case Edge23 => Solve3Edge23(s);
    case _ =>
  }

  /** In the edge-13 region the simplex keeps w1 and w3 with positive weights of sum 1 at the foot on that edge. */
  lemma Solve3Edge13(s: SimplexState)
    requires RegionOf(Terms(s.v1.w, s.v2.w, s.v3.w)) == Edge13
    ensures var r := Solved3(s);
            r.count == 2 && r.v1 == s.v1.(a := r.v1.a) && r.v2 == s.v3.(a := r.v2.a) &&
            r.v1.a > 0.0 && r.v2.a > 0.0 && r.v1.a + r.v2.a == 1.0 &&
            Dot(ClosestPoint(r), s.v3.w.Sub(s.v1.w)) == 0.0
  {
    var t := Terms(s.v1.w, s.v2.w, s.v3.w);
    PositiveWeights(t.d13_1, t.d13_2);
    WeightsSumToOne(t.d13_1, t.d13_2);
    EdgePointIsFoot(s.v1.w, s.v3.w);
  }

  /** In the edge-23 region the simplex keeps w3 and w2 with positive weights of sum 1 at the foot on that edge. */
  lemma Solve3Edge23(s: SimplexState)
    requires RegionOf(Terms(s.v1.w, s.v2.w, s.v3.w)) == Edge23
    ensures var r := Solved3(s);
            r.count == 2 && r.v1 == s.v3.(a := r.v1.a) && r.v2 == s.v2.(a := r.v2.a) &&
            r.v1.a > 0.0 && r.v2.a > 0.0 && r.v1.a + r.v2.a == 1.0 &&
            Dot(ClosestPoint(r), s.v3.w.Sub(s.v2.w)) == 0.0
  {
    var t := Terms(s.v1.w, s.v2.w, s.v3.w);
    var r := Solved3(s);
    PositiveWeights(t.d23_2, t.d23_1);
    WeightsSumToOne(t.d23_2, t.d23_1);
    EdgePointIsFoot(s.v2.w, s.v3.w);
    assert ClosestPoint(r) == s.v2.w.Mul(r.v2.a).Add(s.v3.w.Mul(r.v1.a));
  }

  /** In the edge-12 region both retained weights are the same number. */
  lemma Solve3Edge12Weights(s: SimplexState)
    requires RegionOf(Terms(s.v1.w, s.v2.w, s.v3.w)) == Edge12
    ensures var r := Solved3(s);
            r.count == 2 && r.v1.a == r.v2.a && r.v1.a > 0.0
  {
    var t := Terms(s.v1.w, s.v2.w, s.v3.w);
    PositiveWeights(t.d12_1, t.d12_2);
  }

  /** The area terms of a triangle sum to the square of its doubled signed area. */
  lemma AreaTermsSum(w1: Vec2, w2: Vec2, w3: Vec2)
    ensures var t := Terms(w1, w2, w3);
            t.d123_1 + t.d123_2 + t.d123_3 == t.n123 * t.n123
  {
    var t := Terms(w1, w2, w3);
    CrossSumIsArea(w1, w2, w3);
    Distribute3(t.n123, Cross(w2, w3), Cross(w3, w1), Cross(w1, w2));
  }

  /** The three cross products of the corners sum to the doubled signed area. */
  lemma CrossSumIsArea(w1: Vec2, w2: Vec2, w3: Vec2)
    ensures Cross(w2, w3) + Cross(w3, w1) + Cross(w1, w2) == Cross(w2.Sub(w1), w3.Sub(w1))
  {
  }

  lemma Distribute3(n: real, a: real, b: real, c: real)
    ensures n * a + n * b + n * c == n * (a + b + c)
  {
  }

  /** Three plane vectors weighted by the opposite cross products sum to zero. */
  lemma CrossWeightedSum(w1: Vec2, w2: Vec2, w3: Vec2, n: real)
    ensures w1.Mul(n * Cross(w2, w3)).Add(w2.Mul(n * Cross(w3, w1))).Add(w3.Mul(n * Cross(w1, w2))) == Zero
  {
    var p := w1.Mul(n * Cross(w2, w3)).Add(w2.Mul(n * Cross(w3, w1))).Add(w3.Mul(n * Cross(w1, w2)));
    assert p.x == n * (w1.x * (w2.x * w3.y - w2.y * w3.x) + w2.x * (w3.x * w1.y - w3.y * w1.x) + w3.x * (w1.x * w2.y - w1.y * w2.x));
    assert p.y == n * (w1.y * (w2.x * w3.y - w2.y * w3.x) + w2.y * (w3.x * w1.y - w3.y * w1.x) + w3.y * (w1.x * w2.y - w1.y * w2.x));
  }

  lemma ScaledCombination(w1: Vec2, w2: Vec2, w3: Vec2, d1: real, d2: real, d3: real, inv: real)
    ensures w1.Mul(d1 * inv).Add(w2.Mul(d2 * inv)).Add(w3.Mul(d3 * inv)) ==
            w1.Mul(d1).Add(w2.Mul(d2)).Add(w3.Mul(d3)).Mul(inv)
  {
  }

  lemma ThreeWeightsSumToOne(d1: real, d2: real, d3: real)
    requires d1 + d2 + d3 != 0.0
    ensures var inv := 1.0 / (d1 + d2 + d3);
            d1 * inv + d2 * inv + d3 * inv == 1.0
  {
    var inv := 1.0 / (d1 + d2 + d3);
    assert d1 * inv + d2 * inv + d3 * inv == (d1 + d2 + d3) * inv;
  }

  /**
   * In the triangle region the three weights sum to 1 and combine the three points to the origin.
   */
  lemma Solve3TriangleWeights(s: SimplexState)
    requires RegionOf(Terms(s.v1.w, s.v2.w, s.v3.w)) == Triangle
    ensures var r := Solved3(s);
            r.count == 3 && r.v1.a + r.v2.a + r.v3.a == 1.0 &&
            s.v1.w.Mul(r.v1.a).Add(s.v2.w.Mul(r.v2.a)).Add(s.v3.w.Mul(r.v3.a)) == Zero
  {
    var w1, w2, w3 := s.v1.w, s.v2.w, s.v3.w;
    var t := Terms(w1, w2, w3);
    TriangleSumNonZero(w1, w2, w3);
    var inv := 1.0 / (t.d123_1 + t.d123_2 + t.d123_3);
    assert Solved3(s) == Reduced(s, t);
    ReducedTriangle(s, t);
    NormalizedAreaWeights(w1, w2, w3, t.d123_1, t.d123_2, t.d123_3, inv);
  }

  /** In the triangle region every weight is its area term over the sum of the three. */
  lemma ReducedTriangle(s: SimplexState, t: TriangleTerms)
    requires RegionOf(t) == Triangle && t.d123_1 + t.d123_2 + t.d123_3 != 0.0
    ensures var inv := 1.0 / (t.d123_1 + t.d123_2 + t.d123_3);
            var r := Reduced(s, t);
            r.count == 3 && r.v1.a == t.d123_1 * inv && r.v2.a == t.d123_2 * inv && r.v3.a == t.d123_3 * inv
  {
  }

  /** The area terms scaled by the inverse of their sum sum to 1 and combine the three points to the origin. */
  lemma NormalizedAreaWeights(w1: Vec2, w2: Vec2, w3: Vec2, d1: real, d2: real, d3: real, inv: real)
    requires var t := Terms(w1, w2, w3); d1 == t.d123_1 && d2 == t.d123_2 && d3 == t.d123_3
    requires d1 + d2 + d3 != 0.0 && inv == 1.0 / (d1 + d2 + d3)
    ensures d1 * inv + d2 * inv + d3 * inv == 1.0
    ensures w1.Mul(d1 * inv).Add(w2.Mul(d2 * inv)).Add(w3.Mul(d3 * inv)) == Zero
  {
    ThreeWeightsSumToOne(d1, d2, d3);
    var n := Terms(w1, w2, w3).n123;
    assert d1 == n * Cross(w2, w3) && d2 == n * Cross(w3, w1) && d3 == n * Cross(w1, w2);
    CrossWeightedSum(w1, w2, w3, n);
    ScaledCombination(w1, w2, w3, d1, d2, d3, inv);
    assert Zero.Mul(inv) == Zero;
  }

  /**
   * The search direction of a segment is perpendicular to it and points to
   * the side of the origin.
   */
  lemma SearchDirectionOfSegment(s: SimplexState)
    requires s.count == 2
    ensures Dot(SearchDirection(s), s.v2.w.Sub(s.v1.w)) == 0.0
    ensures Dot(SearchDirection(s), s.v1.w.Negate()) >= 0.0
  {
  }

  /**
   * The witness points of a segment differ by the closest point of the
   * simplex, and those of a triangle coincide.
   */
  lemma WitnessPointsGap(s: SimplexState, pA: Vec2, pB: Vec2)
    requires s.v1.w == s.v1.wB.Sub(s.v1.wA) && s.v2.w == s.v2.wB.Sub(s.v2.wA)
    ensures s.count == 2 ==> WitnessPoints(s, pA, pB).1.Sub(WitnessPoints(s, pA, pB).0) == ClosestPoint(s)
    ensures s.count == 3 ==> WitnessPoints(s, pA, pB).0 == WitnessPoints(s, pA, pB).1
  {
    if s.count == 2 {
      var a1, a2 := s.v1.a, s.v2.a;
      var gap := WitnessPoints(s, pA, pB).1.Sub(WitnessPoints(s, pA, pB).0);
      assert gap.x == (s.v1.wB.x - s.v1.wA.x) * a1 + (s.v2.wB.x - s.v2.wA.x) * a2;
      assert gap.y == (s.v1.wB.y - s.v1.wA.y) * a1 + (s.v2.wB.y - s.v2.wA.y) * a2;
    }
  }

  // ---------------------------------------------------------------------
  // Properties of the cache

  /**
   * Reading a cache yields one to three points. An empty or flushed cache
   * becomes the single pair of vertices 0; any other cache is restored with
   * its count, its index pairs and zero weights.
   */
  lemma ReadCacheResult(s: SimplexState, c: CacheRecord, proxyA: Proxy, xfA: Placement, proxyB: Proxy, xfB: Placement,
                        eps: real, sqrt: real -> real)
    requires c.WellFormed()
    ensures var r := FromCache(s, c, proxyA, xfA, proxyB, xfB, eps, sqrt);
            var l := Loaded(s, c, proxyA, xfA, proxyB, xfB);
            (c.count == 0 || Flushed(c, Metric(l, sqrt), eps) ==>
               r.count == 1 && r.v1.indexA == 0 && r.v1.indexB == 0 && Supported(r.v1, proxyA, xfA, proxyB, xfB)) &&
            (c.count != 0 && !Flushed(c, Metric(l, sqrt), eps) ==>
               r.count == c.count && Consistent(r, proxyA, xfA, proxyB, xfB) &&
               forall i :: 0 <= i < c.count ==>
                 r.Vertex(i).indexA == c.indexA[i] && r.Vertex(i).indexB == c.indexB[i] && r.Vertex(i).a == 0.0)
  {
  }

  /**
   * A cache written from a consistent simplex and read back under the same
   * transforms gives back the same count and index pairs, when the simplex
   * is a point or its metric is at least `eps`.
   */
  lemma CacheRoundTrip(s: SimplexState, t: SimplexState, c: CacheRecord,
                       proxyA: Proxy, xfA: Placement, proxyB: Proxy, xfB: Placement, eps: real, sqrt: real -> real)
    requires 1 <= s.count <= 3 && c.WellFormed() && eps > 0.0
    requires Consistent(s, proxyA, xfA, proxyB, xfB)
    requires s.count == 1 || Metric(s, sqrt) >= eps
    ensures var r := FromCache(t, ToCache(s, c, sqrt), proxyA, xfA, proxyB, xfB, eps, sqrt);
            r.count == s.count &&
            forall i :: 0 <= i < s.count ==>
              r.Vertex(i).indexA == s.Vertex(i).indexA && r.Vertex(i).indexB == s.Vertex(i).indexB &&
              r.Vertex(i).w == s.Vertex(i).w
  {
    var w := ToCache(s, c, sqrt);
    var l := Loaded(t, w, proxyA, xfA, proxyB, xfB);
    assert l.v1.w == s.v1.w;
    assert s.count >= 2 ==> l.v2.w == s.v2.w;
    assert s.count >= 3 ==> l.v3.w == s.v3.w;
    assert Metric(l, sqrt) == Metric(s, sqrt);
    assert !Flushed(w, Metric(l, sqrt), eps);
  }

  // ---------------------------------------------------------------------
  // One pass of the search

  /** The reduction at the start of a pass: `solve2` for a segment, `solve3` for a triangle. */
  function Reduce(s: SimplexState): SimplexState
  {
    if s.count == 2 then Solved2(s) else if s.count == 3 then Solved3(s) else s
  }

  /**
   * The support point for search direction `d`: the vertex of A furthest
   * along `-d` paired with the vertex of B furthest along `d`, with weight `a`.
   */
  function SupportPoint(proxyA: Proxy, xfA: Placement, proxyB: Proxy, xfB: Placement, d: Vec2, a: real): SimplexVertex
  {
    SupportVertex(proxyA, xfA, proxyA.getSupport(xfA.mulTransR(d.Negate())),
                  proxyB, xfB, proxyB.getSupport(xfB.mulTransR(d)), a)
  }

  /**
   * Reducing a simplex of one to three points keeps at least one point and
   * no more than it had, and keeps every point in use a support point of
   * the two shapes: the reduction only reweights and moves vertices.
   */
  lemma ReduceKeepsConsistent(s: SimplexState, proxyA: Proxy, xfA: Placement, proxyB: Proxy, xfB: Placement)
    requires 1 <= s.count <= 3 && Consistent(s, proxyA, xfA, proxyB, xfB)
    ensures var r := Reduce(s);
            1 <= r.count <= s.count && Consistent(r, proxyA, xfA, proxyB, xfB)
  {
    if s.count == 3 {
      var t := Terms(s.v1.w, s.v2.w, s.v3.w);
      if RegionOf(t) == Triangle {
        TriangleSumNonZero(s.v1.w, s.v2.w, s.v3.w);
      }
      assert Solved3(s) == Reduced(s, t);
    }
  }

  /**
   * Growing a consistent simplex of fewer than three points by a support
   * point in its next free slot gives a consistent simplex.
   */
  lemma GrowKeepsConsistent(s: SimplexState, proxyA: Proxy, xfA: Placement, proxyB: Proxy, xfB: Placement,
                            d: Vec2, a: real)
    requires 1 <= s.count < 3 && Consistent(s, proxyA, xfA, proxyB, xfB)
    ensures var g := s.WithVertex(s.count, SupportPoint(proxyA, xfA, proxyB, xfB, d, a)).(count := s.count + 1);
            g.count == s.count + 1 && Consistent(g, proxyA, xfA, proxyB, xfB)
  {
  }

  // ---------------------------------------------------------------------
  // Properties of the output

  /**
   * Separated rounded shapes keep a positive distance reduced by both radii;
   * overlapping ones get distance 0 and both points at the old midpoint.
   */
  lemma RadiiEffect(pA: Vec2, pB: Vec2, distance: real, rA: real, rB: real, eps: real, sqrt: real -> real)
    requires eps > 0.0
    ensures var r := ApplyRadii(pA, pB, distance, rA, rB, eps, sqrt);
            (distance > rA + rB && distance > eps ==>
               r.2 == distance - (rA + rB) && r.2 > 0.0) &&
            (!(distance > rA + rB && distance > eps) ==>
               r.0 == r.1 && r.0 == pA.Add(pB).Mul(0.5) && r.2 == 0.0)
  {
  }

  // ---------------------------------------------------------------------
  // The mutable objects

  /** The cache kept between calls: a metric, a count and two arrays of three indices. */
  class SimplexCache {
    var metric: real
    var count: int
    const indexA: array<int>
    const indexB: array<int>

    predicate Valid()
      reads this
    {
      indexA.Length == 3 && indexB.Length == 3 && indexA != indexB
    }

    function Record(): CacheRecord
      reads this, indexA, indexB
    {
      CacheRecord(metric, count, indexA[..], indexB[..])
    }

    /** An empty cache, as a first call expects. */
    constructor ()
      ensures Valid() && fresh(indexA) && fresh(indexB)
      ensures Record() == CacheRecord(0.0, 0, [0, 0, 0], [0, 0, 0])
    {
      metric := 0.0;
      count := 0;
      indexA := new int[3](_ => 0);
      indexB := new int[3](_ => 0);
    }
  }

  /** The simplex of the routine, updated in place. */
  class Simplex {
    var v1: SimplexVertex
    var v2: SimplexVertex
    var v3: SimplexVertex
    var count: int

    function State(): SimplexState
      reads this
    {
      SimplexState(v1, v2, v3, count)
    }

    constructor ()
      ensures State() == SimplexState(BlankVertex, BlankVertex, BlankVertex, 0)
    {
      v1, v2, v3 := BlankVertex, BlankVertex, BlankVertex;
      count := 0;
    }

    /** `vertices[i] = v`. */
    method SetVertex(i: int, v: SimplexVertex)
      requires 0 <= i < 3
      modifies this
      ensures State() == old(State()).WithVertex(i, v)
    {
      if i == 0 {
        v1 := v;
      } else if i == 1 {
        v2 := v;
      } else {
        v3 := v;
      }
    }

    method ReadCache(cache: SimplexCache, proxyA: Proxy, xfA: Placement, proxyB: Proxy, xfB: Placement,
                     eps: real, sqrt: real -> real)
      requires cache.Valid() && 0 <= cache.count <= 3
      modifies this
      ensures State() == FromCache(old(State()), cache.Record(), proxyA, xfA, proxyB, xfB, eps, sqrt)
      ensures 1 <= count <= 3 && Consistent(State(), proxyA, xfA, proxyB, xfB)
    {
      ghost var c := cache.Record();
      ghost var s0 := State();
      count := cache.count;
      var i := 0;
      while i < count
        invariant 0 <= i <= count == c.count
        invariant forall j :: 0 <= j < i ==>
          State().Vertex(j) == SupportVertex(proxyA, xfA, c.indexA[j], proxyB, xfB, c.indexB[j], 0.0)
        invariant forall j :: i <= j < 3 ==> State().Vertex(j) == s0.Vertex(j)
      {
        var indexA := cache.indexA[i];
        var indexB := cache.indexB[i];
        var wA := xfA.mul(proxyA.getVertex(indexA));
        var wB := xfB.mul(proxyB.getVertex(indexB));
        SetVertex(i, SimplexVertex(wA, wB, wB.Sub(wA), 0.0, indexA, indexB));
        i := i + 1;
      }
      assert State() == Loaded(s0, c, proxyA, xfA, proxyB, xfB) by {
        assert State().v1 == State().Vertex(0);
        assert State().v2 == State().Vertex(1);
        assert State().v3 == State().Vertex(2);
      }
      if count > 1 {
        var metric1 := cache.metric;
        var metric2 := GetMetric(sqrt);
        if metric2 < 0.5 * metric1 || 2.0 * metric1 < metric2 || metric2 < eps {
          count := 0;
        }
      }
      if count == 0 {
        var wA := xfA.mul(proxyA.getVertex(0));
        var wB := xfB.mul(proxyB.getVertex(0));
        v1 := v1.(wA := wA, wB := wB, w := wB.Sub(wA), indexA := 0, indexB := 0);
        count := 1;
      }
      ReadCacheResult(s0, c, proxyA, xfA, proxyB, xfB, eps, sqrt);
    }

    method WriteCache(cache: SimplexCache, sqrt: real -> real)
      requires cache.Valid() && 0 <= count <= 3
      modifies cache, cache.indexA, cache.indexB
      ensures cache.Record() == ToCache(State(), old(cache.Record()), sqrt)
    {
      ghost var c := cache.Record();
      var m := GetMetric(sqrt);
      cache.metric := m;
      cache.count := count;
      var i := 0;
      while i < count
        invariant 0 <= i <= count
        invariant cache.metric == m && cache.count == count
        invariant forall j :: 0 <= j < i ==> cache.indexA[j] == State().Vertex(j).indexA && cache.indexB[j] == State().Vertex(j).indexB
        invariant forall j :: i <= j < 3 ==> cache.indexA[j] == c.indexA[j] && cache.indexB[j] == c.indexB[j]
      {
        var v := State().Vertex(i);
        cache.indexA[i] := v.indexA;
        cache.indexB[i] := v.indexB;
        i := i + 1;
      }
      assert cache.indexA[..] == ToCache(State(), c, sqrt).indexA;
      assert cache.indexB[..] == ToCache(State(), c, sqrt).indexB;
    }

    method GetSearchDirection() returns (out: Vec2)
      ensures out == SearchDirection(State())
      ensures count == 2 ==> Dot(out, v2.w.Sub(v1.w)) == 0.0
    {
      if count == 1 {
        out := v1.w.Negate();
      } else if count == 2 {
        var e12 := v2.w.Sub(v1.w);
        out := v1.w.Negate();
        var sgn := Cross(e12, out);
        if sgn > 0.0 {
          out := CrossSV(1.0, e12);
        } else {
          out := CrossVS(e12, 1.0);
        }
      } else {
        out := Zero;
      }
      if count == 2 {
        SearchDirectionOfSegment(State());
      }
    }

    method GetClosestPoint() returns (out: Vec2)
      ensures out == ClosestPoint(State())
    {
      if count == 1 || count == 2 {
        var case22 := v2.w.Mul(v2.a);
        out := v1.w.Mul(v1.a).Add(case22);
      } else {
        out := Zero;
      }
    }

    method GetWitnessPoints(output: DistanceOutput)
      modifies output
      ensures (output.pointA, output.pointB) == WitnessPoints(State(), old(output.pointA), old(output.pointB))
      ensures output.distance == old(output.distance) && output.iterations == old(output.iterations)
    {
      if count == 1 {
        output.pointA := v1.wA;
        output.pointB := v1.wB;
      } else if count == 2 {
        output.pointA := v2.wA.Mul(v2.a).Add(v1.wA.Mul(v1.a));
        output.pointB := v2.wB.Mul(v2.a).Add(v1.wB.Mul(v1.a));
      } else if count == 3 {
        var p := v1.wA.Mul(v1.a).Add(v2.wA.Mul(v2.a)).Add(v3.wA.Mul(v3.a));
        output.pointA := p;
        output.pointB := p;
      }
    }

    method GetMetric(sqrt: real -> real) returns (m: real)
      ensures m == Metric(State(), sqrt)
    {
      if count == 2 {
        m := sqrt(DistanceSquared(v1.w, v2.w));
      } else if count == 3 {
        m := Cross(v2.w.Sub(v1.w), v3.w.Sub(v1.w));
      } else {
        m := 0.0;
      }
    }

    method Solve2()
      modifies this
      ensures State() == Solved2(old(State()))
      ensures count == 1 || count == 2
    {
      var w1 := v1.w;
      var w2 := v2.w;
      var e12 := w2.Sub(w1);
      var d12_2 := -Dot(w1, e12);
      if d12_2 <= 0.0 {
        v1 := v1.(a := 1.0);
        count := 1;
        return;
      }
      var d12_1 := Dot(w2, e12);
      if d12_1 <= 0.0 {
        v2 := v2.(a := 1.0);
        count := 1;
        v1 := v2;
        return;
      }
      var inv := 1.0 / (d12_1 + d12_2);
      v1 := v1.(a := d12_1 * inv);
      v2 := v2.(a := d12_2 * inv);
      count := 2;
    }

    /** The last case of `Solve3`: the origin is inside the triangle. */
    method SolveInterior(t: TriangleTerms)
      requires t == Terms(v1.w, v2.w, v3.w) && RegionOf(t) == Triangle
      modifies this
      ensures State() == Solved3(old(State())) && count == 3
    {
      ghost var s := State();
      TriangleSumNonZero(v1.w, v2.w, v3.w);
      var inv := 1.0 / (t.d123_1 + t.d123_2 + t.d123_3);
      var a1, a2, a3 := t.d123_1 * inv, t.d123_2 * inv, t.d123_3 * inv;
      assert Solved3(s) == s.(v1 := s.v1.(a := a1), v2 := s.v2.(a := a2), v3 := s.v3.(a := a3), count := 3);
      v1 := v1.(a := a1);
      v2 := v2.(a := a2);
      v3 := v3.(a := a3);
      count := 3;
    }

    method Solve3()
      modifies this
      ensures State() == Solved3(old(State()))
      ensures 1 <= count <= 3
    {
      ghost var s := State();
      var t := Terms(v1.w, v2.w, v3.w);
      if t.d12_2 <= 0.0 && t.d13_2 <= 0.0 {
        assert RegionOf(t) == VertexW1;
        v1 := v1.(a := 1.0);
        count := 1;
        return;
      }
      if t.d12_1 > 0.0 && t.d12_2 > 0.0 && t.d123_3 <= 0.0 {
        assert RegionOf(t) == Edge12;
        var inv := 1.0 / (t.d12_1 + t.d12_2);
        v1 := v1.(a := t.d12_1 * inv);
        v2 := v2.(a := t.d12_1 * inv);
        count := 2;
        return;
      }
      if t.d13_1 > 0.0 && t.d13_2 > 0.0 && t.d123_2 <= 0.0 {
        assert RegionOf(t) == Edge13;
        var inv := 1.0 / (t.d13_1 + t.d13_2);
        v1 := v1.(a := t.d13_1 * inv);
        v3 := v3.(a := t.d13_2 * inv);
        count := 2;
        v2 := v3;
        return;
      }
      SolveFarFeatures(t);
    }

    /** The regions `Solve3` tests after the first vertex and the two edges at it. */
    method SolveFarFeatures(t: TriangleTerms)
      requires t == Terms(v1.w, v2.w, v3.w)
      requires RegionOf(t) !in {VertexW1, Edge12, Edge13}
      modifies this
      ensures State() == Solved3(old(State()))
      ensures 1 <= count <= 3
    {
      ghost var s := State();
      if t.d12_1 <= 0.0 && t.d23_2 <= 0.0 {
        assert RegionOf(t) == VertexW2;
        v2 := v2.(a := 1.0);
        count := 1;
        v1 := v2;
        return;
      }
      if t.d13_1 <= 0.0 && t.d23_1 <= 0.0 {
        assert RegionOf(t) == VertexW3;
        v3 := v3.(a := 1.0);
        count := 1;
        v1 := v3;
        return;
      }
      if t.d23_1 > 0.0 && t.d23_2 > 0.0 && t.d123_1 <= 0.0 {
        assert RegionOf(t) == Edge23;
        var inv := 1.0 / (t.d23_1 + t.d23_2);
        v2 := v2.(a := t.d23_1 * inv);
        v3 := v3.(a := t.d23_2 * inv);
        count := 2;
        v1 := v3;
        return;
      }
      assert RegionOf(t) == Triangle;
      SolveInterior(t);
    }
  }

  /** The two shapes, their transforms and whether the radii count. */
  datatype DistanceInput = DistanceInput(proxyA: Proxy, transformA: Placement,
                                         proxyB: Proxy, transformB: Placement, useRadii: bool)

  class DistanceOutput {
    var pointA: Vec2
    var pointB: Vec2
    var distance: real
    var iterations: int

    constructor ()
      ensures pointA == Zero && pointB == Zero && distance == 0.0 && iterations == 0
    {
      pointA, pointB := Zero, Zero;
      distance := 0.0;
      iterations := 0;
    }
  }

  /** The routine with its call and iteration counters and its scratch arrays. */
  class Distance {
    var gjkCalls: Int32
    var gjkIters: Int32
    var gjkMaxIters: Int32
    const simplex: Simplex
    const saveA: array<int>
    const saveB: array<int>

    predicate Valid()
      reads this
    {
      saveA.Length == 3 && saveB.Length == 3 && saveA != saveB
    }

    constructor ()
      ensures Valid() && fresh(simplex) && fresh(saveA) && fresh(saveB)
      ensures gjkCalls == 0 && gjkIters == 0 && gjkMaxIters == 20
    {
      gjkCalls, gjkIters, gjkMaxIters := 0, 0, 20;
      simplex := new Simplex();
      saveA := new int[3];
      saveB := new int[3];
    }

    /** Copies the index pairs of the simplex into `saveA` and `saveB`. */
    method SaveIndices()
      requires Valid() && 0 <= simplex.count <= 3
      modifies saveA, saveB
      ensures forall i :: 0 <= i < simplex.count ==>
                saveA[i] == simplex.State().Vertex(i).indexA && saveB[i] == simplex.State().Vertex(i).indexB
    {
      var i := 0;
      while i < simplex.count
        invariant 0 <= i <= simplex.count
        invariant forall j :: 0 <= j < i ==>
                    saveA[j] == simplex.State().Vertex(j).indexA && saveB[j] == simplex.State().Vertex(j).indexB
      {
        var v := simplex.State().Vertex(i);
        saveA[i] := v.indexA;
        saveB[i] := v.indexB;
        i := i + 1;
      }
    }

    /** Whether the pair (indexA, indexB) is one of the first `saveCount` saved pairs. */
    method FindDuplicate(indexA: int, indexB: int, saveCount: int) returns (duplicate: bool)
      requires Valid() && 0 <= saveCount <= 3
      ensures duplicate <==> exists i :: 0 <= i < saveCount && saveA[i] == indexA && saveB[i] == indexB
    {
      duplicate := false;
      var i := 0;
      while i < saveCount
        invariant 0 <= i <= saveCount
        invariant forall j :: 0 <= j < i ==> !(saveA[j] == indexA && saveB[j] == indexB)
      {
        if indexA == saveA[i] && indexB == saveB[i] {
          duplicate := true;
          break;
        }
        i := i + 1;
      }
    }

    /** Applies the radii to the witness points and the distance in `output`. */
    static method MoveToSurfaces(output: DistanceOutput, rA: real, rB: real, eps: real, sqrt: real -> real)
      requires eps > 0.0
      modifies output
      ensures (output.pointA, output.pointB, output.distance) ==
              ApplyRadii(old(output.pointA), old(output.pointB), old(output.distance), rA, rB, eps, sqrt)
      ensures output.iterations == old(output.iterations)
    {
      if output.distance > rA + rB && output.distance > eps {
        output.distance := output.distance - (rA + rB);
        var normal := new MutableVec2(output.pointB.x - output.pointA.x, output.pointB.y - output.pointA.y);
        var length := normal.Normalize(eps, sqrt);
        var n := normal.Value();
        output.pointA := output.pointA.Add(n.Mul(rA));
        output.pointB := output.pointB.Sub(n.Mul(rB));
      } else {
        output.pointA := output.pointA.Add(output.pointB).Mul(0.5);
        output.pointB := output.pointA;
        output.distance := 0.0;
      }
    }

    /** The reduction at the top of a pass, by the number of points. */
    method ReduceSimplex()
      requires 1 <= simplex.count <= 3
      modifies simplex
      ensures simplex.State() == Reduce(old(simplex.State()))
    {
      if simplex.count == 2 {
        simplex.Solve2();
      } else if simplex.count == 3 {
        simplex.Solve3();
      }
    }

    /**
     * One pass of the main loop: save the index pairs, reduce the simplex,
     * stop on a triangle or a tiny search direction, otherwise write the
     * support point in the search direction into the next free slot, and
     * stop when its index pair was saved, or grow the simplex by it. The
     * progress test on the closest point has no effect, as its `break` is
     * commented out. `added` says whether a support point was computed.
     * The new simplex of each half is stated by `ReduceSimplex` and
     * `AddSupportPoint`; a pass that goes on has one point more than the
     * reduced simplex, and every point in use stays a support point.
     */
    method Step(proxyA: Proxy, xfA: Placement, proxyB: Proxy, xfB: Placement, eps: real)
      returns (added: bool, stop: bool, ghost exit: Exit)
      requires Valid() && 1 <= simplex.count <= 3
      requires Consistent(simplex.State(), proxyA, xfA, proxyB, xfB)
      modifies simplex, saveA, saveB
      ensures 1 <= simplex.count <= 3
      ensures Consistent(simplex.State(), proxyA, xfA, proxyB, xfB)
      ensures !stop ==> simplex.count == Reduce(old(simplex.State())).count + 1
      ensures !stop ==> added && exit == IterationLimit
      ensures stop && exit == TriangleFound ==> simplex.count == 3 && !added
      ensures stop && exit == SmallDirection ==>
                !added && SearchDirection(simplex.State()).LengthSquared() < eps * eps
      ensures stop ==> exit == TriangleFound || exit == SmallDirection || exit.Duplicate?
      ensures exit.Duplicate? ==>
                stop && added && simplex.count < 3 && 0 <= exit.saveCount <= 3 &&
                exists i :: 0 <= i < exit.saveCount &&
                  saveA[i] == simplex.State().Vertex(simplex.count).indexA &&
                  saveB[i] == simplex.State().Vertex(simplex.count).indexB
    {
      ghost var s0 := simplex.State();
      var saveCount := simplex.count;
      SaveIndices();

      ReduceSimplex();
      ReduceKeepsConsistent(s0, proxyA, xfA, proxyB, xfB);

      // With three points the origin is inside the triangle.
      if simplex.count == 3 {
        return false, true, TriangleFound;
      }

      var d := simplex.GetSearchDirection();
      if d.LengthSquared() < eps * eps {
        return false, true, SmallDirection;
      }

      var duplicate := AddSupportPoint(proxyA, xfA, proxyB, xfB, d, saveCount);
      if duplicate {
        return true, true, Duplicate(saveCount);
      }
      return true, false, IterationLimit;
    }

    /**
     * The end of a pass on a reduced simplex of one or two points: the
     * support point for search direction `d` goes into the next free slot,
     * and is counted unless its index pair is among the `saveCount` saved
     * pairs, which `duplicate` reports.
     */
    method AddSupportPoint(proxyA: Proxy, xfA: Placement, proxyB: Proxy, xfB: Placement, d: Vec2, saveCount: int)
      returns (duplicate: bool)
      requires Valid() && 1 <= simplex.count < 3 && 0 <= saveCount <= 3
      requires Consistent(simplex.State(), proxyA, xfA, proxyB, xfB)
      modifies simplex
      ensures var k := old(simplex.count);
              simplex.State() ==
                old(simplex.State()).WithVertex(k, SupportPoint(proxyA, xfA, proxyB, xfB, d, old(simplex.State()).Vertex(k).a))
                  .(count := if duplicate then k else k + 1)
      ensures Consistent(simplex.State(), proxyA, xfA, proxyB, xfB)
      ensures var v := simplex.State().Vertex(old(simplex.count));
              duplicate <==> exists i :: 0 <= i < saveCount && saveA[i] == v.indexA && saveB[i] == v.indexB
    {
      ghost var r := simplex.State();
      // The support points of A against d and of B along d.
      var k := simplex.count;
      var vertex := simplex.State().Vertex(k);
      var dA := d.Negate();
      var temp := xfA.mulTransR(dA);
      var indexA := proxyA.getSupport(temp);
      var wA := xfA.mul(proxyA.getVertex(indexA));
      var dB := dA.Negate();
      temp := xfB.mulTransR(dB);
      var indexB := proxyB.getSupport(temp);
      var wB := xfB.mul(proxyB.getVertex(indexB));
      assert dB == d;
      simplex.SetVertex(k, vertex.(wA := wA, wB := wB, w := wB.Sub(wA), indexA := indexA, indexB := indexB));
      GrowKeepsConsistent(r, proxyA, xfA, proxyB, xfB, d, vertex.a);

      duplicate := FindDuplicate(indexA, indexB, saveCount);
      if !duplicate {
        simplex.count := simplex.count + 1;
      }
    }

    /**
     * `++iter; ++gjkIters;`, the second in 32-bit arithmetic, where
     * `gjkIters` stood at `base` when `iter` was 0.
     */
    method CountIteration(ghost base: Int32, iter: Int32) returns (next: Int32)
      requires 0 <= iter < gjkMaxIters && gjkIters == Incremented(base, iter)
      modifies this`gjkIters
      ensures next == iter + 1 && gjkIters == Incremented(base, next)
    {
      next := iter + 1;
      gjkIters := Increment(gjkIters);
    }

    /**
     * The main loop: at most `gjkMaxIters` support points are computed, each
     * counted in `iter` and in `gjkIters`; it ends early on a triangle, a
     * tiny search direction or a repeated support pair.
     */
    method Iterate(proxyA: Proxy, xfA: Placement, proxyB: Proxy, xfB: Placement, eps: real)
      returns (iter: Int32, ghost exit: Exit)
      requires Valid() && 1 <= simplex.count <= 3
      requires Consistent(simplex.State(), proxyA, xfA, proxyB, xfB)
      modifies this`gjkIters, simplex, saveA, saveB
      ensures 0 <= iter && (iter == 0 || iter <= gjkMaxIters)
      ensures gjkIters == Incremented(old(gjkIters), iter)
      ensures 1 <= simplex.count <= 3
      ensures Consistent(simplex.State(), proxyA, xfA, proxyB, xfB)
      ensures exit == TriangleFound ==> simplex.count == 3
      ensures exit == SmallDirection ==> SearchDirection(simplex.State()).LengthSquared() < eps * eps
      ensures exit.Duplicate? ==>
                simplex.count < 3 && 0 <= exit.saveCount <= 3 &&
                exists i :: 0 <= i < exit.saveCount &&
                  saveA[i] == simplex.State().Vertex(simplex.count).indexA &&
                  saveB[i] == simplex.State().Vertex(simplex.count).indexB
      ensures exit == IterationLimit ==> iter == gjkMaxIters || (gjkMaxIters <= 0 && iter == 0)
    {
      ghost var gjkIters0 := gjkIters;
      // The closest point before the loop feeds only the inactive progress test.
      var closestPoint := simplex.GetClosestPoint();

      iter := 0;
      exit := IterationLimit;
      while iter < gjkMaxIters
        invariant 1 <= simplex.count <= 3
        invariant Consistent(simplex.State(), proxyA, xfA, proxyB, xfB)
        invariant 0 <= iter && (iter == 0 || iter <= gjkMaxIters)
        invariant gjkIters == Incremented(gjkIters0, iter)
        invariant exit == IterationLimit
        decreases gjkMaxIters - iter
      {
        var added, stop, e := Step(proxyA, xfA, proxyB, xfB, eps);
        if added {
          iter := CountIteration(gjkIters0, iter);
        }
        if stop {
          exit := e;
          break;
        }
      }
    }

    /**
     * The closest points of two shapes. The cache is read before and
     * written after; the witness points, their distance and the iteration
     * count are written to `output`, with the radii applied on request.
     */
    method Compute(output: DistanceOutput, cache: SimplexCache, input: DistanceInput,
                   eps: real, sqrt: real -> real)
      requires Valid() && cache.Valid() && 0 <= cache.count <= 3 && eps > 0.0
      requires cache.indexA != saveA && cache.indexA != saveB && cache.indexB != saveA && cache.indexB != saveB
      modifies this, simplex, saveA, saveB, output, cache, cache.indexA, cache.indexB
      ensures Valid()
      ensures gjkCalls == Increment(old(gjkCalls))
      ensures 0 <= output.iterations && (output.iterations == 0 || output.iterations <= old(gjkMaxIters))
      ensures gjkIters == Incremented(old(gjkIters), output.iterations)
      ensures gjkMaxIters == MaxInt(old(gjkMaxIters), output.iterations) && gjkMaxIters >= old(gjkMaxIters)
      ensures 1 <= simplex.count <= 3
      ensures Consistent(simplex.State(), input.proxyA, input.transformA, input.proxyB, input.transformB)
      ensures cache.Record() == ToCache(simplex.State(), old(cache.Record()), sqrt)
      ensures var (pA, pB) := WitnessPoints(simplex.State(), old(output.pointA), old(output.pointB));
              var d := MathUtils.Distance(pA, pB, sqrt);
              (output.pointA, output.pointB, output.distance) ==
                if input.useRadii then ApplyRadii(pA, pB, d, input.proxyA.radius, input.proxyB.radius, eps, sqrt)
                else (pA, pB, d)
    {
      gjkCalls := Increment(gjkCalls);
      var iter := Search(cache, input, eps, sqrt);
      Report(output, cache, input, iter, eps, sqrt);
    }

    /**
     * The search of `Compute`: the simplex is read from the cache and
     * improved until the loop stops; the iteration counters are updated.
     */
    method Search(cache: SimplexCache, input: DistanceInput, eps: real, sqrt: real -> real) returns (iter: Int32)
      requires Valid() && cache.Valid() && 0 <= cache.count <= 3 && eps > 0.0
      modifies this`gjkIters, this`gjkMaxIters, simplex, saveA, saveB
      ensures 0 <= iter && (iter == 0 || iter <= old(gjkMaxIters))
      ensures gjkIters == Incremented(old(gjkIters), iter)
      ensures gjkMaxIters == MaxInt(old(gjkMaxIters), iter)
      ensures 1 <= simplex.count <= 3
      ensures Consistent(simplex.State(), input.proxyA, input.transformA, input.proxyB, input.transformB)
    {
      simplex.ReadCache(cache, input.proxyA, input.transformA, input.proxyB, input.transformB, eps, sqrt);
      ghost var exit;
      iter, exit := Iterate(input.proxyA, input.transformA, input.proxyB, input.transformB, eps);
      gjkMaxIters := MaxInt(gjkMaxIters, iter);
    }

    /**
     * The end of `Compute`: the witness points, their distance and the
     * iteration count go into `output`, the simplex into `cache`, and the
     * radii are applied on request.
     */
    method Report(output: DistanceOutput, cache: SimplexCache, input: DistanceInput, iter: Int32,
                  eps: real, sqrt: real -> real)
      requires cache.Valid() && 0 <= simplex.count <= 3 && eps > 0.0
      modifies output, cache, cache.indexA, cache.indexB
      ensures simplex.State() == old(simplex.State())
      ensures output.iterations == iter
      ensures cache.Record() == ToCache(simplex.State(), old(cache.Record()), sqrt)
      ensures var (pA, pB) := WitnessPoints(simplex.State(), old(output.pointA), old(output.pointB));
              var d := MathUtils.Distance(pA, pB, sqrt);
              (output.pointA, output.pointB, output.distance) ==
                if input.useRadii then ApplyRadii(pA, pB, d, input.proxyA.radius, input.proxyB.radius, eps, sqrt)
                else (pA, pB, d)
    {
      simplex.GetWitnessPoints(output);
      output.distance := MathUtils.Distance(output.pointA, output.pointB, sqrt);
      output.iterations := iter;

      simplex.WriteCache(cache, sqrt);

      if input.useRadii {
        MoveToSurfaces(output, input.proxyA.radius, input.proxyB.radius, eps, sqrt);
      }
    }
  }
}
