/**
 * Two-dimensional vectors. `Vec2` is the value algebra (the operations that
 * return a new vector or a scalar); `MutableVec2` is the mutable vector object
 * of the engine, whose in-place operations overwrite its two fields.
 */
module Vectors {
  import opened Settings

  datatype Vec2 = Vec2(x: real, y: real)
  {
    function Add(v: Vec2): Vec2 { Vec2(x + v.x, y + v.y) }

    function Sub(v: Vec2): Vec2 { Vec2(x - v.x, y - v.y) }

    function Mul(a: real): Vec2 { Vec2(x * a, y * a) }

    function Negate(): Vec2 { Vec2(-x, -y) }

    /** The vector turned a quarter turn counter-clockwise. */
    function Skew(): Vec2 { Vec2(-y, x) }

    function LengthSquared(): real { x * x + y * y }

    function Length(sqrt: real -> real): real { sqrt(x * x + y * y) }
  }

  const Zero := Vec2(0.0, 0.0)

  function Dot(a: Vec2, b: Vec2): real { a.x * b.x + a.y * b.y }

  /** The scalar cross product of two vectors. */
  function Cross(a: Vec2, b: Vec2): real { a.x * b.y - a.y * b.x }

  /** The cross product of a vector with a scalar, `a x s`. */
  function CrossVS(a: Vec2, s: real): Vec2 { Vec2(s * a.y, -s * a.x) }

  /** The cross product of a scalar with a vector, `s x a`. */
  function CrossSV(s: real, a: Vec2): Vec2 { Vec2(-s * a.y, s * a.x) }

  function MinReal(a: real, b: real): (r: real)
    ensures r <= a && r <= b && (r == a || r == b)
  {
    if a <= b then a else b
  }

  function MaxReal(a: real, b: real): (r: real)
    ensures r >= a && r >= b && (r == a || r == b)
  {
    if a >= b then a else b
  }

  /** The absolute value used for vector components. */
  function AbsReal(a: real): (r: real)
    ensures r >= 0.0 && (r == a || r == -a)
  {
    if a > 0.0 then a else -a
  }

  function Min(a: Vec2, b: Vec2): (r: Vec2)
    ensures r.x <= a.x && r.x <= b.x && r.y <= a.y && r.y <= b.y
    ensures (r.x == a.x || r.x == b.x) && (r.y == a.y || r.y == b.y)
  {
    Vec2(MinReal(a.x, b.x), MinReal(a.y, b.y))
  }

  function Max(a: Vec2, b: Vec2): (r: Vec2)
    ensures r.x >= a.x && r.x >= b.x && r.y >= a.y && r.y >= b.y
    ensures (r.x == a.x || r.x == b.x) && (r.y == a.y || r.y == b.y)
  {
    Vec2(MaxReal(a.x, b.x), MaxReal(a.y, b.y))
  }

  function AbsVec(a: Vec2): (r: Vec2)
    ensures r.x >= 0.0 && r.y >= 0.0
    ensures r.x * r.x == a.x * a.x && r.y * r.y == a.y * a.y
  {
    Vec2(AbsReal(a.x), AbsReal(a.y))
  }

  /**
   * The effect of normalizing a vector: the new vector and the returned
   * length. A vector shorter than `eps` is returned unchanged with length 0.
   */
  function Normalized(v: Vec2, eps: real, sqrt: real -> real): (r: (Vec2, real))
    requires eps > 0.0
    ensures v.Length(sqrt) < eps ==> r == (v, 0.0)
    ensures v.Length(sqrt) >= eps ==> r.1 == v.Length(sqrt) && r.0.Mul(r.1) == v
  {
    var length := v.Length(sqrt);
    if length < eps then (v, 0.0)
    else
      var invLength := 1.0 / length;
      (Vec2(v.x * invLength, v.y * invLength), length)
  }

  // ---------------------------------------------------------------------
  // Algebraic laws of the value operations

  /** Negating twice gives the vector back. */
  lemma NegateInvolutive(v: Vec2)
    ensures v.Negate().Negate() == v
  {
  }

  /** Adding and then subtracting the same vector gives the vector back. */
  lemma AddSubInverse(u: Vec2, v: Vec2)
    ensures u.Add(v).Sub(v) == u
    ensures u.Sub(v).Add(v) == u
  {
  }

  /** The skew vector turns the dot product into the cross product. */
  lemma SkewDotIsCross(v: Vec2, w: Vec2)
    ensures Dot(v.Skew(), w) == Cross(v, w)
  {
  }

  /** The scalar cross product is antisymmetric and vanishes on equal vectors. */
  lemma CrossAntisymmetric(a: Vec2, b: Vec2)
    ensures Cross(a, b) == -Cross(b, a)
    ensures Cross(a, a) == 0.0
  {
  }

  /** `s x a` is the negation of `a x s`. */
  lemma CrossScalarAntisymmetric(a: Vec2, s: real)
    ensures CrossSV(s, a) == CrossVS(a, s).Negate()
  {
  }

  /** Both scalar cross products are perpendicular to the vector and reverse the dot product into a cross product. */
  lemma CrossScalarPerpendicular(a: Vec2, s: real, w: Vec2)
    ensures Dot(CrossVS(a, s), a) == 0.0 && Dot(CrossSV(s, a), a) == 0.0
    ensures Dot(CrossSV(s, a), w) == s * Cross(a, w)
  {
  }

  /** The squared length is the dot product of a vector with itself, hence non-negative. */
  lemma LengthSquaredIsDot(v: Vec2)
    ensures v.LengthSquared() == Dot(v, v)
    ensures v.LengthSquared() >= 0.0
  {
  }

  /** The componentwise minimum never exceeds the componentwise maximum. */
  lemma MinBelowMax(a: Vec2, b: Vec2)
    ensures Min(a, b).x <= Max(a, b).x && Min(a, b).y <= Max(a, b).y
    ensures Min(a, b).Add(Max(a, b)) == a.Add(b)
  {
  }

  /** A normalized vector of length at least `eps` has unit length. */
  lemma NormalizedIsUnit(v: Vec2, eps: real, sqrt: real -> real)
    requires IsSqrt(sqrt) && eps > 0.0
    requires v.Length(sqrt) >= eps
    ensures Normalized(v, eps, sqrt).0.LengthSquared() == 1.0
  {
    var l2 := v.LengthSquared();
    var len := v.Length(sqrt);
    assert len * len == l2;
    var inv := 1.0 / len;
    var u := Normalized(v, eps, sqrt).0;
    assert u == Vec2(v.x * inv, v.y * inv);
    calc {
      u.LengthSquared();
      (v.x * inv) * (v.x * inv) + (v.y * inv) * (v.y * inv);
      l2 * (inv * inv);
      (len * len) * (inv * inv);
      (len * inv) * (len * inv);
      1.0;
    }
  }

  /**
   * The engine's mutable vector object. Methods that return a vector return
   * a fresh object; the in-place methods overwrite the two fields.
   */
  class MutableVec2 {
    var x: real
    var y: real

    /** The two components as a value. */
    function Value(): Vec2
      reads this
    {
      Vec2(x, y)
    }

    constructor (x0: real, y0: real)
      ensures Value() == Vec2(x0, y0)
    {
      x := x0;
      y := y0;
    }

    /** The no-argument constructor: the zero vector. */
    constructor Origin()
      ensures Value() == Zero
    {
      x := 0.0;
      y := 0.0;
    }

    /** The copy constructor. */
    constructor Copy(toCopy: MutableVec2)
      ensures Value() == toCopy.Value()
    {
      x := toCopy.x;
      y := toCopy.y;
    }

    method SetZero()
      modifies this
      ensures Value() == Zero
    {
      x := 0.0;
      y := 0.0;
    }

    method SetXY(x0: real, y0: real)
      modifies this
      ensures Value() == Vec2(x0, y0)
    {
      x := x0;
      y := y0;
    }

    method Set(v: MutableVec2)
      modifies this
      ensures Value() == old(v.Value())
    {
      x := v.x;
      y := v.y;
    }

    method Add(v: MutableVec2) returns (r: MutableVec2)
      ensures fresh(r) && r.Value() == Value().Add(v.Value())
    {
      r := new MutableVec2(x + v.x, y + v.y);
    }

    method Sub(v: MutableVec2) returns (r: MutableVec2)
      ensures fresh(r) && r.Value() == Value().Sub(v.Value())
    {
      r := new MutableVec2(x - v.x, y - v.y);
    }

    method Mul(a: real) returns (r: MutableVec2)
      ensures fresh(r) && r.Value() == Value().Mul(a)
    {
      r := new MutableVec2(x * a, y * a);
    }

    method Negate() returns (r: MutableVec2)
      ensures fresh(r) && r.Value() == Value().Negate()
    {
      r := new MutableVec2(-x, -y);
    }

    method NegateLocal()
      modifies this
      ensures Value() == old(Value()).Negate()
    {
      x := -x;
      y := -y;
    }

    /** Adds `v` in place; correct also when `v` is this very object. */
    method AddLocal(v: MutableVec2)
      modifies this
      ensures Value() == old(Value()).Add(old(v.Value()))
    {
      x := x + v.x;
      y := y + v.y;
    }

    method AddLocalXY(dx: real, dy: real)
      modifies this
      ensures Value() == old(Value()).Add(Vec2(dx, dy))
    {
      x := x + dx;
      y := y + dy;
    }

    /** Subtracts `v` in place; correct also when `v` is this very object. */
    method SubLocal(v: MutableVec2)
      modifies this
      ensures Value() == old(Value()).Sub(old(v.Value()))
    {
      x := x - v.x;
      y := y - v.y;
    }

    method MulLocal(a: real)
      modifies this
      ensures Value() == old(Value()).Mul(a)
    {
      x := x * a;
      y := y * a;
    }

    method Skew() returns (r: MutableVec2)
      ensures fresh(r) && r.Value() == Value().Skew()
      ensures Dot(r.Value(), Value()) == 0.0
    {
      r := new MutableVec2(-y, x);
    }

    /**
     * Writes the skew vector into `out`. The second component is read after
     * the first is written, so when `out` is this object both components end
     * up as the negated old `y`.
     */
    method SkewToOut(out: MutableVec2)
      modifies out
      ensures out != this ==> out.Value() == old(Value()).Skew()
      ensures out == this ==> out.Value() == Vec2(-old(y), -old(y))
    {
      out.x := -y;
      out.y := x;
    }

    /**
     * Scales the vector to unit length and returns its old length; a vector
     * shorter than `eps` stays as it is and 0 is returned.
     */
    method Normalize(eps: real, sqrt: real -> real) returns (length: real)
      requires eps > 0.0
      modifies this
      ensures (Value(), length) == Normalized(old(Value()), eps, sqrt)
    {
      ghost var v := Value();
      length := Value().Length(sqrt);
      if length < eps {
        length := 0.0;
        return;
      }
      var invLength := 1.0 / length;
      x := x * invLength;
      y := y * invLength;
      assert Value() == Vec2(v.x * invLength, v.y * invLength);
      assert Normalized(v, eps, sqrt).0 == Vec2(v.x * invLength, v.y * invLength);
      assert Normalized(v, eps, sqrt).1 == length;
    }

    method Abs() returns (r: MutableVec2)
      ensures fresh(r) && r.Value() == AbsVec(Value())
    {
      r := new MutableVec2(AbsReal(x), AbsReal(y));
    }

    method AbsLocal()
      modifies this
      ensures Value() == AbsVec(old(Value()))
    {
      x := AbsReal(x);
      y := AbsReal(y);
    }

    method Clone() returns (r: MutableVec2)
      ensures fresh(r) && r.Value() == Value()
    {
      r := new MutableVec2(x, y);
    }

    static method AbsToOut(a: MutableVec2, out: MutableVec2)
      modifies out
      ensures out.Value() == AbsVec(old(a.Value()))
    {
      out.x := AbsReal(a.x);
      out.y := AbsReal(a.y);
    }

    /** `out := a x s`, safe when `out` and `a` are the same object. */
    static method CrossToOutVS(a: MutableVec2, s: real, out: MutableVec2)
      modifies out
      ensures out.Value() == CrossVS(old(a.Value()), s)
    {
      var tempY := -s * a.x;
      out.x := s * a.y;
      out.y := tempY;
    }

    /** `out := a x s` for distinct objects. */
    static method CrossToOutUnsafeVS(a: MutableVec2, s: real, out: MutableVec2)
      requires out != a
      modifies out
      ensures out.Value() == CrossVS(a.Value(), s)
    {
      out.x := s * a.y;
      out.y := -s * a.x;
    }

    /** `out := s x a`, safe when `out` and `a` are the same object. */
    static method CrossToOutSV(s: real, a: MutableVec2, out: MutableVec2)
      modifies out
      ensures out.Value() == CrossSV(s, old(a.Value()))
    {
      var tempY := s * a.x;
      out.x := -s * a.y;
      out.y := tempY;
    }

    /** `out := s x a` for distinct objects. */
    static method CrossToOutUnsafeSV(s: real, a: MutableVec2, out: MutableVec2)
      requires out != a
      modifies out
      ensures out.Value() == CrossSV(s, a.Value())
    {
      out.x := -s * a.y;
      out.y := s * a.x;
    }

    static method NegateToOut(a: MutableVec2, out: MutableVec2)
      modifies out
      ensures out.Value() == old(a.Value()).Negate()
    {
      out.x := -a.x;
      out.y := -a.y;
    }

    static method MinToOut(a: MutableVec2, b: MutableVec2, out: MutableVec2)
      modifies out
      ensures out.Value() == Min(old(a.Value()), old(b.Value()))
    {
      out.x := MinReal(a.x, b.x);
      out.y := MinReal(a.y, b.y);
    }

    static method MaxToOut(a: MutableVec2, b: MutableVec2, out: MutableVec2)
      modifies out
      ensures out.Value() == Max(old(a.Value()), old(b.Value()))
    {
      out.x := MaxReal(a.x, b.x);
      out.y := MaxReal(a.y, b.y);
    }
  }
}
