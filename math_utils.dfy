/**
 * The scalar helpers of the engine's math utility class: clamping, the
 * integer rounding functions with Java's truncating and saturating cast, the
 * power-of-two helpers on 32-bit two's-complement integers, and squared
 * distances between points.
 */
module MathUtils {
  import opened Settings
  import opened Vectors

  // ---------------------------------------------------------------------
  // 32-bit Java integers

  const Int32Min: int := -0x8000_0000
  const Int32Max: int := 0x7fff_ffff

  /** A value of Java's `int` type. */
  type Int32 = x: int | Int32Min <= x <= Int32Max

  /** Two's-complement wrap-around of an exact integer result into `int`. */
  function Wrap(v: int): (r: Int32)
    ensures Int32Min <= v <= Int32Max ==> r == v
    ensures (r - v) % 0x1_0000_0000 == 0
  {
    (v - Int32Min) % 0x1_0000_0000 + Int32Min
  }

  /**
   * An `int` whose bits the code manipulates is modelled by its bit pattern.
   * The pattern is negative when its sign bit is set, and `int` comparisons
   * with a non-negative bound are comparisons of patterns with a clear sign bit.
   */
  type Bits = bv32

  const SignBit: Bits := 0x8000_0000

  predicate Negative(b: Bits)
  {
    b & 0x8000_0000 != 0
  }

  /** Java's `>>`: the shift that copies the sign bit. */
  function ShiftRightSigned(b: Bits, k: bv32): Bits
    requires k < 32
  {
    if !Negative(b) then b >> k else !((!b) >> k)
  }

  /** 2 to the power k, as an exact integer. */
  function Pow2(k: nat): (r: nat)
    ensures r >= 1
  {
    if k == 0 then 1 else 2 * Pow2(k - 1)
  }

  // ---------------------------------------------------------------------
  // Minimum, maximum, clamping, mapping

  function Max(a: real, b: real): (r: real)
    ensures r >= a && r >= b && (r == a || r == b)
  {
    MaxReal(a, b)
  }

  function Min(a: real, b: real): (r: real)
    ensures r <= a && r <= b && (r == a || r == b)
  {
    MinReal(a, b)
  }

  function MaxInt(a: Int32, b: Int32): (r: Int32)
    ensures r >= a && r >= b && (r == a || r == b)
  {
    if a >= b then a else b
  }

  function MinInt(a: Int32, b: Int32): (r: Int32)
    ensures r <= a && r <= b && (r == a || r == b)
  {
    if a <= b then a else b
  }

  /**
   * The value of `[low, high]` closest to `a`. An inverted interval
   * (`low > high`) yields `low`.
   */
  function Clamp(a: real, low: real, high: real): (r: real)
    ensures low <= high ==> low <= r <= high
    ensures low <= a <= high ==> r == a
    ensures low <= high && a < low ==> r == low
    ensures low <= high && a > high ==> r == high
    ensures low > high ==> r == low
  {
    Max(low, Min(a, high))
  }

  /** The componentwise clamp, returned as a new vector. */
  function ClampVec(a: Vec2, low: Vec2, high: Vec2): (r: Vec2)
    ensures r.x == Clamp(a.x, low.x, high.x) && r.y == Clamp(a.y, low.y, high.y)
    ensures low.x <= high.x && low.y <= high.y ==>
              low.x <= r.x <= high.x && low.y <= r.y <= high.y
  {
    var m := Vec2(MinReal(a.x, high.x), MinReal(a.y, high.y));
    Vec2(MaxReal(low.x, m.x), MaxReal(low.y, m.y))
  }

  /**
   * The componentwise clamp written into `dest`. Both components of `dest`
   * receive the minimum before the maximum is taken, so when `dest` is `low`
   * itself the lower bound is overwritten first and the result is only the
   * minimum with `high`.
   */
  method ClampToOut(a: MutableVec2, low: MutableVec2, high: MutableVec2, dest: MutableVec2)
    modifies dest
    ensures dest != low ==> dest.Value() == ClampVec(old(a.Value()), old(low.Value()), old(high.Value()))
    ensures dest == low ==> dest.Value() == Vectors.Min(old(a.Value()), old(high.Value()))
  {
    dest.x := MinReal(a.x, high.x);
    dest.y := MinReal(a.y, high.y);
    dest.x := MaxReal(low.x, dest.x);
    dest.y := MaxReal(low.y, dest.y);
  }

  /**
   * Linear re-mapping of `val` from `[fromMin, fromMax]` to `[toMin, toMax]`.
   * The source divides by `fromMax - fromMin`, so that difference must not be 0.
   */
  function Map(val: real, fromMin: real, fromMax: real, toMin: real, toMax: real): (r: real)
    requires fromMin != fromMax
    ensures val == fromMin ==> r == toMin
    ensures val == fromMax ==> r == toMax
  {
    var mult := (val - fromMin) / (fromMax - fromMin);
    MapFractionAtEnds(val, fromMin, fromMax);
    toMin + mult * (toMax - toMin)
  }

  lemma MapFractionAtEnds(val: real, fromMin: real, fromMax: real)
    requires fromMin != fromMax
    ensures val == fromMin ==> (val - fromMin) / (fromMax - fromMin) == 0.0
    ensures val == fromMax ==> (val - fromMin) / (fromMax - fromMin) == 1.0
  {
    if val == fromMax {
      assert val - fromMin == fromMax - fromMin;
      DivideBySelf(fromMax - fromMin);
    }
  }

  lemma DivideBySelf(d: real)
    requires d != 0.0
    ensures d / d == 1.0
  {
  }

  // ---------------------------------------------------------------------
  // Integer absolute value

  /**
   * The branch-free absolute value `(x ^ (x >> 31)) - (x >> 31)`: the
   * two's-complement negation of a negative `x`, and `x` itself otherwise.
   * The most negative `int` is its own negation and stays negative.
   */
  function AbsInt(x: Bits): Bits
  {
    var y := ShiftRightSigned(x, 31);
    (x ^ y) - y
  }

  lemma AbsIntIsNegation(x: Bits)
    ensures !Negative(x) ==> AbsInt(x) == x
    ensures Negative(x) ==> AbsInt(x) == 0 - x
    ensures x != SignBit ==> !Negative(AbsInt(x))
    ensures x == SignBit ==> AbsInt(x) == SignBit
  {
  }

  lemma AbsIntIdempotent(x: Bits)
    ensures AbsInt(AbsInt(x)) == AbsInt(x)
  {
    AbsIntIsNegation(x);
    AbsIntIsNegation(AbsInt(x));
  }


  // ---------------------------------------------------------------------
  // Rounding to int

  /** Rounding toward zero of an exact real. */
  function Truncate(x: real): int
  {
    if x >= 0.0 then x.Floor else -((-x).Floor)
  }

  /** The smallest integer not below x. */
  function CeilOf(x: real): (r: int)
    ensures r as real >= x && (r - 1) as real < x
  {
    -((-x).Floor)
  }

  /** Java's `(int)` cast of a floating-point value: truncation, saturating at the bounds of `int`. */
  function JavaIntCast(x: real): (r: Int32)
    ensures Int32Min as real < x < Int32Max as real ==> r == Truncate(x)
    ensures x >= Int32Max as real ==> r == Int32Max
    ensures x <= Int32Min as real ==> r == Int32Min
  {
    if x >= Int32Max as real then Int32Max
    else if x <= Int32Min as real then Int32Min
    else Truncate(x)
  }

  /**
   * Floor by correcting the truncating cast. Within the range of `int` it is
   * the floor; below it the correction `y - 1` wraps around to the largest `int`.
   */
  function FastFloor(x: real): (r: Int32)
    ensures Int32Min as real <= x < Int32Max as real + 1.0 ==> r == x.Floor
    ensures x >= Int32Max as real ==> r == Int32Max
    ensures x < Int32Min as real ==> r == Int32Max
  {
    var y := JavaIntCast(x);
    if x < y as real then Wrap(y - 1) else y
  }

  /**
   * Ceiling by correcting the truncating cast. Within the range of `int` it
   * is the ceiling; above it the correction `y + 1` wraps around to the
   * smallest `int`.
   */
  function FastCeil(x: real): (r: Int32)
    ensures Int32Min as real - 1.0 < x <= Int32Max as real ==> r == CeilOf(x)
    ensures x <= Int32Min as real ==> r == Int32Min
    ensures x > Int32Max as real ==> r == Int32Min
  {
    var y := JavaIntCast(x);
    if x > y as real then Wrap(y + 1) else y
  }

  /** `floor`: the fast variant or the cast of the exact floor, as the flag selects. */
  function Floor(x: real, fastFloor: bool): (r: Int32)
    ensures Int32Min as real <= x < Int32Max as real + 1.0 ==> r == x.Floor
  {
    if fastFloor then FastFloor(x) else JavaIntCast(x.Floor as real)
  }

  /** `ceil`: the fast variant or the cast of the exact ceiling, as the flag selects. */
  function Ceil(x: real, fastCeil: bool): (r: Int32)
    ensures Int32Min as real - 1.0 < x <= Int32Max as real ==> r == CeilOf(x)
  {
    if fastCeil then FastCeil(x) else JavaIntCast(CeilOf(x) as real)
  }

  /**
   * `round`: with the fast flag the floor of `x + 0.5`, otherwise the
   * library rounding, which rounds halves up and saturates.
   */
  function Round(x: real, fastRound: bool, fastFloor: bool): (r: Int32)
    ensures Int32Min as real <= x + 0.5 < Int32Max as real + 1.0 ==> r == (x + 0.5).Floor
  {
    if fastRound then Floor(x + 0.5, fastFloor) else JavaIntCast((x + 0.5).Floor as real)
  }

  // ---------------------------------------------------------------------
  // Powers of two

  /**
   * Doubles 1 until it reaches `x`. For `x` above 2^30 the doubling
   * overflows `int` and the loop never ends, so such inputs are excluded.
   */
  method CeilPowerOf2(x: Int32) returns (pow2: Int32)
    requires x <= 0x4000_0000
    ensures x <= pow2
    ensures pow2 == 1 || pow2 / 2 < x
    ensures exists k: nat :: pow2 == Pow2(k)
  {
    pow2 := 1;
    ghost var k: nat := 0;
    while pow2 < x
      invariant 1 <= pow2 && pow2 == Pow2(k)
      invariant pow2 == 1 || pow2 / 2 < x
      decreases x - pow2
    {
      pow2 := Wrap(pow2 * 2);
      k := k + 1;
    }
  }

  /** The pattern with only bit `k` set. */
  function Bit(k: bv32): Bits
    requires k < 32
  {
    1 << k
  }

  /** Copies every set bit into all lower positions. */
  function Smear(b: Bits): Bits
  {
    var b1 := b | (b >> 1);
    var b2 := b1 | (b1 >> 2);
    var b4 := b2 | (b2 >> 4);
    var b8 := b4 | (b4 >> 8);
    b8 | (b8 >> 16)
  }

  /**
   * The SWAR "next power of two": fold the upper bits of `x` into all lower
   * bits, then add 1. For `0 <= x < 2^30` the result is the least power of
   * two strictly greater than `x`: a power of two above `x` whose half is
   * at most `x`.
   */
  method NextPowerOfTwo(x: Bits) returns (r: Bits)
    ensures x < 0x4000_0000 ==> IsPowerOfTwo(r) && x < r && r >> 1 <= x
  {
    var b := x;
    b := b | ShiftRightSigned(b, 1);
    b := b | ShiftRightSigned(b, 2);
    b := b | ShiftRightSigned(b, 4);
    b := b | ShiftRightSigned(b, 8);
    b := b | ShiftRightSigned(b, 16);
    r := b + 1;
    if x < 0x4000_0000 {
      SmearSigned(x);
      SmearNextPower(x);
    }
  }

  lemma SmearNextPower(b: Bits)
    requires b < 0x4000_0000
    ensures var p := Smear(b) + 1;
      p <= 0x4000_0000 && p != 0 && p & (p - 1) == 0 && p > b && p >> 1 <= b
  {
  }

  /** On a pattern with a clear sign bit the signed shifts are the plain ones. */
  lemma SmearSigned(b: Bits)
    requires b < 0x4000_0000
    ensures var s1 := b | ShiftRightSigned(b, 1);
      var s2 := s1 | ShiftRightSigned(s1, 2);
      var s4 := s2 | ShiftRightSigned(s2, 4);
      var s8 := s4 | ShiftRightSigned(s4, 8);
      s8 | ShiftRightSigned(s8, 16) == Smear(b)
  {
    var s1 := b | (b >> 1);
    var s2 := s1 | (s1 >> 2);
    var s4 := s2 | (s2 >> 4);
    var s8 := s4 | (s4 >> 8);
    assert !Negative(s1) && !Negative(s2) && !Negative(s4) && !Negative(s8);
    NonNegativeShift(b, 1);
    NonNegativeShift(s1, 2);
    NonNegativeShift(s2, 4);
    NonNegativeShift(s4, 8);
    NonNegativeShift(s8, 16);
  }

  lemma NonNegativeShift(b: Bits, k: bv32)
    requires k < 32 && !Negative(b)
    ensures ShiftRightSigned(b, k) == b >> k
  {
  }

  /** `x > 0 && (x & x - 1) == 0`. */
  predicate IsPowerOfTwo(x: Bits)
  {
    !Negative(x) && x != 0 && x & (x - 1) == 0
  }

  /** The bit test recognises exactly the single-bit patterns 2^0 .. 2^30. */
  lemma IsPowerOfTwoIff(x: Bits)
    ensures IsPowerOfTwo(x) <==> exists k: bv32 :: k <= 30 && x == Bit(k)
  {
    if IsPowerOfTwo(x) {
      Log2IsExponent(x);
    }
  }

  /** The position of the highest set bit. */
  function Log2(b: Bits): bv32
    requires b != 0
    decreases b
  {
    if b == 1 then 0 else 1 + Log2(b >> 1)
  }

  lemma {:induction false} Log2IsExponent(b: Bits)
    requires b != 0 && b < 0x8000_0000 && b & (b - 1) == 0
    ensures Log2(b) <= 30 && b == Bit(Log2(b))
    decreases b
  {
    if b != 1 {
      var h := b >> 1;
      assert h != 0 && h & (h - 1) == 0 && b == h << 1 && h < 0x4000_0000;
      Log2IsExponent(h);
    }
  }


  // ---------------------------------------------------------------------
  // Distances

  function DistanceSquared(v1: Vec2, v2: Vec2): (r: real)
    ensures r >= 0.0
    ensures r == v1.Sub(v2).LengthSquared()
  {
    var dx := v1.x - v2.x;
    var dy := v1.y - v2.y;
    dx * dx + dy * dy
  }

  function Distance(v1: Vec2, v2: Vec2, sqrt: real -> real): (r: real)
    ensures IsSqrt(sqrt) ==> r >= 0.0 && r * r == DistanceSquared(v1, v2)
  {
    sqrt(DistanceSquared(v1, v2))
  }

  /** The squared distance does not depend on the order of the two points. */
  lemma NegSquare(d: real)
    ensures (-d) * (-d) == d * d
  {
  }

  lemma DistanceSquaredSymmetric(v1: Vec2, v2: Vec2)
    ensures DistanceSquared(v1, v2) == DistanceSquared(v2, v1)
    ensures DistanceSquared(v1, v1) == 0.0
  {
    NegSquare(v1.x - v2.x);
    NegSquare(v1.y - v2.y);
    assert v2.x - v1.x == -(v1.x - v2.x);
    assert v2.y - v1.y == -(v1.y - v2.y);
  }
}
