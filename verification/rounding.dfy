/** Rounding to a number of decimal places, as the `math::round::floor` and
    `math::round::ceil` functions of the source's `math` crate do it:
    scale by 10^d, take the integer floor (or ceiling), scale back.
    Prices and quantities are mathematical reals, so there is no binary
    floating-point error here. The number of places `d` may be negative,
    as the crate's `i8` scale allows.
 */
module Rounding {

  function Pow10(n: nat): (r: real)
    ensures r >= 1.0
  {
    if n == 0 then 1.0 else 10.0 * Pow10(n - 1)
  }

  /** 10^d for any integer d. */
  function Scale(d: int): (r: real)
    ensures r > 0.0
  {
    if d >= 0 then Pow10(d) else 1.0 / Pow10(-d)
  }

  /** x lies on the grid of multiples of 10^-d. */
  predicate OnGrid(x: real, d: int) {
    Integral(x * Scale(d))
  }

  /** r is a whole number. */
  predicate Integral(r: real) {
    r.Floor as real == r
  }

  lemma IntegralNeg(r: real)
    requires Integral(r)
    ensures Integral(-r)
  {
    var k := r.Floor;
    assert -r == (-k) as real;
  }

  lemma DivMulCancel(k: real, s: real)
    requires s > 0.0
    ensures (k / s) * s == k
  {
  }

  lemma MulDivCancel(x: real, s: real)
    requires s > 0.0
    ensures (x * s) / s == x
  {
  }

  lemma MulMonotone(a: real, b: real, s: real)
    requires s >= 0.0 && a <= b
    ensures a * s <= b * s
  {
  }

  lemma LeDiv(a: real, b: real, s: real)
    requires s > 0.0 && a <= b * s
    ensures a / s <= b
  {
  }

  lemma GeDiv(a: real, b: real, s: real)
    requires s > 0.0 && a >= b * s
    ensures a / s >= b
  {
  }

  /** The index of the grid point at or below x. */
  function FloorIndex(x: real, d: int): int {
    (x * Scale(d)).Floor
  }

  /** The index of the grid point at or above x. */
  function CeilIndex(x: real, d: int): int {
    -((-x * Scale(d)).Floor)
  }

  lemma RealFloorBounds(r: real)
    ensures r.Floor as real <= r < r.Floor as real + 1.0
  {
  }

  /** If a <= b*s < a + 1 then a/s is at most b and less than 1/s below it. */
  lemma ScaledBounds(a: real, b: real, s: real)
    requires s > 0.0 && a <= b * s < a + 1.0
    ensures a / s <= b
    ensures b - a / s < 1.0 / s
  {
    var q := a / s;
    DivMulCancel(a, s);
    assert q * s == a;
    Distribute(b, q, s);
    var c := b - q;
    assert c * s == b * s - a;
    assert c * s < 1.0;
    LtOneDiv(c, s);
  }

  lemma LtOneDiv(c: real, s: real)
    requires s > 0.0 && c * s < 1.0
    ensures c < 1.0 / s
  {
    MulDivCancel(c, s);
    DivStrict(c * s, 1.0, s);
  }

  lemma DivStrict(a: real, b: real, s: real)
    requires s > 0.0 && a < b
    ensures a / s < b / s
  {
  }

  lemma Distribute(b: real, q: real, s: real)
    ensures (b - q) * s == b * s - q * s
  {
  }

  /** `math::round::floor(x, d)`: the greatest multiple of 10^-d not above x. */
  function Floor(x: real, d: int): (r: real)
    ensures r <= x
    ensures x - r < 1.0 / Scale(d)
  {
    RealFloorBounds(x * Scale(d));
    ScaledBounds(FloorIndex(x, d) as real, x, Scale(d));
    (FloorIndex(x, d) as real) / Scale(d)
  }

  /** `math::round::ceil(x, d)`: the least multiple of 10^-d not below x. */
  function Ceil(x: real, d: int): (r: real)
    ensures r >= x
    ensures r - x < 1.0 / Scale(d)
  {
    RealFloorBounds(-x * Scale(d));
    CeilBounds(CeilIndex(x, d) as real, x, Scale(d));
    (CeilIndex(x, d) as real) / Scale(d)
  }

  /** If a - 1 < b*s <= a then a/s is at least b and less than 1/s above it. */
  lemma CeilBounds(a: real, b: real, s: real)
    requires s > 0.0 && a - 1.0 < b * s <= a
    ensures a / s >= b
    ensures a / s - b < 1.0 / s
  {
    var q := a / s;
    DivMulCancel(a, s);
    assert q * s == a;
    Distribute(q, b, s);
    var c := q - b;
    assert c * s == a - b * s;
    assert c * s < 1.0;
    LtOneDiv(c, s);
    GeDiv(a, b, s);
  }

  /** A grid point is its index divided by the scale. */
  lemma GridPointIndex(g: real, d: int)
    requires OnGrid(g, d)
    ensures g == (FloorIndex(g, d) as real) / Scale(d)
  {
    var s := Scale(d);
    assert FloorIndex(g, d) as real == g * s;
    MulDivCancel(g, s);
  }

  /** Dividing an index by the scale gives a grid point with that index. */
  lemma IndexGridPoint(k: int, d: int)
    ensures OnGrid((k as real) / Scale(d), d)
  {
    DivMulCancel(k as real, Scale(d));
  }

  /** The result of Floor lies on the grid, and is the greatest grid point not above x. */
  lemma FloorIsGreatestGridPoint(x: real, d: int, g: real)
    ensures OnGrid(Floor(x, d), d)
    ensures OnGrid(g, d) && g <= x ==> g <= Floor(x, d)
  {
    IndexGridPoint(FloorIndex(x, d), d);
    if OnGrid(g, d) && g <= x {
      FloorAboveGridPoint(x, d, g);
    }
  }

  lemma FloorAboveGridPoint(x: real, d: int, g: real)
    requires OnGrid(g, d) && g <= x
    ensures g <= Floor(x, d)
  {
    GridPointBelow(g, x, Scale(d));
    BelowFloorIndex(x, d, g);
  }

  lemma BelowFloorIndex(x: real, d: int, g: real)
    requires g <= ((x * Scale(d)).Floor as real) / Scale(d)
    ensures g <= Floor(x, d)
  {
  }

  /** A grid point of scale s not above x is not above x's grid floor. */
  lemma GridPointBelow(g: real, x: real, s: real)
    requires s > 0.0 && Integral(g * s) && g <= x
    ensures g <= ((x * s).Floor as real) / s
  {
    ScaledGridPointBelow(g, x, s);
    MulDivCancel(g, s);
    LeDivBoth(g * s, (x * s).Floor as real, s);
  }

  /** Scaled up, a grid point not above x is a whole number not above x's floor. */
  lemma ScaledGridPointBelow(g: real, x: real, s: real)
    requires s > 0.0 && Integral(g * s) && g <= x
    ensures g * s <= (x * s).Floor as real
  {
    MulMonotone(g, x, s);
    IntegralBelow(g * s, x * s);
  }

  /** A whole number not above r is not above r's floor. */
  lemma IntegralBelow(a: real, r: real)
    requires Integral(a) && a <= r
    ensures a <= r.Floor as real
  {
  }

  lemma LeDivBoth(a: real, b: real, s: real)
    requires s > 0.0 && a <= b
    ensures a / s <= b / s
  {
  }

  /** Rounding up is rounding the negation down and negating back. */
  lemma CeilIsNegatedFloor(x: real, d: int)
    ensures Ceil(x, d) == -Floor(-x, d)
  {
    var s := Scale(d);
    assert CeilIndex(x, d) == -FloorIndex(-x, d);
    NegDiv(FloorIndex(-x, d) as real, s);
  }

  lemma NegDiv(a: real, s: real)
    requires s > 0.0
    ensures (-a) / s == -(a / s)
  {
  }

  /** The grid is closed under negation. */
  lemma NegOnGrid(g: real, d: int)
    requires OnGrid(g, d)
    ensures OnGrid(-g, d)
  {
    NegMul(g, Scale(d));
    IntegralNeg(g * Scale(d));
  }

  lemma NegMul(g: real, s: real)
    ensures -g * s == -(g * s)
  {
  }

  /** The result of Ceil lies on the grid, and is the least grid point not below x. */
  lemma CeilIsLeastGridPoint(x: real, d: int, g: real)
    ensures OnGrid(Ceil(x, d), d)
    ensures OnGrid(g, d) && g >= x ==> g >= Ceil(x, d)
  {
    CeilIsNegatedFloor(x, d);
    FloorIsGreatestGridPoint(-x, d, -g);
    NegOnGrid(Floor(-x, d), d);
    if OnGrid(g, d) && g >= x {
      NegOnGrid(g, d);
    }
  }

  /** A grid point is left unchanged by Floor. */
  lemma FloorOfGridPoint(x: real, d: int)
    requires OnGrid(x, d)
    ensures Floor(x, d) == x
  {
    FloorIsGreatestGridPoint(x, d, x);
  }

  /** Rounding down twice is rounding down once. */
  lemma FloorIdempotent(x: real, d: int)
    ensures Floor(Floor(x, d), d) == Floor(x, d)
  {
    FloorIsGreatestGridPoint(x, d, x);
    FloorOfGridPoint(Floor(x, d), d);
  }

  /** Floor never reverses the order of its inputs. */
  lemma FloorMonotone(x: real, y: real, d: int)
    requires x <= y
    ensures Floor(x, d) <= Floor(y, d)
  {
    FloorIsGreatestGridPoint(x, d, x);
    FloorIsGreatestGridPoint(y, d, Floor(x, d));
  }

  /** Zero is rounded to zero. */
  lemma FloorZero(d: int)
    ensures Floor(0.0, d) == 0.0
  {
  }

  /** A non-negative input rounds down to a non-negative result. */
  lemma FloorNonNegative(x: real, d: int)
    requires x >= 0.0
    ensures Floor(x, d) >= 0.0
  {
    FloorZero(d);
    FloorMonotone(0.0, x, d);
  }
}
