/**
 * Conversion between density-independent pixels (dp) and device pixels (px).
 * The display density is an exact positive ratio `num / den` of pixels per dp;
 * every conversion result is cast to `int`, which truncates toward zero.
 */
module DisplayUnits {

  datatype Ratio = Ratio(num: int, den: int)

  /** A display density: strictly positive pixels per dp. */
  type Density = d: Ratio | d.num > 0 && d.den > 0 witness Ratio(1, 1)

  /** Quotient truncated toward zero, as an `(int)` cast of a quotient gives it. */
  function TruncDiv(a: int, b: int): (q: int)
    requires b > 0
    ensures 0 <= a ==> 0 <= q
    ensures a <= 0 ==> q <= 0
    ensures 0 <= a ==> q * b <= a < q * b + b
    ensures a < 0 ==> q * b - b < a <= q * b
  {
    if a >= 0 then a / b else -((-a) / b)
  }

  /** Truncation is symmetric about zero, unlike Dafny's Euclidean `/`. */
  lemma TruncDivIsOdd(a: int, b: int)
    requires b > 0
    ensures TruncDiv(-a, b) == -TruncDiv(a, b)
  {
  }

  /** `(int) dpToPx(dp)`: dp times the density, truncated. */
  function DpToPx(d: Density, dp: int): (px: int)
    ensures dp >= 0 ==> px >= 0
    ensures dp >= 0 ==> px * d.den <= dp * d.num < px * d.den + d.den
    ensures dp < 0 ==> px * d.den - d.den < dp * d.num <= px * d.den
  {
    TruncDiv(dp * d.num, d.den)
  }

  /** `(int) pxToDp(px)`: px divided by the density, truncated. */
  function PxToDp(d: Density, px: int): (dp: int)
    ensures px >= 0 ==> dp >= 0
    ensures px >= 0 ==> dp * d.num <= px * d.den < dp * d.num + d.num
    ensures px < 0 ==> dp * d.num - d.num < px * d.den <= dp * d.num
  {
    TruncDiv(px * d.den, d.num)
  }

  /** Multiplication by a positive factor keeps the order. */
  lemma MulMonotone(a: int, b: int, k: int)
    requires a <= b && k > 0
    ensures a * k <= b * k
  {
    assert b * k - a * k == (b - a) * k;
  }

  /** A non-zero multiple of a positive `b` is at least `b` away from zero. */
  lemma MulAwayFromZero(k: int, b: int)
    requires b > 0
    ensures k >= 1 ==> k * b >= b
    ensures k <= -1 ==> k * b <= -b
  {
    if k >= 1 {
      MulMonotone(1, k, b);
    } else if k <= -1 {
      MulMonotone(k, -1, b);
    }
  }

  /** The Euclidean quotient is the one multiple of `b` that brackets `a`. */
  lemma {:induction false} DivUnique(a: int, b: int, q: int)
    requires b > 0 && q * b <= a < q * b + b
    ensures a / b == q
  {
    var q', r' := a / b, a % b;
    assert a == q' * b + r' && 0 <= r' < b;
    assert (q' - q) * b == a - r' - q * b;
    MulAwayFromZero(q' - q, b);
  }

  /** Euclidean division by a positive divisor keeps the order. */
  lemma {:induction false} DivMonotone(x: int, y: int, k: int)
    requires x <= y && k > 0
    ensures x / k <= y / k
  {
    var qx, qy := x / k, y / k;
    assert x == qx * k + x % k && 0 <= x % k;
    assert y == qy * k + y % k && y % k < k;
    assert (qx - qy) * k == (x - x % k) - (y - y % k);
    MulAwayFromZero(qx - qy, k);
  }

  /** Truncating division by a positive divisor keeps the order. */
  lemma TruncDivMonotone(x: int, y: int, k: int)
    requires x <= y && k > 0
    ensures TruncDiv(x, k) <= TruncDiv(y, k)
  {
    if 0 <= x {
      DivMonotone(x, y, k);
    } else if y < 0 {
      DivMonotone(-y, -x, k);
    }
  }

  /** A longer length in dp is never fewer pixels. */
  lemma DpToPxMonotone(d: Density, a: int, b: int)
    requires a <= b
    ensures DpToPx(d, a) <= DpToPx(d, b)
  {
    MulMonotone(a, b, d.num);
    TruncDivMonotone(a * d.num, b * d.num, d.den);
  }

  /** A wider parent in pixels is never fewer dp. */
  lemma PxToDpMonotone(d: Density, a: int, b: int)
    requires a <= b
    ensures PxToDp(d, a) <= PxToDp(d, b)
  {
    MulMonotone(a, b, d.den);
    TruncDivMonotone(a * d.den, b * d.den, d.num);
  }

  /**
   * Converting a doubled length: `dpToPx(2 * dp)` is twice `dpToPx(dp)` or one
   * pixel more, because the fraction lost by one truncation can add up to a
   * whole pixel when the length is doubled first.
   */
  lemma {:induction false} DoubledWithinOnePixel(d: Density, dp: int)
    requires dp >= 0
    ensures 2 * DpToPx(d, dp) <= DpToPx(d, 2 * dp) <= 2 * DpToPx(d, dp) + 1
  {
    assert (2 * dp) * d.num == 2 * (dp * d.num);
    BracketOfDouble(dp * d.num, d.den, DpToPx(d, dp), DpToPx(d, 2 * dp));
  }

  /** If `p` and `q` are the truncated quotients of `a` and `2a`, then `q` is `2p` or `2p + 1`. */
  lemma {:induction false} BracketOfDouble(a: int, b: int, p: int, q: int)
    requires b > 0
    requires p * b <= a < p * b + b
    requires q * b <= 2 * a < q * b + b
    ensures 2 * p <= q <= 2 * p + 1
  {
    assert (q - 2 * p - 1) * b == q * b - 2 * (p * b) - b;
    assert (2 * p - q) * b == 2 * (p * b) - q * b;
    MulAwayFromZero(q - 2 * p - 1, b);
    MulAwayFromZero(2 * p - q, b);
  }

  /** With a whole-number density doubling commutes with conversion exactly. */
  lemma WholeDensityDoubles(d: Density, dp: int)
    requires d.den == 1
    ensures DpToPx(d, 2 * dp) == 2 * DpToPx(d, dp)
  {
    assert (2 * dp) * d.num == 2 * (dp * d.num);
  }

  /** With a whole-number density a dp length survives the trip through pixels. */
  lemma {:induction false} WholeDensityRoundTrip(d: Density, dp: int)
    requires d.den == 1
    ensures PxToDp(d, DpToPx(d, dp)) == dp
  {
    var a := dp * d.num;
    assert DpToPx(d, dp) == a;
    assert a * d.den == a;
    if dp >= 0 {
      DivUnique(a, d.num, dp);
    } else {
      assert -a == (-dp) * d.num;
      DivUnique(-a, d.num, -dp);
    }
  }

  /**
   * At a density of 21/8 (2.625 pixels per dp) doubling is not exact:
   * 60 dp is 157 pixels but 120 dp is 315 pixels, not 314.
   */
  lemma DoublingNotExactAtFractionalDensity()
    ensures DpToPx(Ratio(21, 8), 60) == 157
    ensures DpToPx(Ratio(21, 8), 120) == 315
  {
  }
}
