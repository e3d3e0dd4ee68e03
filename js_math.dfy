/**
 * The JavaScript arithmetic the components rely on, stated exactly on integers:
 * `Math.round`, `Math.floor` and `Math.ceil` of a ratio of integers, `Math.min`,
 * `Math.max`, and the `%` operator, which truncates towards zero.
 */
module JsMath {

  function Min(a: int, b: int): (r: int)
    ensures r <= a && r <= b && (r == a || r == b)
  {
    if a <= b then a else b
  }

  function Max(a: int, b: int): (r: int)
    ensures r >= a && r >= b && (r == a || r == b)
  {
    if a >= b then a else b
  }

  /** `Math.round(a / b)`: the nearest integer, halves rounded up (towards +infinity). */
  function RoundDiv(a: int, b: int): (r: int)
    requires b > 0
    ensures 2 * b * r - b <= 2 * a < 2 * b * r + b
  {
    (2 * a + b) / (2 * b)
  }

  /** `Math.floor(a / b)`. */
  function FloorDiv(a: int, b: int): (r: int)
    requires b > 0
    ensures b * r <= a < b * r + b
  {
    a / b
  }

  /** `Math.ceil(a / b)`. */
  function CeilDiv(a: int, b: int): (r: int)
    requires b > 0
    ensures b * r - b < a <= b * r
  {
    (a + b - 1) / b
  }

  /**
   * JavaScript's `a % b` for a positive divisor: the sign follows the dividend,
   * so it differs from Dafny's Euclidean `%` exactly on negative non-multiples.
   */
  function JsRem(a: int, b: int): (r: int)
    requires b > 0
    ensures -b < r < b
    ensures a >= 0 ==> r == a % b
    ensures a < 0 ==> r == (if a % b == 0 then 0 else a % b - b)
  {
    if a >= 0 then a % b
    else
      NegatedMod(a, b);
      -((-a) % b)
  }

  lemma NegatedMod(a: int, b: int)
    requires b > 0
    ensures (-a) % b == 0 ==> a % b == 0
    ensures (-a) % b != 0 ==> a % b == b - (-a) % b
  {
    var q, m := (-a) / b, (-a) % b;
    assert -a == b * q + m;
    if m == 0 {
      assert a == b * (-q) + 0;
      ModUnique(a, b, -q, 0);
    } else {
      assert a == b * (-q - 1) + (b - m);
      ModUnique(a, b, -q - 1, b - m);
    }
  }

  /** Euclidean division is determined by its defining equation. */
  lemma ModUnique(a: int, b: int, q: int, r: int)
    requires b > 0 && 0 <= r < b && a == b * q + r
    ensures a % b == r && a / b == q
  {
    var q', r' := a / b, a % b;
    assert b * q + r == b * q' + r';
    MulOrder(b, q, q');
    MulOrder(b, q', q);
  }

  /** A larger numerator never rounds to a smaller result. */
  lemma RoundDivMonotone(a1: int, a2: int, b: int)
    requires b > 0 && a1 <= a2
    ensures RoundDiv(a1, b) <= RoundDiv(a2, b)
  {
    MulOrder(2 * b, RoundDiv(a1, b), RoundDiv(a2, b));
  }

  /** A larger numerator never floors to a smaller result. */
  lemma FloorDivMonotone(a1: int, a2: int, b: int)
    requires b > 0 && a1 <= a2
    ensures FloorDiv(a1, b) <= FloorDiv(a2, b)
  {
    MulOrder(b, FloorDiv(a1, b), FloorDiv(a2, b));
  }

  /** Multiplying by a positive factor reflects order: x*m < x*n + x only when m <= n. */
  lemma MulOrder(x: int, m: int, n: int)
    requires x > 0
    ensures x * m < x * n + x ==> m <= n
  {
    if m > n {
      MulAtLeast(x, m - n);
      assert x * m == x * n + x * (m - n);
    }
  }

  lemma MulAtLeast(x: int, k: int)
    requires x > 0 && k >= 1
    ensures x * k >= x
  {
    if k > 1 {
      MulAtLeast(x, k - 1);
      assert x * k == x * (k - 1) + x;
    }
  }
}
