/** JavaScript's integer arithmetic where it differs from Dafny's: `%` truncates toward
    zero (the remainder takes the sign of the dividend), while `Math.floor(a / b)` for a
    positive divisor is Dafny's Euclidean `/`. */
module Numbers {

  function Abs(x: int): nat { if x < 0 then -x else x }

  /** `a % b` in JavaScript, for b != 0. */
  function JsRem(a: int, b: int): (r: int)
    requires b != 0
    ensures Abs(r) < Abs(b)
    ensures a >= 0 ==> 0 <= r
    ensures a < 0 ==> r <= 0
    ensures a >= 0 && b > 0 ==> r == a % b
    ensures a < 0 && b > 0 ==> r == -((-a) % b)
  {
    if a >= 0 then a % Abs(b) else -((-a) % Abs(b))
  }

  /** `Math.floor(a / b)` for a positive divisor: the largest q with q * b <= a. */
  function FloorDiv(a: int, b: int): (q: int)
    requires b > 0
    ensures q * b <= a < (q + 1) * b
  {
    a / b
  }

  lemma MulBound(m: int, d: int)
    requires d > 0
    ensures m >= 1 ==> m * d >= d
    ensures m <= -1 ==> m * d <= -d
  {
    if m >= 1 {
      assert m * d == (m - 1) * d + d;
    } else if m <= -1 {
      assert m * d == (m + 1) * d - d;
    }
  }

  /** The remainder is determined by any decomposition a == q * d + r with 0 <= r < d. */
  lemma ModUnique(a: int, d: int, q: int, r: int)
    requires d > 0 && 0 <= r < d && a == q * d + r
    ensures a % d == r
    ensures a / d == q
  {
    var q0, r0 := a / d, a % d;
    assert a == q0 * d + r0;
    var m := q - q0;
    assert m * d == r0 - r by { assert q * d - q0 * d == (q - q0) * d; }
    MulBound(m, d);
  }

  lemma MultipleMod(k: int, d: int)
    requires d > 0
    ensures (k * d) % d == 0
  {
    ModUnique(k * d, d, k, 0);
  }

  /** How many whole `d`s fit in `a`, counted one at a time: floor(a / d) for a >= 0
      (`FitsIsDiv`) and 0 for a negative `a`. */
  function Fits(a: int, d: int): nat
    requires d > 0
    decreases a
  {
    if a < d then 0 else 1 + Fits(a - d, d)
  }

  lemma {:induction false} FitsBounds(a: int, d: int)
    requires d > 0 && a >= 0
    ensures Fits(a, d) * d <= a < Fits(a, d) * d + d
    decreases a
  {
    if a >= d {
      var q := Fits(a - d, d);
      FitsBounds(a - d, d);
      assert (q + 1) * d == q * d + d;
    }
  }

  lemma FitsIsDiv(a: int, d: int)
    requires d > 0 && a >= 0
    ensures Fits(a, d) == a / d
  {
    var q := Fits(a, d);
    FitsBounds(a, d);
    ModUnique(a, d, q, a - q * d);
  }
}
