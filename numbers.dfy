/** Arithmetic helpers shared by the formulas of the game. */
module Numbers {

  /** `Math.pow(b, n)` for a natural exponent. */
  function Power(b: real, n: nat): real {
    if n == 0 then 1.0 else Power(b, n - 1) * b
  }

  lemma {:induction false} PowerAtLeastOne(b: real, n: nat)
    requires b >= 1.0
    ensures Power(b, n) >= 1.0
  {
    if n > 0 {
      PowerAtLeastOne(b, n - 1);
    }
  }

  lemma {:induction false} PowerPositive(b: real, n: nat)
    requires b > 0.0
    ensures Power(b, n) > 0.0
  {
    if n > 0 {
      PowerPositive(b, n - 1);
    }
  }

  lemma {:induction false} PowerMonotone(b: real, m: nat, n: nat)
    requires b >= 1.0 && m <= n
    ensures Power(b, m) <= Power(b, n)
  {
    if m < n {
      PowerMonotone(b, m, n - 1);
      PowerAtLeastOne(b, n - 1);
    }
  }

  /** `Math.pow(b, e)` for any integer exponent (a negative one divides). */
  function IntPower(b: real, e: int): real
    requires b > 0.0
  {
    if e >= 0 then Power(b, e) else (PowerPositive(b, -e); 1.0 / Power(b, -e))
  }

  /** Product of the factors, multiplied in list order as a `forEach` does. */
  function Product(ms: seq<real>): real {
    if ms == [] then 1.0 else Product(ms[..|ms| - 1]) * ms[|ms| - 1]
  }

  /** Sum of the terms, added in list order as `reduce((s, w) => s + w, 0)` does. */
  function Sum(ws: seq<real>): real {
    if ws == [] then 0.0 else Sum(ws[..|ws| - 1]) + ws[|ws| - 1]
  }

  /** `Math.floor` of a product of an integer and a real factor. */
  function FloorMul(x: int, m: real): int {
    (x as real * m).Floor
  }

  function Max(a: real, b: real): real {
    if a >= b then a else b
  }

  function Min(a: real, b: real): real {
    if a <= b then a else b
  }
}
