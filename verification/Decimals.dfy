/**
 Decimal arithmetic as the trading code uses it, over mathematical reals.

 Products and quotients of two variables are named (`Mul`, `Div`), so that a proof
 can hide them and reason from the laws below instead of from nonlinear arithmetic.
 */
module Decimals {

  function Min(a: real, b: real): real { if b < a then b else a }

  function Max(a: real, b: real): real { if b > a then b else a }

  function Abs(a: real): real { if a < 0.0 then -a else a }

  function Mul(a: real, b: real): real { a * b }

  function Div(a: real, b: real): real
    requires b != 0.0
  {
    a / b
  }

  function Pow(x: real, n: nat): real {
    if n == 0 then 1.0 else Mul(x, Pow(x, n - 1))
  }

  lemma MulSign(a: real, b: real)
    ensures a >= 0.0 && b >= 0.0 ==> Mul(a, b) >= 0.0
    ensures a > 0.0 && b > 0.0 ==> Mul(a, b) > 0.0
    ensures a < 0.0 && b > 0.0 ==> Mul(a, b) < 0.0
    ensures a == 0.0 || b == 0.0 ==> Mul(a, b) == 0.0
  {}

  lemma MulUnit(a: real)
    ensures Mul(a, 1.0) == a && Mul(1.0, a) == a
  {}

  lemma MulComm(a: real, b: real)
    ensures Mul(a, b) == Mul(b, a)
  {}

  lemma MulAssoc(a: real, b: real, c: real)
    ensures Mul(a, Mul(b, c)) == Mul(Mul(a, b), c)
  {}

  lemma MulDistrib(k: real, a: real, b: real)
    ensures Mul(k, a + b) == Mul(k, a) + Mul(k, b) && Mul(a + b, k) == Mul(a, k) + Mul(b, k)
    ensures Mul(k, a - b) == Mul(k, a) - Mul(k, b) && Mul(a - b, k) == Mul(a, k) - Mul(b, k)
  {}

  lemma MulDouble(k: real, a: real)
    ensures Mul(k, 2.0 * a) == 2.0 * Mul(k, a)
  {}

  lemma MulMonotone(a: real, b: real, k: real)
    requires a <= b && k >= 0.0
    ensures Mul(a, k) <= Mul(b, k) && Mul(k, a) <= Mul(k, b)
  {
    hide Mul;
    MulSign(b - a, k);
    MulDistrib(k, b, a);
    MulComm(k, b - a);
  }

  lemma MulStrict(a: real, b: real, k: real)
    requires a < b && k > 0.0
    ensures Mul(a, k) < Mul(b, k) && Mul(k, a) < Mul(k, b)
  {
    hide Mul;
    MulSign(b - a, k);
    MulDistrib(k, b, a);
    MulComm(k, b - a);
  }

  lemma MulBoth(a: real, b: real, c: real, d: real)
    requires 0.0 <= a <= b && 0.0 <= c <= d
    ensures 0.0 <= Mul(a, c) <= Mul(b, d)
  {
    hide Mul;
    MulSign(a, c);
    MulMonotone(a, b, c);
    MulMonotone(c, d, b);
  }

  lemma DivMul(a: real, b: real)
    requires b > 0.0
    ensures Mul(Div(a, b), b) == a && Mul(b, Div(a, b)) == a
  {}

  lemma DivSign(a: real, b: real)
    requires b > 0.0
    ensures a > 0.0 <==> Div(a, b) > 0.0
    ensures a < 0.0 <==> Div(a, b) < 0.0
  {}

  lemma DivMonotone(a: real, b: real, c: real)
    requires c > 0.0 && a <= b
    ensures Div(a, c) <= Div(b, c)
  {}

  lemma DivAntitone(a: real, c: real, d: real)
    requires 0.0 < c <= d && a >= 0.0
    ensures 0.0 <= Div(a, d) <= Div(a, c)
  {}

  /** a <= b * c and a / c <= b are the same bound. */
  lemma DivBound(a: real, b: real, c: real)
    requires c > 0.0
    ensures a <= Mul(b, c) <==> Div(a, c) <= b
    ensures a >= Mul(b, c) <==> Div(a, c) >= b
  {
    hide Mul, Div;
    DivMul(a, c);
    if Div(a, c) < b { MulStrict(Div(a, c), b, c); }
    if Div(a, c) > b { MulStrict(b, Div(a, c), c); }
  }

  lemma {:induction false} PowMonotone(x: real, y: real, n: nat)
    requires 0.0 <= x <= y
    ensures 0.0 <= Pow(x, n) <= Pow(y, n)
  {
    hide Mul;
    if n > 0 {
      PowMonotone(x, y, n - 1);
      MulBoth(x, y, Pow(x, n - 1), Pow(y, n - 1));
    }
  }

  function Trunc(q: real): (n: int)
    ensures q >= 0.0 ==> 0.0 <= n as real <= q < n as real + 1.0
    ensures q < 0.0 ==> n as real - 1.0 < q <= n as real <= 0.0
  {
    if q >= 0.0 then q.Floor else -((-q).Floor)
  }

  /** Python's `Decimal.__floordiv__`: the quotient truncated toward zero. */
  function TruncDiv(a: real, b: real): int
    requires b != 0.0
  {
    Trunc(Div(a, b))
  }

  /** `(value // step) * step`. A step that is not positive raises in the source. */
  function QuantizeDown(value: real, step: real): real
    requires step > 0.0
  {
    Mul(TruncDiv(value, step) as real, step)
  }

  /** Rounding never moves away from zero and never by a whole step. */
  lemma QuantizeDownBounds(value: real, step: real)
    requires step > 0.0
    ensures var r := QuantizeDown(value, step);
            if value >= 0.0 then 0.0 <= r <= value < r + step
            else r - step < value <= r <= 0.0
  {
    hide Mul, Div, Trunc;
    var q := Div(value, step);
    var n := TruncDiv(value, step) as real;
    DivMul(value, step);
    DivSign(value, step);
    MulDistrib(step, n, 1.0);
    MulUnit(step);
    MulSign(0.0, step);
    if value >= 0.0 {
      MulMonotone(0.0, n, step);
      MulMonotone(n, q, step);
      MulStrict(q, n + 1.0, step);
    } else {
      MulMonotone(n, 0.0, step);
      MulMonotone(q, n, step);
      MulStrict(n - 1.0, q, step);
    }
  }

  /** How many whole hundredths fit in `value`: the share grid of the venue. */
  function Hundredths(value: real): int { TruncDiv(value, 0.01) }

  function Shares(n: int): real { n as real * 0.01 }

  /** On the share grid, `quantize_down(value, 0.01)` is plain counting in hundredths. */
  lemma QuantizeToShares(value: real)
    ensures QuantizeDown(value, 0.01) == Shares(Hundredths(value))
    ensures value >= 0.0 ==> Shares(Hundredths(value)) <= value < Shares(Hundredths(value)) + 0.01
    ensures value < 0.0 ==> Hundredths(value) <= 0
  {}

  lemma SharesOnGrid(n: int)
    ensures Hundredths(Shares(n)) == n
  {}

  /** ROUND_HALF_UP to a whole unit: ties go away from zero. */
  function RoundUnits(u: real): (n: int)
    ensures -0.5 <= n as real - u <= 0.5
    ensures u >= 0.0 ==> 0 <= n && n as real <= 2.0 * u
  {
    if u >= 0.0 then (u + 0.5).Floor else -((-u + 0.5).Floor)
  }

  lemma RoundUnitsMonotone(u: real, v: real)
    requires u <= v
    ensures RoundUnits(u) <= RoundUnits(v)
  {}
}
