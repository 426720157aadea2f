/**
 * The generic financial primitives of the engine (backend/calculator.py:11-51):
 * net present value, the Newton-Raphson internal rate of return, the level
 * annuity payment and the present value of an annuity.
 *
 * Every division of the source is guarded: a `requires` clause excludes
 * exactly the inputs on which Python would raise ZeroDivisionError, except in
 * `IrrCalc`, whose iterates are not known in advance and which reports that
 * case as the outcome `ZeroDivision`.
 */
module FinanceFunctions {
  import opened Primitives

  /** `abs(npv) < 1e-6` ends the Newton iteration. */
  const Tolerance: real := 0.000001
  /** `abs(derivative) < 1e-10` stops the Newton iteration early. */
  const DerivativeFloor: real := 0.0000000001
  const MaxIterations: nat := 100
  const DefaultGuess: real := 0.1

  /**
   * `npv_calc(rate, values)`: the sum of `values[i] / (1 + rate) ** i`, the
   * first value undiscounted. Defined on the last element so that it matches
   * the left-to-right accumulation of Python's `sum`.
   */
  function Npv(rate: real, values: seq<real>): (r: real)
    requires |values| <= 1 || 1.0 + rate != 0.0
    ensures values == [] ==> r == 0.0
    ensures |values| == 1 ==> r == values[0]
  {
    if values == [] then 0.0
    else
      var i := |values| - 1;
      Npv(rate, values[..i]) + Discount(rate, values[i], i)
  }

  /** A flow received `n` periods from now, discounted to today: `x / (1 + rate) ** n`. */
  function Discount(rate: real, x: real, n: nat): real
    requires n == 0 || 1.0 + rate != 0.0
  {
    x / Pow(1.0 + rate, n)
  }

  /** Appending a cash flow adds it discounted by its position. */
  lemma NpvSnoc(rate: real, values: seq<real>, x: real)
    requires values == [] || 1.0 + rate != 0.0
    ensures Npv(rate, values + [x]) == Npv(rate, values) + Discount(rate, x, |values|)
  {
    assert (values + [x])[..|values|] == values;
  }

  /** `NpvSnoc` with the position of the new flow given explicitly. */
  lemma NpvAppend(rate: real, values: seq<real>, x: real, n: nat)
    requires n == |values| && (n == 0 || 1.0 + rate != 0.0)
    ensures Npv(rate, values + [x]) == Npv(rate, values) + Discount(rate, x, n)
  {
    NpvSnoc(rate, values, x);
  }

  /** Discounting at rate 0 is the plain sum of the flows. */
  lemma {:induction false} NpvAtZeroRate(values: seq<real>)
    ensures Npv(0.0, values) == Sum(values)
  {
    if values != [] {
      NpvAtZeroRate(values[..|values| - 1]);
      PowOfOne(|values| - 1);
    }
  }

  lemma {:induction false} PowOfOne(n: nat)
    ensures Pow(1.0, n) == 1.0
  {
    if n > 0 {
      PowOfOne(n - 1);
    }
  }

  /** NPV is linear: scaling every flow by `c` scales the NPV by `c`. */
  lemma {:induction false} NpvScale(rate: real, c: real, scaled: seq<real>, values: seq<real>)
    requires |values| <= 1 || 1.0 + rate != 0.0
    requires |scaled| == |values|
    requires forall k :: 0 <= k < |values| ==> scaled[k] == c * values[k]
    ensures Npv(rate, scaled) == c * Npv(rate, values)
  {
    if values != [] {
      var i := |values| - 1;
      NpvScale(rate, c, scaled[..i], values[..i]);
      NpvLast(rate, scaled, i);
      NpvLast(rate, values, i);
      DiscountScale(rate, c, values[i], scaled[i], i);
      LinearStep(Npv(rate, scaled), Npv(rate, values), c, Npv(rate, values[..i]), Discount(rate, values[i], i));
    }
  }

  lemma NpvLast(rate: real, values: seq<real>, i: nat)
    requires i == |values| - 1 && (i == 0 || 1.0 + rate != 0.0)
    ensures Npv(rate, values) == Npv(rate, values[..i]) + Discount(rate, values[i], i)
  {
  }

  /** With a positive discount base, non-negative flows have a non-negative NPV. */
  lemma {:induction false} NpvNonNegative(rate: real, values: seq<real>)
    requires 1.0 + rate > 0.0
    requires forall k :: 0 <= k < |values| ==> values[k] >= 0.0
    ensures Npv(rate, values) >= 0.0
  {
    if values != [] {
      NpvNonNegative(rate, values[..|values| - 1]);
      var i := |values| - 1;
      assert values[i] / Pow(1.0 + rate, i) >= 0.0;
    }
  }

  /** ... and a positive last flow makes it positive. */
  lemma NpvPositive(rate: real, values: seq<real>)
    requires 1.0 + rate > 0.0
    requires forall k :: 0 <= k < |values| ==> values[k] >= 0.0
    requires values != [] && values[|values| - 1] > 0.0
    ensures Npv(rate, values) > 0.0
  {
    var i := |values| - 1;
    NpvNonNegative(rate, values[..i]);
    assert Discount(rate, values[i], i) > 0.0;
  }

  /**
   * `npv_derivative(rate)` inside `irr_calc`: the sum of
   * `-i * values[i] / (1 + rate) ** (i + 1)`.
   */
  function NpvDerivative(rate: real, values: seq<real>): (r: real)
    requires values == [] || 1.0 + rate != 0.0
    ensures |values| <= 1 ==> r == 0.0
  {
    if values == [] then 0.0
    else
      var i := |values| - 1;
      NpvDerivative(rate, values[..i]) + (-(i as real) * values[i]) / Pow(1.0 + rate, i + 1)
  }

  /** How `irr_calc` ended. Python returns `rate` in the first three cases and raises in the last. */
  datatype IrrOutcome =
    | Converged(rate: real, iteration: nat)       // returned inside the loop: NPV within tolerance
    | FlatDerivative(rate: real, iteration: nat)  // `break` on a vanishing derivative
    | IterationLimit(rate: real)                  // all 100 Newton steps taken
    | ZeroDivision(iteration: nat)                // an iterate reached -1: Python raises ZeroDivisionError

  /**
   * The Newton-Raphson iteration of `irr_calc` from `rate`, with `iteration`
   * steps already taken.
   */
  function Newton(values: seq<real>, rate: real, iteration: nat): (o: IrrOutcome)
    requires iteration <= MaxIterations
    decreases MaxIterations - iteration
    ensures !o.IterationLimit? ==> iteration <= o.iteration < MaxIterations
  {
    if iteration == MaxIterations then IterationLimit(rate)
    else if |values| > 1 && 1.0 + rate == 0.0 then ZeroDivision(iteration)
    else if Abs(Npv(rate, values)) < Tolerance then Converged(rate, iteration)
    else if 1.0 + rate == 0.0 then ZeroDivision(iteration)
    else if Abs(NpvDerivative(rate, values)) < DerivativeFloor then FlatDerivative(rate, iteration)
    else Newton(values, rate - Npv(rate, values) / NpvDerivative(rate, values), iteration + 1)
  }

  /** What each outcome of the iteration guarantees. */
  lemma {:induction false} NewtonOutcome(values: seq<real>, rate: real, iteration: nat)
    requires iteration <= MaxIterations
    decreases MaxIterations - iteration
    ensures var o := Newton(values, rate, iteration);
      && (o.Converged? ==>
            && (|values| <= 1 || 1.0 + o.rate != 0.0)
            && Abs(Npv(o.rate, values)) < Tolerance)
      && (o.FlatDerivative? ==>
            && 1.0 + o.rate != 0.0
            && Abs(Npv(o.rate, values)) >= Tolerance
            && Abs(NpvDerivative(o.rate, values)) < DerivativeFloor)
      && (o.ZeroDivision? ==> values != [])
  {
    if iteration < MaxIterations
      && !(|values| > 1 && 1.0 + rate == 0.0)
      && Abs(Npv(rate, values)) >= Tolerance
      && 1.0 + rate != 0.0
      && Abs(NpvDerivative(rate, values)) >= DerivativeFloor
    {
      NewtonOutcome(values, rate - Npv(rate, values) / NpvDerivative(rate, values), iteration + 1);
    }
  }

  /**
   * `irr_calc(values, guess)`: at most 100 Newton steps. A converged result
   * has an NPV within 1e-6 of zero; otherwise the last iterate is returned.
   */
  method IrrCalc(values: seq<real>, guess: real := DefaultGuess) returns (o: IrrOutcome)
    ensures o == Newton(values, guess, 0)
    ensures o.Converged? ==>
      && o.iteration < MaxIterations
      && (|values| <= 1 || 1.0 + o.rate != 0.0)
      && Abs(Npv(o.rate, values)) < Tolerance
    ensures o.FlatDerivative? ==>
      && o.iteration < MaxIterations
      && 1.0 + o.rate != 0.0
      && Abs(NpvDerivative(o.rate, values)) < DerivativeFloor
  {
    NewtonOutcome(values, guess, 0);
    var rate := guess;
    var iteration: nat := 0;
    while iteration < MaxIterations
      invariant iteration <= MaxIterations
      invariant Newton(values, rate, iteration) == Newton(values, guess, 0)
    {
      if |values| > 1 && 1.0 + rate == 0.0 {
        return ZeroDivision(iteration);
      }
      var npvValue := Npv(rate, values);
      if Abs(npvValue) < Tolerance {
        return Converged(rate, iteration);
      }
      if 1.0 + rate == 0.0 {
        return ZeroDivision(iteration);
      }
      var npvDeriv := NpvDerivative(rate, values);
      if Abs(npvDeriv) < DerivativeFloor {
        return FlatDerivative(rate, iteration);
      }
      rate := rate - npvValue / npvDeriv;
      iteration := iteration + 1;
    }
    return IterationLimit(rate);
  }

  /**
   * `pmt_calc(rate, nper, pv, fv)`: the level payment (negative for a
   * positive loan) that turns `pv` into `-fv` over `nper` periods.
   */
  function Pmt(rate: real, nper: nat, pv: real, fv: real := 0.0): (r: real)
    requires rate == 0.0 ==> nper > 0
    requires rate != 0.0 ==> Pow(1.0 + rate, nper) != 1.0
    ensures rate == 0.0 ==> r * nper as real == -(pv + fv)
    ensures rate != 0.0 ==> r * (Pow(1.0 + rate, nper) - 1.0) == -rate * (pv * Pow(1.0 + rate, nper) + fv)
  {
    if rate == 0.0 then -(pv + fv) / nper as real
    else -rate * (pv * Pow(1.0 + rate, nper) + fv) / (Pow(1.0 + rate, nper) - 1.0)
  }

  /** Nothing borrowed and nothing left to reach: the payment is 0. */
  lemma NoLoanNoPayment(rate: real, nper: nat, pv: real)
    requires rate == 0.0 ==> nper > 0
    requires rate != 0.0 ==> Pow(1.0 + rate, nper) != 1.0
    ensures pv == 0.0 ==> Pmt(rate, nper, pv, 0.0) == 0.0
  {
    if pv == 0.0 && rate != 0.0 {
      var q := Pow(1.0 + rate, nper);
      assert pv * q + 0.0 == 0.0;
      ZeroOverNonZero(-rate * (pv * q + 0.0), q - 1.0);
    }
  }

  lemma ZeroOverNonZero(x: real, d: real)
    requires d != 0.0 && x == 0.0
    ensures x / d == 0.0
  {
  }

  /** `pv_calc(rate, nper, pmt, fv)`: the present value of `nper` level payments. */
  function PresentValue(rate: real, nper: nat, pmt: real, fv: real := 0.0): (r: real)
    requires rate != 0.0 ==> Pow(1.0 + rate, nper) != 0.0
    ensures rate == 0.0 ==> r == -(pmt * nper as real + fv)
    ensures rate != 0.0 ==>
      rate * (r * Pow(1.0 + rate, nper)) == -(pmt * (Pow(1.0 + rate, nper) - 1.0) + rate * fv)
  {
    if rate == 0.0 then -(pmt * nper as real + fv)
    else -(pmt * (Pow(1.0 + rate, nper) - 1.0) / rate + fv) / Pow(1.0 + rate, nper)
  }

  /** The balance of a loan of `pv` after `k` periods of interest and payments `pmt`. */
  function LoanBalance(rate: real, pv: real, pmt: real, k: nat): real
  {
    if k == 0 then pv else LoanBalance(rate, pv, pmt, k - 1) * (1.0 + rate) + pmt
  }

  /** The balance in closed form, multiplied through by the rate. */
  lemma {:induction false} LoanBalanceClosedForm(rate: real, pv: real, pmt: real, k: nat)
    ensures rate * LoanBalance(rate, pv, pmt, k)
      == rate * pv * Pow(1.0 + rate, k) + pmt * (Pow(1.0 + rate, k) - 1.0)
  {
    if k > 0 {
      LoanBalanceClosedForm(rate, pv, pmt, k - 1);
      var q := Pow(1.0 + rate, k - 1);
      var b := LoanBalance(rate, pv, pmt, k - 1);
      assert Pow(1.0 + rate, k) == (1.0 + rate) * q;
      assert LoanBalance(rate, pv, pmt, k) == b * (1.0 + rate) + pmt;
      BalanceStep(rate, pv, pmt, q, b);
    }
  }

  lemma {:induction false} LoanBalanceAtZeroRate(pv: real, pmt: real, k: nat)
    ensures LoanBalance(0.0, pv, pmt, k) == pv + k as real * pmt
  {
    if k > 0 {
      LoanBalanceAtZeroRate(pv, pmt, k - 1);
    }
  }

  /** Paying `Pmt` for `nper` periods leaves exactly `-fv` owed: the loan is amortised. */
  lemma AnnuityAmortizes(rate: real, nper: nat, pv: real, fv: real)
    requires rate == 0.0 ==> nper > 0
    requires rate != 0.0 ==> Pow(1.0 + rate, nper) != 1.0
    ensures LoanBalance(rate, pv, Pmt(rate, nper, pv, fv), nper) == -fv
  {
    var pmt := Pmt(rate, nper, pv, fv);
    var b := LoanBalance(rate, pv, pmt, nper);
    if rate == 0.0 {
      LoanBalanceAtZeroRate(pv, pmt, nper);
    } else {
      LoanBalanceClosedForm(rate, pv, pmt, nper);
      var q := Pow(1.0 + rate, nper);
      AmortizedBalance(rate, pv, fv, pmt, q, b);
    }
  }

  /** `pv_calc` undoes `pmt_calc`: the payment for `pv` has present value `pv`. */
  lemma AnnuityRoundTrip(rate: real, nper: nat, pv: real, fv: real)
    requires rate == 0.0 ==> nper > 0
    requires rate != 0.0 ==> Pow(1.0 + rate, nper) != 1.0 && 1.0 + rate != 0.0
    ensures PresentValue(rate, nper, Pmt(rate, nper, pv, fv), fv) == pv
  {
    if rate != 0.0 {
      var q := Pow(1.0 + rate, nper);
      var pmt := Pmt(rate, nper, pv, fv);
      DiscountedPayments(rate, pv, fv, pmt, q, PresentValue(rate, nper, pmt, fv));
    }
  }

  // Real-arithmetic steps, kept apart so that each is proved in a small context.

  lemma DiscountScale(rate: real, c: real, x: real, y: real, n: nat)
    requires n == 0 || 1.0 + rate != 0.0
    requires y == c * x
    ensures Discount(rate, y, n) == c * Discount(rate, x, n)
  {
  }

  lemma LinearStep(s: real, v: real, c: real, a: real, b: real)
    requires s == c * a + c * b
    requires v == a + b
    ensures s == c * v
  {
  }

  lemma BalanceStep(rate: real, pv: real, pmt: real, q: real, b: real)
    requires rate * b == rate * pv * q + pmt * (q - 1.0)
    ensures rate * (b * (1.0 + rate) + pmt) == rate * pv * ((1.0 + rate) * q) + pmt * ((1.0 + rate) * q - 1.0)
  {
    assert rate * (b * (1.0 + rate) + pmt) == (rate * b) * (1.0 + rate) + rate * pmt;
  }

  lemma AmortizedBalance(rate: real, pv: real, fv: real, pmt: real, q: real, b: real)
    requires rate != 0.0
    requires rate * b == rate * pv * q + pmt * (q - 1.0)
    requires pmt * (q - 1.0) == -rate * (pv * q + fv)
    ensures b == -fv
  {
    assert rate * (b + fv) == 0.0;
  }

  lemma DiscountedPayments(rate: real, pv: real, fv: real, pmt: real, q: real, r: real)
    requires rate != 0.0 && q != 0.0
    requires pmt * (q - 1.0) == -rate * (pv * q + fv)
    requires rate * (r * q) == -(pmt * (q - 1.0) + rate * fv)
    ensures r == pv
  {
    assert rate * (r * q) == rate * (pv * q);
    assert r * q == pv * q;
  }
}
