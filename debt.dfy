/**
 * Debt sizing and debt service (backend/calculator.py:132-217, 365): the
 * debt is the smaller of what the CFADS over the tenor can carry at the
 * target DSCR and what the gearing ratio allows; it is repaid by a level
 * annuity over the tenor, which splits each year's cash flow between
 * lenders and equity.
 */
module DebtSizing {
  import opened Primitives
  import opened FinanceFunctions
  import opened Cashflows

  /**
   * The sizing divides by `(1 + interest) ** year` for the years of the
   * tenor and by the target DSCR; Python raises ZeroDivisionError otherwise.
   */
  predicate CanSizeDebt(p: ProjectInputs)
  {
    (p.debtTenor == 0 || 1.0 + p.interestRate != 0.0) && p.targetDscr != 0.0
  }

  /** `pmt_calc` over the tenor divides by the tenor (no interest) or by `(1 + interest) ** tenor - 1`. */
  predicate CanAmortize(p: ProjectInputs)
  {
    && CanSizeDebt(p)
    && (p.interestRate == 0.0 ==> p.debtTenor > 0)
    && (p.interestRate != 0.0 ==> Pow(1.0 + p.interestRate, p.debtTenor) != 1.0)
  }

  /** The cash flows discounted by `calc_PV_of_CFADS`: nothing now, then CFADS of years `1..tenor`. */
  function TenorCfadsFlows(p: ProjectInputs): (s: seq<real>)
    ensures |s| == p.debtTenor + 1 && s[0] == 0.0
  {
    [0.0] + CfadsSeries(p, p.debtTenor)
  }

  /** `calc_PV_of_CFADS`: the CFADS of the tenor years discounted at the interest rate. */
  method CalcPvOfCfads(p: ProjectInputs) returns (pvTotal: real)
    requires p.debtTenor == 0 || 1.0 + p.interestRate != 0.0
    ensures pvTotal == Npv(p.interestRate, TenorCfadsFlows(p))
  {
    pvTotal := 0.0;
    ghost var flows := [0.0];
    assert Npv(p.interestRate, flows) == 0.0;
    for year := 1 to p.debtTenor + 1
      invariant flows == [0.0] + CfadsSeries(p, year - 1)
      invariant pvTotal == Npv(p.interestRate, flows)
    {
      var cfads := Cfads(p, year);
      var discountFactor := Pow(1.0 + p.interestRate, year);
      NpvAppend(p.interestRate, flows, cfads, year);
      pvTotal := pvTotal + cfads / discountFactor;
      flows := flows + [cfads];
    }
  }

  /** `calc_Max_Debt_by_DSCR`: the debt that the tenor CFADS covers `targetDscr` times. */
  function MaxDebtByDscr(p: ProjectInputs): (r: real)
    requires CanSizeDebt(p)
    ensures r * p.targetDscr == Npv(p.interestRate, TenorCfadsFlows(p))
  {
    Quotient(Npv(p.interestRate, TenorCfadsFlows(p)), p.targetDscr)
  }

  /** `calc_Max_Debt_by_Gearing`. */
  function MaxDebtByGearing(p: ProjectInputs): (r: real)
    ensures 0.0 <= p.gearingRatio <= 1.0 && TotalCapex(p) >= 0.0 ==> 0.0 <= r <= TotalCapex(p)
  {
    ShareWithin(TotalCapex(p), p.gearingRatio);
    TotalCapex(p) * p.gearingRatio
  }

  /** `calc_Final_Debt`: the smaller of the two limits. */
  function FinalDebt(p: ProjectInputs): (r: real)
    requires CanSizeDebt(p)
    ensures r <= MaxDebtByDscr(p) && r <= MaxDebtByGearing(p)
    ensures r == MaxDebtByDscr(p) || r == MaxDebtByGearing(p)
  {
    Min(MaxDebtByDscr(p), MaxDebtByGearing(p))
  }

  /** `calc_Equity`: what the debt does not finance. */
  function Equity(p: ProjectInputs): (r: real)
    requires CanSizeDebt(p)
    ensures r + FinalDebt(p) == TotalCapex(p)
    ensures r >= TotalCapex(p) - MaxDebtByGearing(p)
  {
    TotalCapex(p) - FinalDebt(p)
  }

  /** The equity share is at least the ungeared share of the CapEx. */
  lemma EquityAtLeastUngearedShare(p: ProjectInputs)
    requires CanSizeDebt(p)
    ensures Equity(p) >= TotalCapex(p) * (1.0 - p.gearingRatio)
  {
    assert TotalCapex(p) * (1.0 - p.gearingRatio) == TotalCapex(p) - MaxDebtByGearing(p);
  }

  datatype Constraint = DscrBound | GearingBound

  /**
   * The binding constraint of the summary report: the DSCR limit only when
   * it is strictly below the gearing limit, so a tie is reported as gearing.
   */
  function BindingConstraint(p: ProjectInputs): (c: Constraint)
    requires CanSizeDebt(p)
    ensures c == DscrBound <==> MaxDebtByDscr(p) < MaxDebtByGearing(p)
    ensures FinalDebt(p) == (if c == DscrBound then MaxDebtByDscr(p) else MaxDebtByGearing(p))
  {
    if MaxDebtByDscr(p) < MaxDebtByGearing(p) then DscrBound else GearingBound
  }

  /** `calc_Annual_Debt_Service`: the level payment that retires the final debt over the tenor. */
  function AnnualDebtService(p: ProjectInputs): (r: real)
    requires CanAmortize(p)
    ensures FinalDebt(p) == 0.0 ==> r == 0.0
  {
    NoLoanNoPayment(p.interestRate, p.debtTenor, FinalDebt(p));
    -Pmt(p.interestRate, p.debtTenor, FinalDebt(p), 0.0)
  }

  /** Without interest the debt is repaid in equal parts. */
  lemma ZeroInterestDebtService(p: ProjectInputs)
    requires CanAmortize(p) && p.interestRate == 0.0
    ensures AnnualDebtService(p) * p.debtTenor as real == FinalDebt(p)
  {
    var pmt := Pmt(p.interestRate, p.debtTenor, FinalDebt(p), 0.0);
    assert pmt * p.debtTenor as real == -FinalDebt(p);
  }

  /** Paying the annual debt service for the tenor leaves nothing owed. */
  lemma DebtServiceRetiresDebt(p: ProjectInputs)
    requires CanAmortize(p)
    ensures LoanBalance(p.interestRate, FinalDebt(p), -AnnualDebtService(p), p.debtTenor) == 0.0
  {
    AnnuityAmortizes(p.interestRate, p.debtTenor, FinalDebt(p), 0.0);
  }

  /** The annual debt service, discounted over the tenor at the interest rate, is the final debt. */
  lemma DebtServiceRoundTrip(p: ProjectInputs)
    requires CanAmortize(p) && 1.0 + p.interestRate != 0.0
    ensures PresentValue(p.interestRate, p.debtTenor, -AnnualDebtService(p), 0.0) == FinalDebt(p)
  {
    AnnuityRoundTrip(p.interestRate, p.debtTenor, FinalDebt(p), 0.0);
  }

  /** With positive interest a positive debt costs a positive payment every year. */
  lemma DebtServicePositive(p: ProjectInputs)
    requires CanAmortize(p) && p.interestRate > 0.0 && p.debtTenor > 0 && FinalDebt(p) > 0.0
    ensures AnnualDebtService(p) > 0.0
  {
    var q := Pow(1.0 + p.interestRate, p.debtTenor);
    PowAboveOne(1.0 + p.interestRate, p.debtTenor);
    var pmt := Pmt(p.interestRate, p.debtTenor, FinalDebt(p), 0.0);
    NegativePayment(pmt, q - 1.0, p.interestRate * (FinalDebt(p) * q + 0.0));
  }

  lemma NegativePayment(pmt: real, growth: real, owed: real)
    requires growth > 0.0 && owed > 0.0 && pmt * growth == -owed
    ensures pmt < 0.0
  {
  }

  /**
   * `calc_FCF_to_Equity_year_t`: CFADS less the debt service during the
   * tenor, all of the CFADS after it.
   */
  function Fcf(p: ProjectInputs, year: nat): (r: real)
    requires year >= 1 && (year <= p.debtTenor ==> CanAmortize(p))
    ensures year <= p.debtTenor ==> r + AnnualDebtService(p) == Cfads(p, year)
    ensures year > p.debtTenor ==> r == Cfads(p, year)
  {
    if year <= p.debtTenor then Cfads(p, year) - AnnualDebtService(p) else Cfads(p, year)
  }

  /** The debt service is needed for the years `1..n` exactly when some of them fall in the tenor. */
  predicate FcfDefined(p: ProjectInputs, n: nat)
  {
    n == 0 || p.debtTenor == 0 || CanAmortize(p)
  }

  /** The FCF to equity of years `1..n`, in order. */
  function FcfSeries(p: ProjectInputs, n: nat): (s: seq<real>)
    requires FcfDefined(p, n)
    ensures |s| == n
  {
    if n == 0 then [] else FcfSeries(p, n - 1) + [Fcf(p, n)]
  }

  /** Entry `k` of the series is the FCF of year `k + 1`. */
  lemma {:induction false} FcfSeriesAt(p: ProjectInputs, n: nat, k: nat)
    requires FcfDefined(p, n) && k < n
    ensures FcfSeries(p, n)[k] == Fcf(p, k + 1)
  {
    if k < n - 1 {
      FcfSeriesAt(p, n - 1, k);
    }
  }

  /**
   * The FCF series is the CFADS series with the annual debt service taken
   * off each tenor year; `SumLessLeading` turns this into the cumulative
   * statement.
   */
  lemma FcfSeriesLessDebtService(p: ProjectInputs, n: nat)
    requires CanAmortize(p)
    ensures LessLeading(FcfSeries(p, n), CfadsSeries(p, n), n, p.debtTenor, AnnualDebtService(p))
  {
    var fcf, cfads := FcfSeries(p, n), CfadsSeries(p, n);
    forall k | 0 <= k < n
      ensures fcf[k] == (if k < p.debtTenor then cfads[k] - AnnualDebtService(p) else cfads[k])
    {
      FcfSeriesAt(p, n, k);
      CfadsSeriesAt(p, n, k);
    }
  }

  /** `reduced` is `full` with `ds` taken off each of its first `m` elements. */
  predicate LessLeading(reduced: seq<real>, full: seq<real>, n: nat, m: nat, ds: real)
  {
    && |reduced| == |full| == n
    && forall k :: 0 <= k < n ==> reduced[k] == (if k < m then full[k] - ds else full[k])
  }

  /** Taking `ds` off each of the first `m` of `n` flows takes `min(n, m)` times `ds` off their sum. */
  lemma {:induction false} SumLessLeading(reduced: seq<real>, full: seq<real>, n: nat, m: nat, ds: real)
    requires LessLeading(reduced, full, n, m, ds)
    ensures Sum(reduced) == Sum(full) - (if n <= m then n else m) as real * ds
  {
    if n > 0 {
      SumLessLeading(reduced[..n - 1], full[..n - 1], n - 1, m, ds);
    }
  }

  /**
   * `calc_DSCR_year_t`: CFADS over debt service, `None` after the tenor and
   * `None` when the debt service is zero.
   */
  function Dscr(p: ProjectInputs, year: nat): (r: Option<real>)
    requires year >= 1 && (year <= p.debtTenor ==> CanAmortize(p))
    ensures r.None? <==> year > p.debtTenor || AnnualDebtService(p) == 0.0
    ensures r.Some? ==> r.value * AnnualDebtService(p) == Cfads(p, year)
  {
    if year > p.debtTenor then None else CoverageRatio(Cfads(p, year), AnnualDebtService(p))
  }

  /** How many times `debtService` fits into `cfads`; `None` for a zero debt service. */
  function CoverageRatio(cfads: real, debtService: real): (r: Option<real>)
    ensures r.None? <==> debtService == 0.0
    ensures r.Some? ==> r.value * debtService == cfads
  {
    if debtService == 0.0 then None else Some(Quotient(cfads, debtService))
  }
}
