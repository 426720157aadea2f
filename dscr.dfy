/**
 * The DSCR statistics of the summary report (backend/calculator.py:265-283):
 * the minimum and the average of the DSCRs of the tenor years, taken over
 * the years whose DSCR is defined only, and `None` when there are none.
 */
module DscrStats {
  import opened Primitives
  import opened Cashflows
  import opened DebtSizing

  /** Every tenor year's DSCR can be evaluated: there is no tenor, or the debt service can be computed. */
  predicate DscrComputable(p: ProjectInputs)
  {
    p.debtTenor == 0 || CanAmortize(p)
  }

  /** The defined DSCRs of years `1..n`, in order: the list `dscr_values`. */
  function DefinedDscrs(p: ProjectInputs, n: nat): seq<real>
    requires n <= p.debtTenor && DscrComputable(p)
  {
    if n == 0 then []
    else DefinedDscrs(p, n - 1) + (match Dscr(p, n) case Some(v) => [v] case None => [])
  }

  /**
   * A tenor year's DSCR is undefined exactly when the debt service is zero,
   * so either every year contributes or none does.
   */
  lemma {:induction false} DefinedDscrsAllOrNothing(p: ProjectInputs, n: nat)
    requires CanAmortize(p) && n <= p.debtTenor
    ensures |DefinedDscrs(p, n)| == if AnnualDebtService(p) == 0.0 then 0 else n
  {
    if n > 0 {
      DefinedDscrsAllOrNothing(p, n - 1);
    }
  }

  /** With a non-zero debt service, entry `k` is the DSCR of year `k + 1`. */
  lemma {:induction false} DefinedDscrsAt(p: ProjectInputs, n: nat, k: nat)
    requires CanAmortize(p) && n <= p.debtTenor && AnnualDebtService(p) != 0.0 && k < n
    ensures |DefinedDscrs(p, n)| == n
    ensures Dscr(p, k + 1) == Some(DefinedDscrs(p, n)[k])
  {
    DefinedDscrsAllOrNothing(p, n);
    DefinedDscrsAllOrNothing(p, n - 1);
    if k < n - 1 {
      DefinedDscrsAt(p, n - 1, k);
    }
  }

  /** The loop shared by `calc_Minimum_DSCR` and `calc_Average_DSCR`. */
  method CollectDscrValues(p: ProjectInputs) returns (values: seq<real>)
    requires DscrComputable(p)
    ensures values == DefinedDscrs(p, p.debtTenor)
  {
    values := [];
    for year := 1 to p.debtTenor + 1
      invariant values == DefinedDscrs(p, year - 1)
    {
      var dscr := Dscr(p, year);
      if dscr.Some? {
        values := values + [dscr.value];
      }
    }
  }

  /** The minimum DSCR of the summary report. */
  function MinimumDscr(p: ProjectInputs): (r: Option<real>)
    requires DscrComputable(p)
    ensures r.None? <==> DefinedDscrs(p, p.debtTenor) == []
    ensures r.Some? ==> r.value in DefinedDscrs(p, p.debtTenor)
    ensures r.Some? ==> forall k :: 0 <= k < |DefinedDscrs(p, p.debtTenor)| ==> r.value <= DefinedDscrs(p, p.debtTenor)[k]
  {
    var values := DefinedDscrs(p, p.debtTenor);
    if values == [] then None else Some(SeqMin(values))
  }

  /** The average DSCR of the summary report. */
  function AverageDscr(p: ProjectInputs): (r: Option<real>)
    requires DscrComputable(p)
    ensures r.None? <==> DefinedDscrs(p, p.debtTenor) == []
    ensures r.Some? ==> r.value * |DefinedDscrs(p, p.debtTenor)| as real == Sum(DefinedDscrs(p, p.debtTenor))
  {
    var values := DefinedDscrs(p, p.debtTenor);
    if values == [] then None else Some(Mean(values))
  }

  /** `calc_Minimum_DSCR`. */
  method CalcMinimumDscr(p: ProjectInputs) returns (r: Option<real>)
    requires DscrComputable(p)
    ensures r == MinimumDscr(p)
  {
    var values := CollectDscrValues(p);
    if values != [] {
      r := Some(SeqMin(values));
    } else {
      r := None;
    }
  }

  /** `calc_Average_DSCR`. */
  method CalcAverageDscr(p: ProjectInputs) returns (r: Option<real>)
    requires DscrComputable(p)
    ensures r == AverageDscr(p)
  {
    var values := CollectDscrValues(p);
    if values != [] {
      r := Some(Sum(values) / |values| as real);
    } else {
      r := None;
    }
  }

  /** Both statistics are `None` exactly when there is no tenor or the debt service is zero. */
  lemma DscrStatsDefined(p: ProjectInputs)
    requires DscrComputable(p)
    ensures MinimumDscr(p).None? <==> p.debtTenor == 0 || AnnualDebtService(p) == 0.0
    ensures AverageDscr(p).None? <==> MinimumDscr(p).None?
  {
    if p.debtTenor > 0 {
      DefinedDscrsAllOrNothing(p, p.debtTenor);
    }
  }

  /** The minimum DSCR is at most the DSCR of every tenor year ... */
  lemma MinimumDscrIsLeast(p: ProjectInputs, year: nat)
    requires CanAmortize(p) && MinimumDscr(p).Some? && 1 <= year <= p.debtTenor
    ensures Dscr(p, year).Some? && MinimumDscr(p).value <= Dscr(p, year).value
  {
    DefinedDscrsAllOrNothing(p, p.debtTenor);
    DefinedDscrsAt(p, p.debtTenor, year - 1);
  }

  /** ... and is the DSCR of one of them. */
  lemma MinimumDscrAttained(p: ProjectInputs)
    requires CanAmortize(p) && MinimumDscr(p).Some?
    ensures exists year :: 1 <= year <= p.debtTenor && Dscr(p, year) == MinimumDscr(p)
  {
    var values := DefinedDscrs(p, p.debtTenor);
    DefinedDscrsAllOrNothing(p, p.debtTenor);
    var k :| 0 <= k < |values| && values[k] == SeqMin(values);
    DefinedDscrsAt(p, p.debtTenor, k);
  }

  /** The minimum DSCR never exceeds the average DSCR. */
  lemma MinimumDscrAtMostAverage(p: ProjectInputs)
    requires DscrComputable(p) && MinimumDscr(p).Some?
    ensures AverageDscr(p).Some? && MinimumDscr(p).value <= AverageDscr(p).value
  {
    SeqMinAtMostMean(DefinedDscrs(p, p.debtTenor));
  }

  /**
   * The average DSCR is the mean, over every tenor year, of the CFADS
   * divided by the debt service: no year is skipped.
   */
  lemma AverageDscrIsMeanCoverage(p: ProjectInputs)
    requires CanAmortize(p) && AverageDscr(p).Some?
    ensures AnnualDebtService(p) != 0.0 && p.debtTenor > 0
    ensures AverageDscr(p) == Some(Mean(Ratios(CfadsSeries(p, p.debtTenor), AnnualDebtService(p))))
  {
    DefinedDscrsAllOrNothing(p, p.debtTenor);
    DefinedDscrsAreRatios(p, p.debtTenor);
  }

  /** With a non-zero debt service the defined DSCRs are the CFADS divided, year by year, by it. */
  lemma DefinedDscrsAreRatios(p: ProjectInputs, n: nat)
    requires CanAmortize(p) && n <= p.debtTenor && AnnualDebtService(p) != 0.0
    ensures DefinedDscrs(p, n) == Ratios(CfadsSeries(p, n), AnnualDebtService(p))
  {
    var values, ratios := DefinedDscrs(p, n), Ratios(CfadsSeries(p, n), AnnualDebtService(p));
    DefinedDscrsAllOrNothing(p, n);
    forall k | 0 <= k < n
      ensures values[k] == ratios[k]
    {
      DefinedDscrsAt(p, n, k);
      CfadsSeriesAt(p, n, k);
    }
  }

  /** Each flow divided by `ds`. */
  function Ratios(flows: seq<real>, ds: real): (s: seq<real>)
    requires ds != 0.0
    ensures |s| == |flows|
    ensures forall k :: 0 <= k < |flows| ==> s[k] * ds == flows[k]
  {
    seq(|flows|, k requires 0 <= k < |flows| => Quotient(flows[k], ds))
  }
}
