/**
 * The year-by-year table of the report (backend/calculator.py:425-483):
 * one column per metric, one entry per year of the project lifetime. The
 * debt service and the DSCR columns cover the tenor only; after it the debt
 * service is 0 and the DSCR is absent, and inside it an undefined DSCR is
 * reported as 0.
 */
module YearlyReport {
  import opened Primitives
  import opened Cashflows
  import opened DebtSizing

  /** The columns of `generate_yearly_data`, entry `k` belonging to year `k + 1`. */
  datatype YearlyData = YearlyData(
    years: seq<nat>,
    energy: seq<real>,
    revenue: seq<real>,
    omCosts: seq<real>,
    ebitda: seq<real>,
    cfads: seq<real>,
    fcfToEquity: seq<real>,
    debtService: seq<real>,
    dscr: seq<Option<real>>,
    cumulativeFcf: seq<real>)

  /**
   * The debt service column's entry for `year`: the annual debt service
   * inside the tenor, 0 after it. With the year's FCF to equity it makes up
   * the year's CFADS, as `calc_FCF_to_Equity_year_t` splits it.
   */
  function DebtServiceEntry(p: ProjectInputs, year: nat): (r: real)
    requires CanAmortize(p)
    ensures year >= 1 ==> r + Fcf(p, year) == Cfads(p, year)
  {
    if year <= p.debtTenor then AnnualDebtService(p) else 0.0
  }

  /** The DSCR column's entry for `year`: inside the tenor the DSCR, 0 where it is undefined; absent after it. */
  function DscrEntry(p: ProjectInputs, year: nat): (r: Option<real>)
    requires year >= 1 && CanAmortize(p)
    ensures r.None? <==> year > p.debtTenor
  {
    if year <= p.debtTenor then Some(Dscr(p, year).GetOr(0.0)) else None
  }

  /** The years `1..n`. */
  function Years(n: nat): (s: seq<nat>)
    ensures |s| == n
  {
    if n == 0 then [] else Years(n - 1) + [n]
  }

  lemma {:induction false} YearsAt(n: nat, k: nat)
    requires k < n
    ensures Years(n)[k] == k + 1
  {
    if k < n - 1 {
      YearsAt(n - 1, k);
    }
  }

  /** The revenue of years `1..n`, in order. */
  function RevenueSeries(p: ProjectInputs, n: nat): (s: seq<real>)
    ensures |s| == n
  {
    if n == 0 then [] else RevenueSeries(p, n - 1) + [Revenue(p, n)]
  }

  lemma {:induction false} RevenueSeriesAt(p: ProjectInputs, n: nat, k: nat)
    requires k < n
    ensures RevenueSeries(p, n)[k] == Revenue(p, k + 1)
  {
    if k < n - 1 {
      RevenueSeriesAt(p, n - 1, k);
    }
  }

  /** The EBITDA of years `1..n`, in order. */
  function EbitdaSeries(p: ProjectInputs, n: nat): (s: seq<real>)
    ensures |s| == n
  {
    if n == 0 then [] else EbitdaSeries(p, n - 1) + [Ebitda(p, n)]
  }

  lemma {:induction false} EbitdaSeriesAt(p: ProjectInputs, n: nat, k: nat)
    requires k < n
    ensures EbitdaSeries(p, n)[k] == Ebitda(p, k + 1)
  {
    if k < n - 1 {
      EbitdaSeriesAt(p, n - 1, k);
    }
  }

  /** The debt service column for years `1..n`. */
  function DebtServiceSeries(p: ProjectInputs, n: nat): (s: seq<real>)
    requires CanAmortize(p)
    ensures |s| == n
  {
    if n == 0 then [] else DebtServiceSeries(p, n - 1) + [DebtServiceEntry(p, n)]
  }

  lemma {:induction false} DebtServiceSeriesAt(p: ProjectInputs, n: nat, k: nat)
    requires CanAmortize(p) && k < n
    ensures DebtServiceSeries(p, n)[k] == DebtServiceEntry(p, k + 1)
  {
    if k < n - 1 {
      DebtServiceSeriesAt(p, n - 1, k);
    }
  }

  /** The DSCR column for years `1..n`. */
  function DscrSeries(p: ProjectInputs, n: nat): (s: seq<Option<real>>)
    requires CanAmortize(p)
    ensures |s| == n
  {
    if n == 0 then [] else DscrSeries(p, n - 1) + [DscrEntry(p, n)]
  }

  lemma {:induction false} DscrSeriesAt(p: ProjectInputs, n: nat, k: nat)
    requires CanAmortize(p) && k < n
    ensures DscrSeries(p, n)[k] == DscrEntry(p, k + 1)
  {
    if k < n - 1 {
      DscrSeriesAt(p, n - 1, k);
    }
  }

  /** The running totals of `s`: entry `k` adds up `s[0..k]`. */
  function RunningTotals(s: seq<real>): (t: seq<real>)
    ensures |t| == |s|
  {
    if s == [] then [] else RunningTotals(s[..|s| - 1]) + [Sum(s)]
  }

  lemma {:induction false} RunningTotalsAt(s: seq<real>, k: nat)
    requires k < |s|
    ensures RunningTotals(s)[k] == Sum(s[..k + 1])
  {
    if k < |s| - 1 {
      RunningTotalsAt(s[..|s| - 1], k);
      assert s[..|s| - 1][..k + 1] == s[..k + 1];
    } else {
      assert s[..k + 1] == s;
    }
  }

  /** The table for the years `1..n`. */
  function YearlyTable(p: ProjectInputs, n: nat): YearlyData
    requires CanAmortize(p)
  {
    YearlyData(Years(n), EnergySeries(p, n), RevenueSeries(p, n), OmSeries(p, n),
      EbitdaSeries(p, n), CfadsSeries(p, n), FcfSeries(p, n), DebtServiceSeries(p, n),
      DscrSeries(p, n), RunningTotals(FcfSeries(p, n)))
  }

  /** The table extended by the row of `year`. */
  function AppendYear(t: YearlyData, p: ProjectInputs, year: nat): YearlyData
    requires CanAmortize(p) && year >= 1
  {
    YearlyData(t.years + [year], t.energy + [Energy(p, year)], t.revenue + [Revenue(p, year)],
      t.omCosts + [OmCost(p, year)], t.ebitda + [Ebitda(p, year)], t.cfads + [Cfads(p, year)],
      t.fcfToEquity + [Fcf(p, year)], t.debtService + [DebtServiceEntry(p, year)],
      t.dscr + [DscrEntry(p, year)], t.cumulativeFcf + [Sum(t.fcfToEquity) + Fcf(p, year)])
  }

  /** The table of `n` years is the table of `n - 1` years extended by year `n`. */
  lemma YearlyTableStep(p: ProjectInputs, n: nat)
    requires CanAmortize(p) && n >= 1
    ensures YearlyTable(p, n) == AppendYear(YearlyTable(p, n - 1), p, n)
  {
    var fcf := FcfSeries(p, n);
    assert fcf == FcfSeries(p, n - 1) + [Fcf(p, n)];
    assert fcf[..n - 1] == FcfSeries(p, n - 1);
    SumSnoc(FcfSeries(p, n - 1), Fcf(p, n));
  }

  /**
   * `generate_yearly_data`. The annual debt service is computed before the
   * loop, whatever the tenor, so the table needs it to be computable.
   */
  method GenerateYearlyData(p: ProjectInputs) returns (d: YearlyData)
    requires CanAmortize(p)
    ensures d == YearlyTable(p, p.projectLifetime)
  {
    var annualDebtService := AnnualDebtService(p);
    d := YearlyData([], [], [], [], [], [], [], [], [], []);
    var cumulativeFcf := 0.0;
    for year := 1 to p.projectLifetime + 1
      invariant d == YearlyTable(p, year - 1)
      invariant cumulativeFcf == Sum(d.fcfToEquity)
    {
      YearlyTableStep(p, year);
      d, cumulativeFcf := AppendYearRow(p, d, year, annualDebtService, cumulativeFcf);
    }
  }

  /** One pass of the loop of `generate_yearly_data`: the metrics of `year` appended to each column. */
  method AppendYearRow(p: ProjectInputs, d: YearlyData, year: nat, annualDebtService: real, cumulativeFcf: real)
    returns (d': YearlyData, cumulativeFcf': real)
    requires CanAmortize(p) && year >= 1
    requires annualDebtService == AnnualDebtService(p) && cumulativeFcf == Sum(d.fcfToEquity)
    ensures d' == AppendYear(d, p, year)
    ensures cumulativeFcf' == Sum(d'.fcfToEquity)
  {
    var fcf := Fcf(p, year);
    var debtService, dscrValue := TenorEntries(p, year, annualDebtService);
    var fcfColumn := d.fcfToEquity + [fcf];
    SumSnoc(d.fcfToEquity, fcf);
    cumulativeFcf' := cumulativeFcf + fcf;
    d' := YearlyData(d.years + [year], d.energy + [Energy(p, year)], d.revenue + [Revenue(p, year)],
      d.omCosts + [OmCost(p, year)], d.ebitda + [Ebitda(p, year)], d.cfads + [Cfads(p, year)],
      fcfColumn, d.debtService + [debtService], d.dscr + [dscrValue],
      d.cumulativeFcf + [cumulativeFcf']);
    RowAppended(d, p, year, fcf, debtService, dscrValue, cumulativeFcf');
  }

  /** The columns extended entry by entry are the table extended by the row of `year`. */
  lemma RowAppended(d: YearlyData, p: ProjectInputs, year: nat, fcf: real, debtService: real,
    dscrValue: Option<real>, cumulative: real)
    requires CanAmortize(p) && year >= 1 && fcf == Fcf(p, year)
    requires debtService == DebtServiceEntry(p, year) && dscrValue == DscrEntry(p, year)
    requires cumulative == Sum(d.fcfToEquity) + Fcf(p, year)
    ensures YearlyData(d.years + [year], d.energy + [Energy(p, year)], d.revenue + [Revenue(p, year)],
      d.omCosts + [OmCost(p, year)], d.ebitda + [Ebitda(p, year)], d.cfads + [Cfads(p, year)],
      d.fcfToEquity + [fcf], d.debtService + [debtService], d.dscr + [dscrValue],
      d.cumulativeFcf + [cumulative]) == AppendYear(d, p, year)
  {
  }

  /** The debt service and DSCR entries of `year`, chosen by whether the year lies in the tenor. */
  method TenorEntries(p: ProjectInputs, year: nat, annualDebtService: real) returns (debtService: real, dscrValue: Option<real>)
    requires CanAmortize(p) && year >= 1 && annualDebtService == AnnualDebtService(p)
    ensures debtService == DebtServiceEntry(p, year)
    ensures dscrValue == DscrEntry(p, year)
  {
    if year <= p.debtTenor {
      debtService := annualDebtService;
      var dscr := Dscr(p, year);
      dscrValue := Some(if dscr.Some? then dscr.value else 0.0);
    } else {
      debtService := 0.0;
      dscrValue := None;
    }
  }

  /** Every column has one entry per year. */
  lemma YearlyTableShape(p: ProjectInputs, n: nat)
    requires CanAmortize(p)
    ensures var t := YearlyTable(p, n);
      && |t.years| == |t.energy| == |t.revenue| == |t.omCosts| == |t.ebitda| == n
      && |t.cfads| == |t.fcfToEquity| == |t.debtService| == |t.dscr| == |t.cumulativeFcf| == n
  {
  }

  /**
   * Row `k` of the table is year `k + 1`: every metric of that year, the
   * FCF and the debt service adding up to the CFADS, the EBITDA being the
   * revenue less the O&M cost, and the cumulative FCF the sum of the FCF
   * of years `1..k + 1`.
   */
  lemma YearlyTableRow(p: ProjectInputs, n: nat, k: nat)
    requires CanAmortize(p) && k < n
    ensures var t := YearlyTable(p, n);
      && t.years[k] == k + 1
      && t.energy[k] == Energy(p, k + 1)
      && t.revenue[k] == Revenue(p, k + 1)
      && t.omCosts[k] == OmCost(p, k + 1)
      && t.ebitda[k] == t.revenue[k] - t.omCosts[k]
      && t.cfads[k] == Cfads(p, k + 1)
      && t.fcfToEquity[k] + t.debtService[k] == t.cfads[k]
      && t.cumulativeFcf[k] == Sum(t.fcfToEquity[..k + 1])
  {
    YearsAt(n, k);
    EnergySeriesAt(p, n, k);
    RevenueSeriesAt(p, n, k);
    OmSeriesAt(p, n, k);
    EbitdaSeriesAt(p, n, k);
    CfadsSeriesAt(p, n, k);
    FcfSeriesAt(p, n, k);
    DebtServiceSeriesAt(p, n, k);
    RunningTotalsAt(FcfSeries(p, n), k);
  }

  /** The debt service column holds the annual debt service for the tenor years and 0 after them. */
  lemma DebtServiceColumn(p: ProjectInputs, n: nat, k: nat)
    requires CanAmortize(p) && k < n
    ensures YearlyTable(p, n).debtService[k] == if k < p.debtTenor then AnnualDebtService(p) else 0.0
  {
    DebtServiceSeriesAt(p, n, k);
  }

  /**
   * The DSCR column of year `k + 1`: inside the tenor the CFADS over the
   * debt service, or 0 when the debt service is zero; after it no DSCR.
   */
  lemma DscrColumn(p: ProjectInputs, n: nat, k: nat)
    requires CanAmortize(p) && k < n
    ensures var t := YearlyTable(p, n);
      && (k < p.debtTenor && AnnualDebtService(p) != 0.0 ==>
            t.dscr[k].Some? && t.dscr[k].value * AnnualDebtService(p) == Cfads(p, k + 1))
      && (k < p.debtTenor && AnnualDebtService(p) == 0.0 ==> t.dscr[k] == Some(0.0))
      && (k >= p.debtTenor ==> t.dscr[k].None?)
  {
    DscrSeriesAt(p, n, k);
  }
}
