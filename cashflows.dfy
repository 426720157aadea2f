/**
 * The project record and the operating cash flows of one year
 * (backend/calculator.py:54-130): energy after degradation, revenue at the
 * escalated PPA price, escalated O&M cost, EBITDA and cash flow available
 * for debt service (CFADS). Year `t` counts from 1; every quantity of year
 * `t` is its year-1 value compounded `t - 1` times.
 */
module Cashflows {
  import opened Primitives

  const HoursPerYear: real := 8760.0

  /** `ProjectInputs`: the immutable record every calculation reads. */
  datatype ProjectInputs = ProjectInputs(
    capacity: real,            // MW
    p50Year0Yield: real,       // MWh produced in year 1, before degradation
    capexPerMw: real,          // EUR per MW
    ppaPrice: real,            // EUR per MWh
    omCostPerMwYear: real,     // EUR per MW and year
    degradationRate: real,
    ppaEscalation: real,
    omEscalation: real,
    gearingRatio: real,
    interestRate: real,
    debtTenor: nat,            // years
    targetDscr: real,
    projectLifetime: nat,      // years
    taxRate: real,
    discountRate: real)

  /** `calc_Capacity_Factor`: the yield as a share of running at full capacity all year. */
  function CapacityFactor(p: ProjectInputs): (r: real)
    requires p.capacity != 0.0
    ensures r * (p.capacity * HoursPerYear) == p.p50Year0Yield
  {
    p.p50Year0Yield / (p.capacity * HoursPerYear)
  }

  /** `calc_Total_CapEx`. */
  function TotalCapex(p: ProjectInputs): (r: real)
    ensures p.capacity != 0.0 ==> r / p.capacity == p.capexPerMw
  {
    p.capacity * p.capexPerMw
  }

  /** `calc_Energy_year_t`: the year-1 yield degraded `year - 1` times. */
  function Energy(p: ProjectInputs, year: nat): (r: real)
    requires year >= 1
    ensures year == 1 ==> r == p.p50Year0Yield
    ensures p.p50Year0Yield > 0.0 && p.degradationRate < 1.0 ==> r > 0.0
  {
    p.p50Year0Yield * Pow(1.0 - p.degradationRate, year - 1)
  }

  /** `calc_Revenue_year_t`: the energy sold at the PPA price escalated `year - 1` times. */
  function Revenue(p: ProjectInputs, year: nat): (r: real)
    requires year >= 1
    ensures year == 1 ==> r == p.p50Year0Yield * p.ppaPrice
  {
    Energy(p, year) * p.ppaPrice * Pow(1.0 + p.ppaEscalation, year - 1)
  }

  /** `calc_OM_year_t`: the year-1 O&M cost escalated `year - 1` times. */
  function OmCost(p: ProjectInputs, year: nat): (r: real)
    requires year >= 1
    ensures year == 1 ==> r == p.capacity * p.omCostPerMwYear
  {
    p.capacity * p.omCostPerMwYear * Pow(1.0 + p.omEscalation, year - 1)
  }

  /** `calc_EBITDA_year_t`. */
  function Ebitda(p: ProjectInputs, year: nat): (r: real)
    requires year >= 1
    ensures r >= 0.0 <==> Revenue(p, year) >= OmCost(p, year)
  {
    Revenue(p, year) - OmCost(p, year)
  }

  /** `calc_CFADS_year_t`: EBITDA after tax. */
  function Cfads(p: ProjectInputs, year: nat): (r: real)
    requires year >= 1
    ensures p.taxRate == 0.0 ==> r == Ebitda(p, year)
    ensures 0.0 <= p.taxRate <= 1.0 && Ebitda(p, year) >= 0.0 ==> 0.0 <= r <= Ebitda(p, year)
  {
    ShareWithin(Ebitda(p, year), 1.0 - p.taxRate);
    Ebitda(p, year) * (1.0 - p.taxRate)
  }

  /** Each year's energy is the previous year's times `1 - degradation`. */
  lemma EnergyYearOverYear(p: ProjectInputs, year: nat)
    requires year >= 1
    ensures Energy(p, year + 1) == Energy(p, year) * (1.0 - p.degradationRate)
  {
    var x := 1.0 - p.degradationRate;
    assert Pow(x, year) == x * Pow(x, year - 1);
  }

  /** `k` years later the energy has been degraded `k` more times. */
  lemma EnergyCompounds(p: ProjectInputs, year: nat, k: nat)
    requires year >= 1
    ensures Energy(p, year + k) == Energy(p, year) * Pow(1.0 - p.degradationRate, k)
  {
    var x := 1.0 - p.degradationRate;
    PowAdd(x, year + k - 1, year - 1, k);
    Regroup(p.p50Year0Yield, Pow(x, year - 1), Pow(x, k), Pow(x, year + k - 1));
  }

  /** With a positive yield and a degradation rate in (0, 1), energy falls every year. */
  lemma EnergyStrictlyDecreasing(p: ProjectInputs, year: nat)
    requires year >= 1
    requires p.p50Year0Yield > 0.0 && 0.0 < p.degradationRate < 1.0
    ensures 0.0 < Energy(p, year + 1) < Energy(p, year)
  {
    EnergyYearOverYear(p, year);
    var e := Energy(p, year);
    assert e > 0.0;
    assert e * (1.0 - p.degradationRate) < e * 1.0;
  }

  /** Revenue moves by both the degradation and the PPA escalation from one year to the next. */
  lemma RevenueYearOverYear(p: ProjectInputs, year: nat)
    requires year >= 1
    ensures Revenue(p, year + 1)
      == Revenue(p, year) * (1.0 - p.degradationRate) * (1.0 + p.ppaEscalation)
  {
    var y := 1.0 + p.ppaEscalation;
    EnergyYearOverYear(p, year);
    assert Pow(y, year) == y * Pow(y, year - 1);
    var e, d := Energy(p, year), 1.0 - p.degradationRate;
    var q := Pow(y, year - 1);
    assert Revenue(p, year + 1) == (e * d) * p.ppaPrice * (y * q);
    assert Revenue(p, year) == e * p.ppaPrice * q;
  }

  /** Each year's O&M cost is the previous year's times `1 + escalation`. */
  lemma OmYearOverYear(p: ProjectInputs, year: nat)
    requires year >= 1
    ensures OmCost(p, year + 1) == OmCost(p, year) * (1.0 + p.omEscalation)
  {
    var y := 1.0 + p.omEscalation;
    assert Pow(y, year) == y * Pow(y, year - 1);
  }

  /** `k` years later the O&M cost has been escalated `k` more times. */
  lemma OmCompounds(p: ProjectInputs, year: nat, k: nat)
    requires year >= 1
    ensures OmCost(p, year + k) == OmCost(p, year) * Pow(1.0 + p.omEscalation, k)
  {
    var y := 1.0 + p.omEscalation;
    PowAdd(y, year + k - 1, year - 1, k);
    Regroup(p.capacity * p.omCostPerMwYear, Pow(y, year - 1), Pow(y, k), Pow(y, year + k - 1));
  }

  /** `a * (b * c) == (a * b) * c`, with `b * c` given by name. */
  lemma Regroup(a: real, b: real, c: real, bc: real)
    requires bc == b * c
    ensures a * bc == (a * b) * c
  {
  }

  /**
   * The first-year figures of the reference scenario: 300 MW, 577,920 MWh,
   * 850,000 EUR/MW, 65 EUR/MWh, 12,000 EUR/MW-year and 25 % tax.
   */
  lemma ReferenceFirstYear()
    ensures var p := ProjectInputs(300.0, 577920.0, 850000.0, 65.0, 12000.0, 0.004, 0.0, 0.01,
                                   0.75, 0.045, 15, 1.30, 25, 0.25, 0.08);
      && TotalCapex(p) == 255000000.0
      && Energy(p, 1) == 577920.0
      && Revenue(p, 1) == 37564800.0
      && OmCost(p, 1) == 3600000.0
      && Ebitda(p, 1) == 33964800.0
      && Cfads(p, 1) == 25473600.0
  {
  }

  /** The energy of years `1..n`, in order. */
  function EnergySeries(p: ProjectInputs, n: nat): (s: seq<real>)
    ensures |s| == n
  {
    if n == 0 then [] else EnergySeries(p, n - 1) + [Energy(p, n)]
  }

  /** Entry `k` of the series is the figure of year `k + 1`. */
  lemma {:induction false} EnergySeriesAt(p: ProjectInputs, n: nat, k: nat)
    requires k < n
    ensures EnergySeries(p, n)[k] == Energy(p, k + 1)
  {
    if k < n - 1 {
      EnergySeriesAt(p, n - 1, k);
    }
  }

  /** The O&M cost of years `1..n`, in order. */
  function OmSeries(p: ProjectInputs, n: nat): (s: seq<real>)
    ensures |s| == n
  {
    if n == 0 then [] else OmSeries(p, n - 1) + [OmCost(p, n)]
  }

  /** Entry `k` of the series is the figure of year `k + 1`. */
  lemma {:induction false} OmSeriesAt(p: ProjectInputs, n: nat, k: nat)
    requires k < n
    ensures OmSeries(p, n)[k] == OmCost(p, k + 1)
  {
    if k < n - 1 {
      OmSeriesAt(p, n - 1, k);
    }
  }

  /** The CFADS of years `1..n`, in order. */
  function CfadsSeries(p: ProjectInputs, n: nat): (s: seq<real>)
    ensures |s| == n
  {
    if n == 0 then [] else CfadsSeries(p, n - 1) + [Cfads(p, n)]
  }

  /** Entry `k` of the series is the figure of year `k + 1`. */
  lemma {:induction false} CfadsSeriesAt(p: ProjectInputs, n: nat, k: nat)
    requires k < n
    ensures CfadsSeries(p, n)[k] == Cfads(p, k + 1)
  {
    if k < n - 1 {
      CfadsSeriesAt(p, n - 1, k);
    }
  }
}
