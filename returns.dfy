/**
 * The discounted aggregates and return metrics of the engine
 * (backend/calculator.py:183-204, 223-263, 285-297): NPV of costs and of
 * energy, LCOE, project NPV, and the project and equity IRRs. Each loop of
 * the source is a method proved equal to `Npv` of the cash-flow list it
 * discounts; year 0 is undiscounted and year `t` is discounted `t` times.
 */
module Returns {
  import opened Primitives
  import opened FinanceFunctions
  import opened Cashflows
  import opened DebtSizing

  /** CapEx now, then the O&M cost of years `1..lifetime`. */
  function CostFlows(p: ProjectInputs): (s: seq<real>)
    ensures |s| == p.projectLifetime + 1 && s[0] == TotalCapex(p)
  {
    [TotalCapex(p)] + OmSeries(p, p.projectLifetime)
  }

  /** No energy now, then the energy of years `1..lifetime`. */
  function EnergyFlows(p: ProjectInputs): (s: seq<real>)
    ensures |s| == p.projectLifetime + 1 && s[0] == 0.0
  {
    [0.0] + EnergySeries(p, p.projectLifetime)
  }

  /** The project's cash flows: the CapEx spent now, then the CFADS of years `1..lifetime`. */
  function ProjectFlows(p: ProjectInputs): (s: seq<real>)
    ensures |s| == p.projectLifetime + 1 && s[0] == -TotalCapex(p)
  {
    [-TotalCapex(p)] + CfadsSeries(p, p.projectLifetime)
  }

  /** Equity's cash flows: the equity paid in now, then the FCF to equity of years `1..lifetime`. */
  function EquityFlows(p: ProjectInputs): (s: seq<real>)
    requires CanSizeDebt(p) && FcfDefined(p, p.projectLifetime)
    ensures |s| == p.projectLifetime + 1 && s[0] == -Equity(p)
  {
    [-Equity(p)] + FcfSeries(p, p.projectLifetime)
  }

  /** Discounting the lifetime at the discount rate divides by `(1 + rate) ** year`. */
  predicate CanDiscount(p: ProjectInputs)
  {
    p.projectLifetime == 0 || 1.0 + p.discountRate != 0.0
  }

  /** `calc_NPV_of_Costs`: the CapEx plus the discounted O&M costs. */
  method CalcNpvOfCosts(p: ProjectInputs) returns (npvCosts: real)
    requires CanDiscount(p)
    ensures npvCosts == Npv(p.discountRate, CostFlows(p))
  {
    var totalCapex := TotalCapex(p);
    var pvOm := 0.0;
    ghost var flows := [totalCapex];
    assert Npv(p.discountRate, flows) == totalCapex;
    for year := 1 to p.projectLifetime + 1
      invariant flows == [totalCapex] + OmSeries(p, year - 1)
      invariant totalCapex + pvOm == Npv(p.discountRate, flows)
    {
      var om := OmCost(p, year);
      var discountFactor := Pow(1.0 + p.discountRate, year);
      NpvAppend(p.discountRate, flows, om, year);
      pvOm := pvOm + om / discountFactor;
      flows := flows + [om];
    }
    npvCosts := totalCapex + pvOm;
  }

  /** `calc_NPV_of_Energy`: the discounted energy production. */
  method CalcNpvOfEnergy(p: ProjectInputs) returns (pvEnergy: real)
    requires CanDiscount(p)
    ensures pvEnergy == Npv(p.discountRate, EnergyFlows(p))
  {
    pvEnergy := 0.0;
    ghost var flows := [0.0];
    assert Npv(p.discountRate, flows) == 0.0;
    for year := 1 to p.projectLifetime + 1
      invariant flows == [0.0] + EnergySeries(p, year - 1)
      invariant pvEnergy == Npv(p.discountRate, flows)
    {
      var energy := Energy(p, year);
      var discountFactor := Pow(1.0 + p.discountRate, year);
      NpvAppend(p.discountRate, flows, energy, year);
      pvEnergy := pvEnergy + energy / discountFactor;
      flows := flows + [energy];
    }
  }

  /** `calc_Project_NPV`: the discounted CFADS less the CapEx. */
  method CalcProjectNpv(p: ProjectInputs) returns (projectNpv: real)
    requires CanDiscount(p)
    ensures projectNpv == Npv(p.discountRate, ProjectFlows(p))
  {
    var totalCapex := TotalCapex(p);
    var pvCfads := 0.0;
    ghost var flows := [-totalCapex];
    assert Npv(p.discountRate, flows) == -totalCapex;
    for year := 1 to p.projectLifetime + 1
      invariant flows == [-totalCapex] + CfadsSeries(p, year - 1)
      invariant -totalCapex + pvCfads == Npv(p.discountRate, flows)
    {
      var cfads := Cfads(p, year);
      var discountFactor := Pow(1.0 + p.discountRate, year);
      NpvAppend(p.discountRate, flows, cfads, year);
      pvCfads := pvCfads + cfads / discountFactor;
      flows := flows + [cfads];
    }
    projectNpv := -totalCapex + pvCfads;
  }

  /** `calc_LCOE`: the discounted costs per discounted MWh. */
  function Lcoe(p: ProjectInputs): (r: real)
    requires CanDiscount(p) && Npv(p.discountRate, EnergyFlows(p)) != 0.0
    ensures r * Npv(p.discountRate, EnergyFlows(p)) == Npv(p.discountRate, CostFlows(p))
  {
    Quotient(Npv(p.discountRate, CostFlows(p)), Npv(p.discountRate, EnergyFlows(p)))
  }

  /** Every flow multiplied by `price`. */
  function Priced(price: real, flows: seq<real>): (s: seq<real>)
    ensures |s| == |flows|
    ensures forall k :: 0 <= k < |flows| ==> s[k] == price * flows[k]
  {
    seq(|flows|, k requires 0 <= k < |flows| => price * flows[k])
  }

  /** Selling every MWh at the LCOE earns, discounted, exactly the discounted costs. */
  lemma LcoeBreakEven(p: ProjectInputs)
    requires CanDiscount(p) && Npv(p.discountRate, EnergyFlows(p)) != 0.0
    ensures Npv(p.discountRate, Priced(Lcoe(p), EnergyFlows(p))) == Npv(p.discountRate, CostFlows(p))
  {
    PricedBreakEven(p.discountRate, Lcoe(p), CostFlows(p), EnergyFlows(p));
  }

  /** A price that turns the discounted energy into the discounted costs recovers them flow by flow. */
  lemma PricedBreakEven(rate: real, price: real, costs: seq<real>, energy: seq<real>)
    requires |costs| <= 1 || 1.0 + rate != 0.0
    requires |energy| <= 1 || 1.0 + rate != 0.0
    requires price * Npv(rate, energy) == Npv(rate, costs)
    ensures Npv(rate, Priced(price, energy)) == Npv(rate, costs)
  {
    NpvScale(rate, price, Priced(price, energy), energy);
  }

  /**
   * A positive yield that degrades by less than 100 % a year has a positive
   * discounted energy, so the LCOE is defined.
   */
  lemma NpvOfEnergyPositive(p: ProjectInputs)
    requires 1.0 + p.discountRate > 0.0 && p.projectLifetime > 0
    requires p.p50Year0Yield > 0.0 && p.degradationRate < 1.0
    ensures Npv(p.discountRate, EnergyFlows(p)) > 0.0
  {
    var flows := EnergyFlows(p);
    forall k | 0 <= k < |flows|
      ensures flows[k] >= 0.0
    {
      if k > 0 {
        EnergySeriesAt(p, p.projectLifetime, k - 1);
      }
    }
    EnergySeriesAt(p, p.projectLifetime, p.projectLifetime - 1);
    NpvPositive(p.discountRate, flows);
  }

  /** `calc_Project_IRR`: the IRR of the project's cash flows. */
  method CalcProjectIrr(p: ProjectInputs) returns (o: IrrOutcome)
    ensures o == Newton(ProjectFlows(p), DefaultGuess, 0)
    ensures o.Converged? ==>
      (|ProjectFlows(p)| <= 1 || 1.0 + o.rate != 0.0) && Abs(Npv(o.rate, ProjectFlows(p))) < Tolerance
  {
    var cashFlows := [-TotalCapex(p)];
    for year := 1 to p.projectLifetime + 1
      invariant cashFlows == [-TotalCapex(p)] + CfadsSeries(p, year - 1)
    {
      cashFlows := cashFlows + [Cfads(p, year)];
    }
    assert cashFlows == ProjectFlows(p);
    o := IrrCalc(cashFlows);
  }

  /** `calc_Equity_IRR`: the IRR of equity's cash flows. */
  method CalcEquityIrr(p: ProjectInputs) returns (o: IrrOutcome)
    requires CanSizeDebt(p) && FcfDefined(p, p.projectLifetime)
    ensures o == Newton(EquityFlows(p), DefaultGuess, 0)
    ensures o.Converged? ==>
      (|EquityFlows(p)| <= 1 || 1.0 + o.rate != 0.0) && Abs(Npv(o.rate, EquityFlows(p))) < Tolerance
  {
    var cashFlows := [-Equity(p)];
    for year := 1 to p.projectLifetime + 1
      invariant cashFlows == [-Equity(p)] + FcfSeries(p, year - 1)
    {
      cashFlows := cashFlows + [Fcf(p, year)];
    }
    assert cashFlows == EquityFlows(p);
    o := IrrCalc(cashFlows);
  }
}
