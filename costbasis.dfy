/**
 * How the calculation endpoint turns a request into the engine's inputs
 * (backend/main.py:46-90, 137-181): the CapEx and the year-1 O&M cost come
 * either from itemised cost lines, summed by kind and spread over the
 * capacity, or from the two per-MW figures of the request; everything else
 * is passed through unchanged.
 */
module CostBasis {
  import opened Primitives
  import opened Cashflows
  import opened DebtSizing
  import opened FinanceFunctions
  import opened Returns

  /** `CostLineItem`: one cost line, CapEx or O&M. */
  datatype CostLineItem = CostLineItem(
    name: string,
    amount: real,                  // EUR
    isCapex: bool,
    unitPrice: Option<real>,       // informative only
    quantity: Option<real>,        // informative only
    escalationRate: Option<real>)  // no longer used

  /** `ProjectInputsRequest`: the body of a calculation request. */
  datatype CalculationRequest = CalculationRequest(
    capacity: real,
    p50Year0Yield: real,
    capexPerMw: Option<real>,
    ppaPrice: real,
    omCostPerMwYear: Option<real>,
    costItems: Option<seq<CostLineItem>>,
    degradationRate: real,
    ppaEscalation: real,
    omEscalation: real,
    gearingRatio: real,
    interestRate: real,
    debtTenor: nat,
    targetDscr: real,
    projectLifetime: nat,
    taxRate: real,
    discountRate: real)

  datatype Result<T> = Ok(value: T) | Failure(error: string)

  const CapexError: string := "Total CapEx must be greater than 0"
  const OpexError: string := "Total OpEx must be greater than 0"
  const MissingCostsError: string :=
    "Must provide either cost_items or both capex_per_mw and om_cost_per_mw_year"

  /** The field constraints the request model enforces before the endpoint runs. */
  predicate ValidItem(item: CostLineItem)
  {
    1 <= |item.name| <= 100 && item.amount > 0.0
  }

  predicate Validated(req: CalculationRequest)
  {
    && req.capacity > 0.0
    && req.p50Year0Yield > 0.0
    && (req.capexPerMw.Some? ==> req.capexPerMw.value > 0.0)
    && req.ppaPrice > 0.0
    && (req.omCostPerMwYear.Some? ==> req.omCostPerMwYear.value > 0.0)
    && (req.costItems.Some? ==> forall i :: 0 <= i < |req.costItems.value| ==> ValidItem(req.costItems.value[i]))
    && 0.0 <= req.degradationRate <= 0.1
    && -0.1 <= req.ppaEscalation <= 0.1
    && -0.1 <= req.omEscalation <= 0.1
    && 0.0 <= req.gearingRatio <= 1.0
    && 0.0 < req.interestRate <= 0.2
    && 1 <= req.debtTenor <= 30
    && req.targetDscr > 1.0
    && 1 <= req.projectLifetime <= 50
    && 0.0 <= req.taxRate <= 1.0
    && 0.0 < req.discountRate <= 0.3
  }

  /** The summed amounts of the CapEx lines. */
  function CapexSum(items: seq<CostLineItem>): (r: real)
    ensures (forall i :: 0 <= i < |items| ==> items[i].isCapex) ==> r == AmountSum(items)
  {
    if items == [] then 0.0
    else CapexSum(items[..|items| - 1]) + (if items[|items| - 1].isCapex then items[|items| - 1].amount else 0.0)
  }

  /** The summed amounts of the O&M lines. */
  function OpexSum(items: seq<CostLineItem>): (r: real)
    ensures (forall i :: 0 <= i < |items| ==> !items[i].isCapex) ==> r == AmountSum(items)
  {
    if items == [] then 0.0
    else OpexSum(items[..|items| - 1]) + (if items[|items| - 1].isCapex then 0.0 else items[|items| - 1].amount)
  }

  /** The engine's inputs with the given cost basis and the request's other fields. */
  function WithCosts(req: CalculationRequest, capexPerMw: real, omCostPerMwYear: real): (p: ProjectInputs)
    ensures p.capexPerMw == capexPerMw && p.omCostPerMwYear == omCostPerMwYear
  {
    ProjectInputs(req.capacity, req.p50Year0Yield, capexPerMw, req.ppaPrice, omCostPerMwYear,
      req.degradationRate, req.ppaEscalation, req.omEscalation, req.gearingRatio,
      req.interestRate, req.debtTenor, req.targetDscr, req.projectLifetime, req.taxRate,
      req.discountRate)
  }

  /** Whether the request takes the itemised path: a list of cost lines that is not empty. */
  predicate Itemised(req: CalculationRequest)
  {
    req.costItems.Some? && req.costItems.value != []
  }

  /**
   * The cost-basis block of `calculate_project`. The itemised path checks
   * the CapEx before the O&M cost; the other path needs both per-MW figures.
   */
  function ResolveCostBasis(req: CalculationRequest): (r: Result<ProjectInputs>)
    requires req.capacity > 0.0
    ensures r.Ok? && Itemised(req) ==>
      && r.value.capexPerMw * req.capacity == CapexSum(req.costItems.value)
      && r.value.omCostPerMwYear * req.capacity == OpexSum(req.costItems.value)
    ensures r.Ok? && !Itemised(req) ==>
      && req.capexPerMw == Some(r.value.capexPerMw)
      && req.omCostPerMwYear == Some(r.value.omCostPerMwYear)
  {
    if Itemised(req) then
      var items := req.costItems.value;
      var totalCapex := CapexSum(items);
      var totalOpexYear1 := OpexSum(items);
      if totalCapex == 0.0 then Failure(CapexError)
      else if totalOpexYear1 == 0.0 then Failure(OpexError)
      else Ok(WithCosts(req, Quotient(totalCapex, req.capacity), Quotient(totalOpexYear1, req.capacity)))
    else if req.capexPerMw.None? || req.omCostPerMwYear.None? then Failure(MissingCostsError)
    else Ok(WithCosts(req, req.capexPerMw.value, req.omCostPerMwYear.value))
  }

  /** The error cases, in the order the endpoint checks them. */
  lemma ResolveCostBasisErrors(req: CalculationRequest)
    requires req.capacity > 0.0
    ensures Itemised(req) && CapexSum(req.costItems.value) == 0.0
      ==> ResolveCostBasis(req) == Failure(CapexError)
    ensures Itemised(req) && CapexSum(req.costItems.value) != 0.0 && OpexSum(req.costItems.value) == 0.0
      ==> ResolveCostBasis(req) == Failure(OpexError)
    ensures !Itemised(req) && (req.capexPerMw.None? || req.omCostPerMwYear.None?)
      ==> ResolveCostBasis(req) == Failure(MissingCostsError)
    ensures ResolveCostBasis(req).Failure? <==>
      if Itemised(req) then CapexSum(req.costItems.value) == 0.0 || OpexSum(req.costItems.value) == 0.0
      else req.capexPerMw.None? || req.omCostPerMwYear.None?
  {
  }

  /** Every field other than the cost basis reaches the engine unchanged. */
  lemma ResolvePassesThrough(req: CalculationRequest)
    requires req.capacity > 0.0 && ResolveCostBasis(req).Ok?
    ensures ResolveCostBasis(req).value == WithCosts(req, ResolveCostBasis(req).value.capexPerMw,
      ResolveCostBasis(req).value.omCostPerMwYear)
  {
  }

  /** On the itemised path the engine's total CapEx is the sum of the CapEx lines. */
  lemma ItemisedTotalCapex(req: CalculationRequest)
    requires req.capacity > 0.0 && Itemised(req) && ResolveCostBasis(req).Ok?
    ensures TotalCapex(ResolveCostBasis(req).value) == CapexSum(req.costItems.value)
  {
    var p := ResolveCostBasis(req).value;
    assert p.capacity == req.capacity;
  }

  /** Each line counts towards exactly one of the two totals. */
  lemma {:induction false} SumsPartition(items: seq<CostLineItem>)
    ensures CapexSum(items) + OpexSum(items) == AmountSum(items)
  {
    if items != [] {
      SumsPartition(items[..|items| - 1]);
    }
  }

  /** The summed amounts of all lines. */
  function AmountSum(items: seq<CostLineItem>): real
  {
    if items == [] then 0.0 else AmountSum(items[..|items| - 1]) + items[|items| - 1].amount
  }

  /** With positive amounts a total is zero exactly when no line is of that kind. */
  lemma {:induction false} CapexSumZeroIff(items: seq<CostLineItem>)
    requires forall i :: 0 <= i < |items| ==> items[i].amount > 0.0
    ensures CapexSum(items) >= 0.0
    ensures CapexSum(items) == 0.0 <==> forall i :: 0 <= i < |items| ==> !items[i].isCapex
  {
    if items != [] {
      var init := items[..|items| - 1];
      CapexSumZeroIff(init);
      assert forall i :: 0 <= i < |init| ==> init[i] == items[i];
    }
  }

  lemma {:induction false} OpexSumZeroIff(items: seq<CostLineItem>)
    requires forall i :: 0 <= i < |items| ==> items[i].amount > 0.0
    ensures OpexSum(items) >= 0.0
    ensures OpexSum(items) == 0.0 <==> forall i :: 0 <= i < |items| ==> items[i].isCapex
  {
    if items != [] {
      var init := items[..|items| - 1];
      OpexSumZeroIff(init);
      assert forall i :: 0 <= i < |init| ==> init[i] == items[i];
    }
  }

  /**
   * For a validated request the itemised path fails exactly when the lines
   * hold no CapEx line or no O&M line, and otherwise both per-MW figures
   * are positive.
   */
  lemma ItemisedOutcome(req: CalculationRequest)
    requires Validated(req) && Itemised(req)
    ensures ResolveCostBasis(req).Failure? <==>
      (forall i :: 0 <= i < |req.costItems.value| ==> !req.costItems.value[i].isCapex)
      || (forall i :: 0 <= i < |req.costItems.value| ==> req.costItems.value[i].isCapex)
    ensures ResolveCostBasis(req).Ok? ==>
      ResolveCostBasis(req).value.capexPerMw > 0.0 && ResolveCostBasis(req).value.omCostPerMwYear > 0.0
  {
    var items := req.costItems.value;
    assert forall i :: 0 <= i < |items| ==> items[i].amount > 0.0 by {
      forall i | 0 <= i < |items|
        ensures items[i].amount > 0.0
      {
        assert ValidItem(items[i]);
      }
    }
    CapexSumZeroIff(items);
    OpexSumZeroIff(items);
    if ResolveCostBasis(req).Ok? {
      var p := ResolveCostBasis(req).value;
      PositiveQuotient(p.capexPerMw, req.capacity, CapexSum(items));
      PositiveQuotient(p.omCostPerMwYear, req.capacity, OpexSum(items));
    }
  }

  lemma PositiveQuotient(q: real, d: real, a: real)
    requires d > 0.0 && a > 0.0 && q * d == a
    ensures q > 0.0
  {
  }

  /**
   * The three CapEx lines of 25M, 15M and 10M and O&M lines of 500k and
   * 250k give a total CapEx of 50M and a year-1 O&M cost of 750k.
   */
  lemma ItemisedExample()
    ensures var items := [
        CostLineItem("Solar panels", 25000000.0, true, None, None, None),
        CostLineItem("Inverters", 15000000.0, true, None, None, None),
        CostLineItem("BOS & Installation", 10000000.0, true, None, None, None),
        CostLineItem("Maintenance", 500000.0, false, None, None, None),
        CostLineItem("Insurance", 250000.0, false, None, None, None)];
      CapexSum(items) == 50000000.0 && OpexSum(items) == 750000.0
  {
    var a := CostLineItem("Solar panels", 25000000.0, true, None, None, None);
    var b := CostLineItem("Inverters", 15000000.0, true, None, None, None);
    var c := CostLineItem("BOS & Installation", 10000000.0, true, None, None, None);
    var d := CostLineItem("Maintenance", 500000.0, false, None, None, None);
    var e := CostLineItem("Insurance", 250000.0, false, None, None, None);
    assert [a, b, c, d, e][..4] == [a, b, c, d];
    assert [a, b, c, d][..3] == [a, b, c];
    assert [a, b, c][..2] == [a, b];
    assert [a, b][..1] == [a];
    assert [a][..0] == [];
    assert CapexSum([a]) == 25000000.0 && OpexSum([a]) == 0.0;
    assert CapexSum([a, b]) == 40000000.0 && OpexSum([a, b]) == 0.0;
    assert CapexSum([a, b, c]) == 50000000.0 && OpexSum([a, b, c]) == 0.0;
    assert CapexSum([a, b, c, d]) == 50000000.0 && OpexSum([a, b, c, d]) == 500000.0;
  }

  /**
   * A validated request that resolves gives the engine inputs for which the
   * debt can be sized and amortised, the cash flows can be discounted, and
   * the discounted energy is positive (so the LCOE is defined).
   */
  lemma ResolvedInputsWellFormed(req: CalculationRequest)
    requires Validated(req) && ResolveCostBasis(req).Ok?
    ensures var p := ResolveCostBasis(req).value;
      && CanAmortize(p) && CanDiscount(p)
      && Npv(p.discountRate, EnergyFlows(p)) > 0.0
  {
    var p := ResolveCostBasis(req).value;
    assert p == WithCosts(req, p.capexPerMw, p.omCostPerMwYear);
    PowAboveOne(1.0 + p.interestRate, p.debtTenor);
    NpvOfEnergyPositive(p);
  }
}
