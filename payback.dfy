/**
 * The payback searches of the engine (backend/calculator.py:299-348). Both
 * walk the years keeping a running total of a yearly flow and stop at the
 * first year that meets their condition, interpolating linearly inside that
 * year; both fall back to `None` or to the whole lifetime when no year does.
 *
 * - Project payback: the first year whose cumulative CFADS reaches the CapEx.
 * - Equity payback: the first year whose cumulative FCF to equity, seeded at
 *   0, crosses from negative to non-negative. Seeded at 0 the search never
 *   counts the equity paid in; `CalcEquityPaybackFromInvestment` seeds it at
 *   minus the equity, which is the payback measured from the investment.
 */
module Payback {
  import opened Primitives
  import opened Cashflows
  import opened DebtSizing

  /**
   * The part of a year's `flow` that closes `shortfall`; 0 for a zero flow,
   * where the source skips the division.
   */
  function Fraction(shortfall: real, flow: real): (r: real)
    ensures flow != 0.0 ==> r * flow == shortfall
    ensures flow == 0.0 ==> r == 0.0
  {
    if flow != 0.0 then Quotient(shortfall, flow) else 0.0
  }

  /** A shortfall in `(0, flow]` is closed by a fraction in `(0, 1]` of the flow. */
  lemma FractionInUnit(shortfall: real, flow: real)
    requires 0.0 < shortfall <= flow
    ensures 0.0 < Fraction(shortfall, flow) <= 1.0
  {
    UnitQuotient(shortfall, flow, Fraction(shortfall, flow));
  }

  lemma UnitQuotient(a: real, d: real, q: real)
    requires 0.0 < a <= d && q * d == a
    ensures 0.0 < q <= 1.0
  {
    if q > 1.0 {
      assert q * d > 1.0 * d;
    }
  }

  // ---------------------------------------------------------------------
  // Project payback: the running total reaches a target.
  // ---------------------------------------------------------------------

  /** The first year `k` in `from..|flows|` whose running total reaches `target`. */
  function FirstReach(target: real, flows: seq<real>, from: nat): (r: Option<nat>)
    requires from >= 1
    ensures r.Some? ==> from <= r.value <= |flows|
    decreases |flows| + 1 - from
  {
    if from > |flows| then None
    else if Sum(flows[..from]) >= target then Some(from)
    else FirstReach(target, flows, from + 1)
  }

  /** `FirstReach` finds the first such year, and reports `None` only when there is none. */
  lemma {:induction false} FirstReachIsFirst(target: real, flows: seq<real>, from: nat)
    requires from >= 1
    decreases |flows| + 1 - from
    ensures FirstReach(target, flows, from).Some? ==>
      Sum(flows[..FirstReach(target, flows, from).value]) >= target
    ensures forall j :: (from <= j <= |flows| && (FirstReach(target, flows, from).None?
              || j < FirstReach(target, flows, from).value)) ==> Sum(flows[..j]) < target
  {
    if from <= |flows| && Sum(flows[..from]) < target {
      FirstReachIsFirst(target, flows, from + 1);
    }
  }

  /**
   * The payback period of the project search: `year - 1` plus the part of
   * the first reaching year's flow still missing at its start; otherwise
   * `None` when the total stays below the target and the whole length when
   * it does not.
   */
  function RecoveryPeriod(target: real, flows: seq<real>): (r: Option<real>)
    ensures Sum(flows) >= target ==> r.Some?
  {
    match FirstReach(target, flows, 1)
    case Some(k) => Some((k - 1) as real + Fraction(target - Sum(flows[..k - 1]), flows[k - 1]))
    case None => if Sum(flows) < target then None else Some(|flows| as real)
  }

  /** `calc_Project_Payback_Period`: the CFADS recovering the CapEx. */
  method CalcProjectPaybackPeriod(p: ProjectInputs) returns (r: Option<real>)
    ensures r == RecoveryPeriod(TotalCapex(p), CfadsSeries(p, p.projectLifetime))
  {
    var totalCapex := TotalCapex(p);
    var cumulativeCfads := 0.0;
    var prevCumulative := 0.0;
    ghost var flows := CfadsSeries(p, p.projectLifetime);
    for year := 1 to p.projectLifetime + 1
      invariant cumulativeCfads == Sum(flows[..year - 1])
      invariant FirstReach(totalCapex, flows, year) == FirstReach(totalCapex, flows, 1)
    {
      var cfads := Cfads(p, year);
      CfadsSeriesAt(p, p.projectLifetime, year - 1);
      SumPrefixStep(flows, year - 1);
      prevCumulative := cumulativeCfads;
      cumulativeCfads := cumulativeCfads + cfads;
      if cumulativeCfads >= totalCapex {
        var fraction := if cfads != 0.0 then (totalCapex - prevCumulative) / cfads else 0.0;
        return Some((year - 1) as real + fraction);
      }
    }
    assert flows[..p.projectLifetime] == flows;
    r := if cumulativeCfads < totalCapex then None else Some(p.projectLifetime as real);
  }

  /** For a positive target the payback lies in `(k - 1, k]`, `k` the first year reaching the target. */
  lemma RecoveryWithinYear(target: real, flows: seq<real>)
    requires target > 0.0 && FirstReach(target, flows, 1).Some?
    ensures var k := FirstReach(target, flows, 1).value;
      && RecoveryPeriod(target, flows).Some?
      && (k - 1) as real < RecoveryPeriod(target, flows).value <= k as real
  {
    var k := FirstReach(target, flows, 1).value;
    FirstReachIsFirst(target, flows, 1);
    SumPrefixStep(flows, k - 1);
    assert Sum(flows[..k - 1]) < target by {
      if k == 1 {
        assert flows[..0] == [];
      }
    }
    FractionInUnit(target - Sum(flows[..k - 1]), flows[k - 1]);
  }

  /**
   * A positive target reached by the final running total gives a payback
   * within the horizon: in `(0, |flows|]`.
   */
  lemma RecoveryWithinHorizon(target: real, flows: seq<real>)
    requires target > 0.0 && Sum(flows) >= target
    ensures RecoveryPeriod(target, flows).Some?
    ensures 0.0 < RecoveryPeriod(target, flows).value <= |flows| as real
  {
    if FirstReach(target, flows, 1).Some? {
      RecoveryWithinYear(target, flows);
    }
  }

  /** The project payback ends within the lifetime when the lifetime's CFADS covers the CapEx. */
  lemma ProjectPaybackWithinLifetime(p: ProjectInputs)
    requires TotalCapex(p) > 0.0 && Sum(CfadsSeries(p, p.projectLifetime)) >= TotalCapex(p)
    ensures RecoveryPeriod(TotalCapex(p), CfadsSeries(p, p.projectLifetime)).Some?
    ensures 0.0 < RecoveryPeriod(TotalCapex(p), CfadsSeries(p, p.projectLifetime)).value <= p.projectLifetime as real
  {
    RecoveryWithinHorizon(TotalCapex(p), CfadsSeries(p, p.projectLifetime));
  }

  /** For a positive target there is a payback exactly when some year's running total reaches it. */
  lemma RecoveryDefinedIff(target: real, flows: seq<real>)
    requires target > 0.0
    ensures RecoveryPeriod(target, flows).Some?
      <==> exists j :: 1 <= j <= |flows| && Sum(flows[..j]) >= target
  {
    FirstReachIsFirst(target, flows, 1);
    if FirstReach(target, flows, 1).None? {
      assert flows[..|flows|] == flows;
      if flows == [] {
        assert Sum(flows) == 0.0;
      }
    }
  }

  // ---------------------------------------------------------------------
  // Equity payback: the running total, seeded, crosses from negative to
  // non-negative.
  // ---------------------------------------------------------------------

  /** The first year `k` in `from..|flows|` at which `seed` plus the running total turns non-negative from negative. */
  function FirstCrossing(seed: real, flows: seq<real>, from: nat): (r: Option<nat>)
    requires from >= 1
    ensures r.Some? ==> from <= r.value <= |flows|
    decreases |flows| + 1 - from
  {
    if from > |flows| then None
    else if seed + Sum(flows[..from - 1]) < 0.0 && seed + Sum(flows[..from]) >= 0.0 then Some(from)
    else FirstCrossing(seed, flows, from + 1)
  }

  /**
   * The payback period of the equity search with the running total seeded
   * at `seed`: `year - 1` plus the part of the crossing year's flow that
   * brings the total to zero; otherwise `None` when the final total is
   * negative and the whole length when it is not.
   */
  function CrossingPeriod(seed: real, flows: seq<real>): (r: Option<real>)
    ensures seed + Sum(flows) >= 0.0 ==> r.Some?
  {
    match FirstCrossing(seed, flows, 1)
    case Some(k) => Some((k - 1) as real + Fraction(-(seed + Sum(flows[..k - 1])), flows[k - 1]))
    case None => if seed + Sum(flows) < 0.0 then None else Some(|flows| as real)
  }

  /** `calc_Equity_Payback_Period`: the running FCF to equity, seeded at 0. */
  method CalcEquityPaybackPeriod(p: ProjectInputs) returns (r: Option<real>)
    requires FcfDefined(p, p.projectLifetime)
    ensures r == CrossingPeriod(0.0, FcfSeries(p, p.projectLifetime))
  {
    r := SeededEquityPayback(p, 0.0);
  }

  /** The equity payback measured from the equity paid in: the running total seeded at minus the equity. */
  method CalcEquityPaybackFromInvestment(p: ProjectInputs) returns (r: Option<real>)
    requires CanSizeDebt(p) && FcfDefined(p, p.projectLifetime)
    ensures r == CrossingPeriod(-Equity(p), FcfSeries(p, p.projectLifetime))
  {
    r := SeededEquityPayback(p, -Equity(p));
  }

  /** The loop of `calc_Equity_Payback_Period` with the running total starting at `seed`. */
  method SeededEquityPayback(p: ProjectInputs, seed: real) returns (r: Option<real>)
    requires FcfDefined(p, p.projectLifetime)
    ensures r == CrossingPeriod(seed, FcfSeries(p, p.projectLifetime))
  {
    var cumulativeFcf := seed;
    var prevCumulative := seed;
    ghost var flows := FcfSeries(p, p.projectLifetime);
    for year := 1 to p.projectLifetime + 1
      invariant cumulativeFcf == seed + Sum(flows[..year - 1])
      invariant FirstCrossing(seed, flows, year) == FirstCrossing(seed, flows, 1)
    {
      var fcf := Fcf(p, year);
      FcfSeriesAt(p, p.projectLifetime, year - 1);
      SumPrefixStep(flows, year - 1);
      prevCumulative := cumulativeFcf;
      cumulativeFcf := cumulativeFcf + fcf;
      if prevCumulative < 0.0 && cumulativeFcf >= 0.0 {
        var fraction := if fcf != 0.0 then -prevCumulative / fcf else 0.0;
        return Some((year - 1) as real + fraction);
      }
    }
    assert flows[..p.projectLifetime] == flows;
    r := if cumulativeFcf < 0.0 then None else Some(p.projectLifetime as real);
  }

  /** At a crossing in year `k` the payback lies in `(k - 1, k]`. */
  lemma CrossingWithinYear(seed: real, flows: seq<real>)
    requires FirstCrossing(seed, flows, 1).Some?
    ensures var k := FirstCrossing(seed, flows, 1).value;
      && CrossingPeriod(seed, flows).Some?
      && (k - 1) as real < CrossingPeriod(seed, flows).value <= k as real
  {
    var k := FirstCrossing(seed, flows, 1).value;
    FirstCrossingFound(seed, flows, 1);
    SumPrefixStep(flows, k - 1);
    FractionInUnit(-(seed + Sum(flows[..k - 1])), flows[k - 1]);
  }

  /**
   * A final running total that is not negative gives a payback within the
   * horizon: in `[0, |flows|]`.
   */
  lemma CrossingWithinHorizon(seed: real, flows: seq<real>)
    requires seed + Sum(flows) >= 0.0
    ensures CrossingPeriod(seed, flows).Some?
    ensures 0.0 <= CrossingPeriod(seed, flows).value <= |flows| as real
  {
    if FirstCrossing(seed, flows, 1).Some? {
      CrossingWithinYear(seed, flows);
    }
  }

  /**
   * The equity payback, as written and from the investment, is defined and
   * ends within the lifetime when the final cumulative FCF covers its seed;
   * over a lifetime of at least one year it is also positive.
   */
  lemma EquityPaybackWithinLifetime(p: ProjectInputs)
    requires CanSizeDebt(p) && FcfDefined(p, p.projectLifetime)
    requires Sum(FcfSeries(p, p.projectLifetime)) >= 0.0
    ensures CrossingPeriod(0.0, FcfSeries(p, p.projectLifetime)).Some?
    ensures CrossingPeriod(0.0, FcfSeries(p, p.projectLifetime)).value <= p.projectLifetime as real
    ensures p.projectLifetime >= 1 ==> 0.0 < CrossingPeriod(0.0, FcfSeries(p, p.projectLifetime)).value
    ensures -Equity(p) + Sum(FcfSeries(p, p.projectLifetime)) >= 0.0 ==>
      && CrossingPeriod(-Equity(p), FcfSeries(p, p.projectLifetime)).Some?
      && CrossingPeriod(-Equity(p), FcfSeries(p, p.projectLifetime)).value <= p.projectLifetime as real
      && (p.projectLifetime >= 1 ==> 0.0 < CrossingPeriod(-Equity(p), FcfSeries(p, p.projectLifetime)).value)
  {
    var flows := FcfSeries(p, p.projectLifetime);
    CrossingWithinHorizon(0.0, flows);
    if FirstCrossing(0.0, flows, 1).Some? {
      CrossingWithinYear(0.0, flows);
    }
    if -Equity(p) + Sum(flows) >= 0.0 {
      CrossingWithinHorizon(-Equity(p), flows);
      if FirstCrossing(-Equity(p), flows, 1).Some? {
        CrossingWithinYear(-Equity(p), flows);
      }
    }
  }

  lemma {:induction false} FirstCrossingFound(seed: real, flows: seq<real>, from: nat)
    requires from >= 1 && FirstCrossing(seed, flows, from).Some?
    decreases |flows| + 1 - from
    ensures var k := FirstCrossing(seed, flows, from).value;
      seed + Sum(flows[..k - 1]) < 0.0 && seed + Sum(flows[..k]) >= 0.0
  {
    if !(seed + Sum(flows[..from - 1]) < 0.0 && seed + Sum(flows[..from]) >= 0.0) {
      FirstCrossingFound(seed, flows, from + 1);
    }
  }

  /** No year before the one `FirstCrossing` finds is a crossing, and `None` means no year is. */
  lemma {:induction false} FirstCrossingIsFirst(seed: real, flows: seq<real>, from: nat)
    requires from >= 1
    decreases |flows| + 1 - from
    ensures forall j :: (from <= j <= |flows| && (FirstCrossing(seed, flows, from).None?
              || j < FirstCrossing(seed, flows, from).value))
              ==> !(seed + Sum(flows[..j - 1]) < 0.0 && seed + Sum(flows[..j]) >= 0.0)
  {
    if from <= |flows| && !(seed + Sum(flows[..from - 1]) < 0.0 && seed + Sum(flows[..from]) >= 0.0) {
      FirstCrossingIsFirst(seed, flows, from + 1);
    }
  }

  /**
   * Seeded at minus a positive investment, the crossing search is the
   * recovery search for that investment: the corrected equity payback is
   * the project payback's rule applied to equity.
   */
  lemma SeededCrossingIsRecovery(investment: real, flows: seq<real>)
    requires investment > 0.0
    ensures CrossingPeriod(-investment, flows) == RecoveryPeriod(investment, flows)
  {
    assert flows[..0] == [];
    CrossingMatchesReach(investment, flows, 1);
    match FirstReach(investment, flows, 1)
    case Some(k) =>
      assert -(-investment + Sum(flows[..k - 1])) == investment - Sum(flows[..k - 1]);
    case None =>
  }

  lemma {:induction false} CrossingMatchesReach(investment: real, flows: seq<real>, from: nat)
    requires 1 <= from <= |flows| + 1 && Sum(flows[..from - 1]) < investment
    decreases |flows| + 1 - from
    ensures FirstCrossing(-investment, flows, from) == FirstReach(investment, flows, from)
  {
    if from <= |flows| && Sum(flows[..from]) < investment {
      CrossingMatchesReach(investment, flows, from + 1);
    }
  }

  /** Running totals of non-negative flows are non-negative. */
  lemma {:induction false} PrefixSumNonNegative(flows: seq<real>, j: nat)
    requires j <= |flows|
    requires forall k :: 0 <= k < |flows| ==> flows[k] >= 0.0
    ensures Sum(flows[..j]) >= 0.0
  {
    if j > 0 {
      PrefixSumNonNegative(flows, j - 1);
      SumPrefixStep(flows, j - 1);
    }
  }

  lemma {:induction false} NoCrossingFrom(flows: seq<real>, from: nat)
    requires from >= 1
    requires forall k :: 0 <= k < |flows| ==> flows[k] >= 0.0
    decreases |flows| + 1 - from
    ensures FirstCrossing(0.0, flows, from).None?
  {
    if from <= |flows| {
      PrefixSumNonNegative(flows, from - 1);
      NoCrossingFrom(flows, from + 1);
    }
  }

  /**
   * Seeded at 0, non-negative flows never cross from negative, so the search
   * reports the whole length, whatever was invested.
   */
  lemma NonNegativeFlowsNeverCross(flows: seq<real>)
    requires forall k :: 0 <= k < |flows| ==> flows[k] >= 0.0
    ensures CrossingPeriod(0.0, flows) == Some(|flows| as real)
  {
    NoCrossingFrom(flows, 1);
    PrefixSumNonNegative(flows, |flows|);
    assert flows[..|flows|] == flows;
  }

  /**
   * Equity of 100 and an FCF of 60 in each of two years: seeded at 0 the
   * search reports 2 years; measured from the investment the payback is
   * 1 + 40/60 years.
   */
  lemma EquitySeedCounterexample()
    ensures CrossingPeriod(0.0, [60.0, 60.0]) == Some(2.0)
    ensures CrossingPeriod(-100.0, [60.0, 60.0]) == Some(5.0 / 3.0)
  {
    var flows := [60.0, 60.0];
    NonNegativeFlowsNeverCross(flows);
    assert flows[..0] == [] && flows[..1] == [60.0] && flows[..2] == flows;
    assert Sum([60.0]) == 60.0;
    assert Sum(flows) == 120.0;
    assert FirstCrossing(-100.0, flows, 2) == Some(2);
    assert FirstCrossing(-100.0, flows, 1) == Some(2);
    assert Fraction(40.0, 60.0) == 2.0 / 3.0;
  }

  /** The equity payback as the source computes it ignores the equity whenever every FCF is non-negative. */
  lemma EquityPaybackIgnoresEquity(p: ProjectInputs)
    requires FcfDefined(p, p.projectLifetime)
    requires forall year :: 1 <= year <= p.projectLifetime ==> Fcf(p, year) >= 0.0
    ensures CrossingPeriod(0.0, FcfSeries(p, p.projectLifetime)) == Some(p.projectLifetime as real)
  {
    var flows := FcfSeries(p, p.projectLifetime);
    forall k | 0 <= k < |flows|
      ensures flows[k] >= 0.0
    {
      FcfSeriesAt(p, p.projectLifetime, k);
    }
    NonNegativeFlowsNeverCross(flows);
  }

  /** The corrected equity payback lies in `(k - 1, k]` for the first year `k` that recovers the equity. */
  lemma EquityPaybackFromInvestmentWithinYear(p: ProjectInputs)
    requires CanSizeDebt(p) && FcfDefined(p, p.projectLifetime) && Equity(p) > 0.0
    requires FirstReach(Equity(p), FcfSeries(p, p.projectLifetime), 1).Some?
    ensures var k := FirstReach(Equity(p), FcfSeries(p, p.projectLifetime), 1).value;
      && CrossingPeriod(-Equity(p), FcfSeries(p, p.projectLifetime)).Some?
      && (k - 1) as real < CrossingPeriod(-Equity(p), FcfSeries(p, p.projectLifetime)).value <= k as real
  {
    SeededCrossingIsRecovery(Equity(p), FcfSeries(p, p.projectLifetime));
    RecoveryWithinYear(Equity(p), FcfSeries(p, p.projectLifetime));
  }
}
