# pvfinance: a verified model of the project-finance engine

This project models the financial engine of a utility-scale solar project
calculator. The engine starts from one immutable input record (capacity,
yield, CapEx and O&M per MW, PPA price, escalations, gearing, interest,
tenor, target DSCR, lifetime, tax and discount rate). It does the following:

- derives the yearly energy, revenue, O&M cost, EBITDA and cash flow
  available for debt service (CFADS);
- sizes the debt as the smaller of a DSCR limit and a gearing limit, and
  repays it by a level annuity;
- splits each year's CFADS between lenders and equity (FCF to equity);
- computes the discounted aggregates (NPV of costs, NPV of energy, LCOE,
  project NPV), the DSCR statistics, the two payback periods and the two
  IRRs (by Newton-Raphson);
- builds the year-by-year report table and the go/no-go assessment.

It also models how the calculation endpoint resolves the cost basis: either
itemised cost lines summed by kind, or the two per-MW figures.

Quantities are exact `real`s, and `x ** n` is a recursive power over `nat`.
Each computation that the source writes as an accumulating loop is a Dafny
method. The method is proved equal to a specification function: `Npv` of
the matching cash-flow list, a series function, or a first-year search.
The properties the source promises are then proved about those functions.
Expression-only code is a Dafny function.

Modules, one per file:

| file | module | what |
|---|---|---|
| primitives.dfy | `Primitives` | `Option`, power, sums, quotient, minimum, mean |
| finance.dfy | `FinanceFunctions` | `npv_calc`, `irr_calc`, `pmt_calc`, `pv_calc` |
| cashflows.dfy | `Cashflows` | `ProjectInputs`, the per-year series |
| debt.dfy | `DebtSizing` | PV of CFADS, debt limits, final debt, equity, binding constraint, debt service, FCF, DSCR |
| returns.dfy | `Returns` | NPV loops, LCOE, project and equity IRR |
| dscr.dfy | `DscrStats` | minimum and average DSCR |
| payback.dfy | `Payback` | project and equity payback |
| yearly.dfy | `YearlyReport` | `generate_yearly_data` |
| assessment.dfy | `Assessment` | `assess_project` |
| costbasis.dfy | `CostBasis` | the cost-basis block of `calculate_project` |

Two behaviours of the code are modelled as written:

- The equity payback search starts its running total of FCF to equity at 0
  (backend/calculator.py:305), so it never counts the equity paid in (see
  Findings).
- The itemised cost path rejects a CapEx or O&M total only when it equals 0
  (backend/main.py:144-147). Since every line amount is positive, a total is
  0 exactly when no line of that kind exists (`CostBasis.CapexSumZeroIff`,
  `CostBasis.OpexSumZeroIff`).

## Model

| member | source | states |
|---|---|---|
| FinanceFunctions.Npv | backend/calculator.py:12-14 | the NPV of no flows is 0, and a single flow (at time 0) is not discounted |
| FinanceFunctions.NpvSnoc | backend/calculator.py:12-14 | extending the cash-flow list by one value adds that value discounted by its index |
| FinanceFunctions.NpvAtZeroRate | backend/calculator.py:12-14 | at a zero rate the NPV is the plain sum of the values |
| FinanceFunctions.NpvScale | backend/calculator.py:12-14 | multiplying every value by `c` multiplies the NPV by `c` |
| FinanceFunctions.NpvNonNegative | backend/calculator.py:12-14 | non-negative values at a rate above -1 have a non-negative NPV |
| FinanceFunctions.NpvPositive | backend/calculator.py:12-14 | non-negative values with a positive last value have a positive NPV |
| FinanceFunctions.NpvDerivative | backend/calculator.py:22-23 | the flow at time 0 does not contribute: with at most one flow the derivative is 0 |
| FinanceFunctions.Newton | backend/calculator.py:25-35 | every exit other than exhausting the 100 steps happens at a step between the starting one and the 100th |
| FinanceFunctions.NewtonOutcome | backend/calculator.py:17-35 | a converged result has abs(NPV) below 1e-6; a stop on a flat derivative has abs(NPV') below 1e-10 and NPV not yet within tolerance; a division by zero needs at least one flow |
| FinanceFunctions.IrrCalc | backend/calculator.py:17-35 | the loop returns the outcome of the Newton iteration from the guess, with the converged and flat-derivative guarantees |
| FinanceFunctions.Pmt | backend/calculator.py:38-43 | at rate 0 the payment times `nper` is -(pv + fv); otherwise the payment solves the annuity equation |
| FinanceFunctions.PresentValue | backend/calculator.py:46-51 | at rate 0 the value is -(pmt * nper + fv); otherwise it solves the annuity equation for the present value |
| FinanceFunctions.LoanBalanceClosedForm | backend/calculator.py:38-43 | the balance after `k` payments has the closed form used by the annuity |
| FinanceFunctions.LoanBalanceAtZeroRate | backend/calculator.py:38-41 | without interest the balance falls by the payment each period |
| FinanceFunctions.AnnuityAmortizes | backend/calculator.py:38-43 | paying `pmt_calc` for `nper` periods leaves exactly `-fv` owed |
| FinanceFunctions.AnnuityRoundTrip | backend/calculator.py:38-51 | `pv_calc(r, n, pmt_calc(r, n, pv, fv), fv) == pv` |
| Cashflows.TotalCapex | backend/calculator.py:100-102 | the total CapEx divided by the capacity gives back the CapEx per MW |
| Cashflows.CapacityFactor | backend/calculator.py:96-98 | the factor times capacity times 8760 hours is the yield |
| Cashflows.Energy | backend/calculator.py:104-106 | year 1 produces the P50 yield; with a positive yield and degradation below 1 every year's energy is positive |
| Cashflows.Revenue | backend/calculator.py:108-111 | year 1's revenue is the P50 yield sold at the base PPA price |
| Cashflows.OmCost | backend/calculator.py:113-119 | year 1's O&M cost is the capacity times the O&M cost per MW |
| Cashflows.Ebitda | backend/calculator.py:121-125 | EBITDA is non-negative exactly when revenue covers the O&M cost |
| Cashflows.Cfads | backend/calculator.py:127-130 | without tax CFADS is EBITDA; with a tax rate in [0, 1] a non-negative EBITDA keeps a CFADS between 0 and the EBITDA |
| Cashflows.EnergyYearOverYear | backend/calculator.py:104-106 | each year's energy is the previous year's times (1 - degradation) |
| Cashflows.EnergyCompounds | backend/calculator.py:104-106 | energy `k` years later is this year's times (1 - degradation)^k |
| Cashflows.EnergyStrictlyDecreasing | backend/calculator.py:104-106 | with 0 < degradation < 1 and a positive yield, energy is positive and strictly decreasing |
| Cashflows.RevenueYearOverYear | backend/calculator.py:108-111 | each year's revenue is the previous year's times (1 - degradation)(1 + PPA escalation) |
| Cashflows.OmYearOverYear | backend/calculator.py:113-119 | each year's O&M cost is the previous year's times (1 + O&M escalation) |
| Cashflows.OmCompounds | backend/calculator.py:113-119 | the O&M cost `k` years later is this year's times (1 + escalation)^k |
| Cashflows.ReferenceFirstYear | backend/main.py:236-243 | the default scenario's CapEx, and its year-1 energy, revenue, O&M, EBITDA and CFADS |
| Cashflows.EnergySeriesAt | backend/calculator.py:195-204 | entry `k` of the energy list is the energy of year `k + 1` |
| Cashflows.OmSeriesAt | backend/calculator.py:183-193 | entry `k` of the O&M list is the O&M cost of year `k + 1` |
| Cashflows.CfadsSeriesAt | backend/calculator.py:132-139 | entry `k` of the CFADS list is the CFADS of year `k + 1` |
| DebtSizing.CalcPvOfCfads | backend/calculator.py:132-139 | the loop equals `npv(interest, [0, CFADS_1 .. CFADS_tenor])` |
| DebtSizing.MaxDebtByDscr | backend/calculator.py:141-144 | the DSCR limit times the target DSCR is the PV of the tenor CFADS |
| DebtSizing.MaxDebtByGearing | backend/calculator.py:146-149 | with a gearing ratio in [0, 1] the gearing limit lies between 0 and the total CapEx |
| DebtSizing.FinalDebt | backend/calculator.py:151-155 | the final debt is one of the two limits and at most both |
| DebtSizing.Equity | backend/calculator.py:157-161 | equity plus final debt is the total CapEx; equity is at least CapEx less the gearing limit |
| DebtSizing.EquityAtLeastUngearedShare | backend/calculator.py:146-161 | equity is at least CapEx times (1 - gearing) |
| DebtSizing.BindingConstraint | backend/calculator.py:365 | DSCR binds exactly when its limit is strictly below the gearing limit, so a tie reports gearing; the final debt is the binding limit |
| DebtSizing.AnnualDebtService | backend/calculator.py:163-171 | no debt means no debt service; its meaning is stated by `DebtServiceRetiresDebt` |
| DebtSizing.ZeroInterestDebtService | backend/calculator.py:163-171 | without interest the debt service times the tenor is the final debt |
| DebtSizing.DebtServiceRetiresDebt | backend/calculator.py:163-171 | paying the debt service for the tenor leaves nothing owed |
| DebtSizing.DebtServiceRoundTrip | backend/calculator.py:163-171 | the present value of the debt-service annuity is the final debt |
| DebtSizing.DebtServicePositive | backend/calculator.py:163-171 | with positive interest, tenor and debt the debt service is positive |
| DebtSizing.Fcf | backend/calculator.py:173-181 | inside the tenor FCF plus debt service is the CFADS; after it FCF is the CFADS |
| DebtSizing.FcfSeriesAt | backend/calculator.py:173-181 | entry `k` of the FCF list is the FCF of year `k + 1` |
| DebtSizing.FcfSeriesLessDebtService | backend/calculator.py:173-181 | the FCF list is the CFADS list with the debt service taken off each tenor year |
| DebtSizing.SumLessLeading | backend/calculator.py:173-181 | taking the debt service off the first `m` of `n` years takes min(n, m) times it off the total |
| DebtSizing.Dscr | backend/calculator.py:206-217 | `None` exactly after the tenor or for a zero debt service; otherwise the DSCR times the debt service is the CFADS |
| Returns.CalcNpvOfCosts | backend/calculator.py:183-193 | the loop equals `npv(discount, [CapEx, O&M_1 .. O&M_N])` |
| Returns.CalcNpvOfEnergy | backend/calculator.py:195-204 | the loop equals `npv(discount, [0, E_1 .. E_N])` |
| Returns.CalcProjectNpv | backend/calculator.py:285-297 | the loop equals `npv(discount, [-CapEx, CFADS_1 .. CFADS_N])` |
| Returns.Lcoe | backend/calculator.py:259-263 | the LCOE times the NPV of energy is the NPV of costs |
| Returns.LcoeBreakEven | backend/calculator.py:259-263 | selling every MWh at the LCOE gives revenue with the same NPV as the costs |
| Returns.PricedBreakEven | backend/calculator.py:259-263 | a price that equates the discounted energy times price with the discounted costs prices the energy series at the cost NPV |
| Returns.NpvOfEnergyPositive | backend/calculator.py:195-204 | with a positive yield, degradation below 1 and a discount rate above -1, the NPV of energy is positive, so the LCOE is defined |
| Returns.CalcProjectIrr | backend/calculator.py:223-239 | runs `irr_calc` on [-CapEx, CFADS_1 .. CFADS_N]; a converged rate has abs(NPV) below 1e-6 |
| Returns.CalcEquityIrr | backend/calculator.py:241-257 | runs `irr_calc` on [-equity, FCF_1 .. FCF_N]; a converged rate has abs(NPV) below 1e-6 |
| DscrStats.DefinedDscrsAllOrNothing | backend/calculator.py:265-273 | every tenor year contributes a DSCR, or none does when the debt service is zero |
| DscrStats.DefinedDscrsAt | backend/calculator.py:265-273 | with a non-zero debt service, entry `k` of the collected DSCRs is the DSCR of year `k + 1` |
| DscrStats.CollectDscrValues | backend/calculator.py:267-272 | the loop collects the defined DSCRs of the tenor years in order |
| DscrStats.MinimumDscr | backend/calculator.py:265-273 | `None` exactly when no DSCR is defined; otherwise one of the defined DSCRs and at most each of them |
| DscrStats.AverageDscr | backend/calculator.py:275-283 | `None` exactly when no DSCR is defined; otherwise the average times their count is their sum |
| DscrStats.CalcMinimumDscr | backend/calculator.py:265-273 | the loop returns the minimum of the defined DSCRs, `None` when there are none |
| DscrStats.CalcAverageDscr | backend/calculator.py:275-283 | the loop returns the mean of the defined DSCRs, `None` when there are none |
| DscrStats.DscrStatsDefined | backend/calculator.py:265-283 | both statistics are `None` exactly when there is no tenor or the debt service is zero |
| DscrStats.MinimumDscrIsLeast | backend/calculator.py:265-273 | the minimum is at most the DSCR of every tenor year |
| DscrStats.MinimumDscrAttained | backend/calculator.py:265-273 | the minimum is the DSCR of some tenor year |
| DscrStats.MinimumDscrAtMostAverage | backend/calculator.py:265-283 | the minimum DSCR never exceeds the average DSCR |
| DscrStats.AverageDscrIsMeanCoverage | backend/calculator.py:275-283 | the average is the mean, over every tenor year, of CFADS divided by the debt service |
| DscrStats.DefinedDscrsAreRatios | backend/calculator.py:265-272 | with a non-zero debt service the collected DSCRs are the tenor CFADS divided by it |
| Payback.Fraction | backend/calculator.py:343 | a non-zero flow times the fraction is the shortfall; a zero flow gives 0 |
| Payback.FractionInUnit | backend/calculator.py:340-345 | a shortfall in (0, flow] gives a fraction in (0, 1] |
| Payback.FirstReachIsFirst | backend/calculator.py:334-345 | the year found reaches the target and no earlier year does; `None` means no year does |
| Payback.RecoveryPeriod | backend/calculator.py:324-348 | a final running total at or above the target always gives a payback |
| Payback.CalcProjectPaybackPeriod | backend/calculator.py:324-348 | the loop returns the recovery period of the CapEx over the CFADS list |
| Payback.RecoveryWithinYear | backend/calculator.py:337-345 | for a positive CapEx the payback lies in (k - 1, k], where `k` is the first year whose cumulative CFADS reaches the CapEx |
| Payback.RecoveryWithinHorizon | backend/calculator.py:324-348 | for a positive target reached by the final running total, the payback lies in (0, number of years] |
| Payback.ProjectPaybackWithinLifetime | backend/test_calculator.py:313-325 | when the lifetime's CFADS covers a positive CapEx, the project payback is defined and lies in (0, lifetime] |
| Payback.RecoveryDefinedIff | backend/calculator.py:324-348 | for a positive CapEx the payback is defined exactly when some cumulative CFADS reaches the CapEx |
| Payback.FirstCrossingFound | backend/calculator.py:308-314 | at the year found the running total turns from negative to non-negative |
| Payback.FirstCrossingIsFirst | backend/calculator.py:308-319 | no year before the one found is a crossing, and no crossing is found only when no year is one |
| Payback.CrossingPeriod | backend/calculator.py:299-322 | a non-negative final running total always gives a payback |
| Payback.SeededEquityPayback | backend/calculator.py:305-322 | the loop, seeded at any value, returns the crossing period of that seed over the FCF list |
| Payback.CalcEquityPaybackPeriod | backend/calculator.py:299-322 | the source's loop (seed 0) returns the crossing period of seed 0 over the FCF list |
| Payback.CalcEquityPaybackFromInvestment | backend/calculator.py:299-322 | the corrected loop (seed minus the equity) returns the crossing period of that seed |
| Payback.CrossingWithinYear | backend/calculator.py:314-319 | at a crossing in year `k` the payback lies in (k - 1, k] |
| Payback.CrossingWithinHorizon | backend/calculator.py:299-322 | a non-negative final running total gives a payback in [0, number of years] |
| Payback.EquityPaybackWithinLifetime | backend/test_calculator.py:289-300 | a final cumulative FCF that covers the seed gives an equity payback that is defined, at most the lifetime, and positive over a lifetime of at least one year, for the source's seed and for the seed at minus the equity |
| Payback.SeededCrossingIsRecovery | backend/calculator.py:299-348 | seeded at minus a positive investment, the equity search is the project search with that investment as target |
| Payback.NonNegativeFlowsNeverCross | backend/calculator.py:305-322 | seeded at 0, non-negative flows never cross, and the payback is the whole lifetime |
| Payback.EquitySeedCounterexample | backend/calculator.py:305-322 | equity 100 and FCF [60, 60]: seed 0 gives 2 years; measured from the investment, 5/3 years |
| Payback.EquityPaybackIgnoresEquity | backend/calculator.py:305-322 | as written, whenever every FCF is non-negative the equity payback is the lifetime, whatever the equity |
| Payback.EquityPaybackFromInvestmentWithinYear | backend/calculator.py:299-322 | the corrected payback lies in (k - 1, k], where `k` is the first year whose cumulative FCF recovers the equity |
| YearlyReport.DebtServiceEntry | backend/calculator.py:459-466 | the report's debt service entry and the year's FCF to equity (`calc_FCF_to_Equity_year_t`, backend/calculator.py:173-181) add up to the year's CFADS, inside the tenor and after it |
| YearlyReport.DscrEntry | backend/calculator.py:459-466 | absent exactly after the tenor |
| YearlyReport.YearsAt | backend/calculator.py:427 | `years` is [1 .. lifetime] |
| YearlyReport.RunningTotalsAt | backend/calculator.py:468-470 | entry `k` of the running totals is the sum of the first `k + 1` values |
| YearlyReport.YearlyTableStep | backend/calculator.py:443-470 | the table of `n` years is the table of `n - 1` years with year `n`'s row appended |
| YearlyReport.GenerateYearlyData | backend/calculator.py:425-483 | the loop builds exactly the table of the lifetime |
| YearlyReport.AppendYearRow | backend/calculator.py:444-470 | one pass appends year `t`'s metrics to every column and carries the cumulative FCF |
| YearlyReport.YearlyTableShape | backend/calculator.py:425-483 | every column has one entry per year |
| YearlyReport.YearlyTableRow | backend/calculator.py:443-470 | row `k` holds the figures of year `k + 1`: EBITDA is revenue less O&M, FCF plus debt service is CFADS, and the cumulative FCF is the prefix sum of the FCF |
| YearlyReport.DebtServiceColumn | backend/calculator.py:459-466 | the debt service column is the annual debt service inside the tenor and 0 after it |
| YearlyReport.DscrColumn | backend/calculator.py:459-466 | the DSCR column holds CFADS over debt service inside the tenor, 0 there when the debt service is zero, and nothing after the tenor |
| Assessment.Rate | backend/calculator.py:876-898 | rated good exactly at or above the good threshold, and poor exactly below the marginal one |
| Assessment.Overall | backend/calculator.py:900-906 | recommend exactly when all three are good; do not proceed exactly when one is poor |
| Assessment.Assess | backend/calculator.py:872-908 | with no minimum DSCR the comparison fails (no result); otherwise the three ratings with their overall verdict |
| Assessment.RecommendIffAllGood | backend/calculator.py:876-902 | recommended exactly when project IRR >= 8 %, equity IRR >= 12 % and minimum DSCR >= 1.30 |
| Assessment.DoNotProceedIffSomeBelowMarginal | backend/calculator.py:876-906 | rejected exactly when project IRR < 6 %, equity IRR < 9 % or minimum DSCR < 1.20 |
| Assessment.RateMonotone | backend/calculator.py:876-898 | a higher value never gets a worse rating |
| Assessment.OverallMonotone | backend/calculator.py:900-906 | better ratings never give a worse verdict |
| Assessment.AssessMonotone | backend/calculator.py:872-908 | improving any metric never worsens the verdict |
| Assessment.UngearedProjectNotAssessed | backend/calculator.py:893 | with a gearing ratio of 0 and a non-negative DSCR limit, the final debt and debt service are 0, no minimum DSCR exists, and the assessment has no result |
| CostBasis.Validated | backend/main.py:46-90 | the field constraints the request model enforces on the request and on each cost line (its consequences for the engine are stated by `ResolvedInputsWellFormed`) |
| CostBasis.WithCosts | backend/main.py:165-181 | the engine inputs carry the given per-MW CapEx and O&M cost |
| CostBasis.ResolveCostBasis | backend/main.py:137-181 | itemised: capacity times each per-MW figure is the matching total; scalar: the two figures are passed through |
| CostBasis.ResolveCostBasisErrors | backend/main.py:138-162 | the CapEx error comes before the O&M error on the itemised path; the missing-costs error on the scalar path; these are the only failures |
| CostBasis.ResolvePassesThrough | backend/main.py:154-181 | every field other than the cost basis reaches the engine unchanged |
| CostBasis.ItemisedTotalCapex | backend/main.py:150 | on the itemised path the engine's total CapEx is the sum of the CapEx lines |
| CostBasis.CapexSum | backend/main.py:140 | when every line is CapEx the CapEx total is the total of all amounts |
| CostBasis.OpexSum | backend/main.py:141 | when every line is O&M the O&M total is the total of all amounts |
| CostBasis.SumsPartition | backend/main.py:140-141 | each line counts towards exactly one of the two totals |
| CostBasis.CapexSumZeroIff | backend/main.py:140-145 | with positive amounts the CapEx total is zero exactly when no line is CapEx |
| CostBasis.OpexSumZeroIff | backend/main.py:141-147 | with positive amounts the O&M total is zero exactly when every line is CapEx |
| CostBasis.ItemisedOutcome | backend/main.py:138-151 | for a validated request the itemised path fails exactly when one kind of line is missing, and otherwise gives positive per-MW figures |
| CostBasis.ItemisedExample | backend/test_api.py:249-250 | lines of 25M, 15M and 10M CapEx and 500k and 250k O&M total 50M and 750k |
| CostBasis.ResolvedInputsWellFormed | backend/main.py:59-90 | a validated request that resolves gives inputs whose debt can be sized and amortised and whose discounted energy is positive |

## Left out

- FastAPI plumbing (the app, CORS, the other endpoints, the HTTP error mapping), PDF export, the audit log and the example script: these are I/O and formatting around the engine's numbers.
- `generate_summary_report` is not modelled as a whole. It assembles results that are modelled one by one; its binding-constraint choice is `DebtSizing.BindingConstraint`.
- Floating-point rounding: every quantity is an exact real. The `== 0` tests of the source are therefore exact tests.
- Python raises `ZeroDivisionError` when the engine divides by zero. The model does not reproduce the exception; it excludes these inputs by preconditions instead: `CanSizeDebt`, `CanAmortize`, `CanDiscount`, `FcfDefined`, and a non-zero NPV of energy for `Returns.Lcoe`. `CostBasis.ResolvedInputsWellFormed` shows that every validated request meets them. Inside `irr_calc`, an iterate can land on -1; the model reports this as the `ZeroDivision` outcome instead of raising.
- Convergence of the Newton iteration, and the ordering of equity and project IRR, depend on the particular numbers and are not claimed.
- YearlyReport.GenerateYearlyData: the table is stated column by column through per-row lemmas. The identity "last cumulative FCF = lifetime CFADS less the debt service paid" is proved only on sequences (`DebtSizing.SumLessLeading`), not for the table itself.
- DscrStats.AverageDscrIsMeanCoverage: it states the average as the mean of the per-year ratios. The closed form "sum of the tenor CFADS / (tenor * debt service)" is not stated.
- A gearing ratio of 0 (`Assessment.UngearedProjectNotAssessed`): the request model accepts it (backend/main.py:80). Such a request reaches the `None` minimum DSCR, and backend/main.py:226-227 reports the resulting `TypeError` as a calculation error. What the assessment should say for a project without debt is not evident from the code, so the model records the failure and proposes no corrected rating.
- Assessment.Assess: when no minimum DSCR exists, the source raises `TypeError`; the model returns `None` and does not model the exception.
- Cashflows: `debtTenor` and `projectLifetime` are `nat`. The engine's own input record accepts any integer; only the request model requires both to be positive (backend/main.py:82, 86). Negative tenors and lifetimes, for which the source's loops run zero times, are not modelled.
- CostBasis: `unit_price`, `quantity` and `escalation_rate` of a cost line are carried but unused, as in the source. Names are plain strings, and the 100-character bound is counted in characters.

## Findings

| source | as written | input that shows it | evidently intended | confidence | as-written member | corrected member |
|---|---|---|---|---|---|---|
| backend/calculator.py:305-322 | the equity payback search starts its cumulative FCF at 0. When no year's FCF is negative, it never sees a crossing and returns the whole lifetime, however much equity was paid in | equity 100, FCF to equity [60, 60] gives 2 years | seed the running total at minus the equity. An equity payback is the time to recover the equity invested, just as the project payback (backend/calculator.py:324-348) measures the time for cumulative CFADS to recover the CapEx; here it gives 1 + 40/60 = 5/3 years | not executed | Payback.CalcEquityPaybackPeriod, Payback.EquitySeedCounterexample, Payback.EquityPaybackIgnoresEquity | Payback.CalcEquityPaybackFromInvestment, Payback.SeededCrossingIsRecovery, Payback.EquityPaybackFromInvestmentWithinYear |
