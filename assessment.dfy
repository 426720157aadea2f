/**
 * The go/no-go assessment of the summary report
 * (backend/calculator.py:872-908): each of project IRR, equity IRR and
 * minimum DSCR is rated against a "good" and a "marginal" threshold, and
 * the overall verdict recommends the project only when all three are good
 * and rejects it as soon as one is poor.
 */
module Assessment {
  import opened Primitives
  import opened Cashflows
  import opened DebtSizing
  import opened DscrStats

  datatype Rating = Good | Marginal | Poor

  datatype Verdict = Recommend | Review | DoNotProceed

  /** The ratings of the three metrics and the overall verdict. */
  datatype Report = Report(projectIrr: Rating, equityIrr: Rating, dscr: Rating, overall: Verdict)

  const ProjectIrrGood: real := 0.08
  const ProjectIrrMarginal: real := 0.06
  const EquityIrrGood: real := 0.12
  const EquityIrrMarginal: real := 0.09
  const DscrGood: real := 1.30
  const DscrMarginal: real := 1.20

  /** Good from `good` up, marginal from `marginal` up, poor below. */
  function Rate(value: real, good: real, marginal: real): (r: Rating)
    requires marginal <= good
    ensures r == Good <==> value >= good
    ensures r == Poor <==> value < marginal
  {
    if value >= good then Good
    else if value >= marginal then Marginal
    else Poor
  }

  /** The overall rule: all good recommends, none poor asks for review, otherwise do not proceed. */
  function Overall(a: Rating, b: Rating, c: Rating): (v: Verdict)
    ensures v == Recommend <==> a == Good && b == Good && c == Good
    ensures v == DoNotProceed <==> a == Poor || b == Poor || c == Poor
  {
    if a == Good && b == Good && c == Good then Recommend
    else if a != Poor && b != Poor && c != Poor then Review
    else DoNotProceed
  }

  /**
   * `assess_project`. The source compares the minimum DSCR with numbers;
   * when it is `None` (no DSCR defined) the comparison raises, which is the
   * `None` result here.
   */
  function Assess(projectIrr: real, equityIrr: real, minDscr: Option<real>): (r: Option<Report>)
    ensures r.None? <==> minDscr.None?
    ensures r.Some? ==> r.value.overall == Overall(r.value.projectIrr, r.value.equityIrr, r.value.dscr)
  {
    match minDscr
    case None => None
    case Some(dscr) =>
      var a := Rate(projectIrr, ProjectIrrGood, ProjectIrrMarginal);
      var b := Rate(equityIrr, EquityIrrGood, EquityIrrMarginal);
      var c := Rate(dscr, DscrGood, DscrMarginal);
      Some(Report(a, b, c, Overall(a, b, c)))
  }

  /** The project is recommended exactly when every metric reaches its "good" threshold. */
  lemma RecommendIffAllGood(projectIrr: real, equityIrr: real, minDscr: real)
    ensures Assess(projectIrr, equityIrr, Some(minDscr)).value.overall == Recommend
      <==> projectIrr >= 0.08 && equityIrr >= 0.12 && minDscr >= 1.30
  {
  }

  /** The project is rejected exactly when some metric falls below its "marginal" threshold. */
  lemma DoNotProceedIffSomeBelowMarginal(projectIrr: real, equityIrr: real, minDscr: real)
    ensures Assess(projectIrr, equityIrr, Some(minDscr)).value.overall == DoNotProceed
      <==> projectIrr < 0.06 || equityIrr < 0.09 || minDscr < 1.20
  {
  }

  /** Ratings ordered from poor (0) to good (2). */
  function Rank(r: Rating): nat
  {
    match r
    case Poor => 0
    case Marginal => 1
    case Good => 2
  }

  /** Verdicts ordered from do-not-proceed (0) to recommend (2). */
  function VerdictRank(v: Verdict): nat
  {
    match v
    case DoNotProceed => 0
    case Review => 1
    case Recommend => 2
  }

  /** A higher value never gets a worse rating. */
  lemma RateMonotone(v: real, w: real, good: real, marginal: real)
    requires marginal <= good && v <= w
    ensures Rank(Rate(v, good, marginal)) <= Rank(Rate(w, good, marginal))
  {
  }

  /** Better ratings never give a worse verdict. */
  lemma OverallMonotone(a: Rating, b: Rating, c: Rating, a': Rating, b': Rating, c': Rating)
    requires Rank(a) <= Rank(a') && Rank(b) <= Rank(b') && Rank(c) <= Rank(c')
    ensures VerdictRank(Overall(a, b, c)) <= VerdictRank(Overall(a', b', c'))
  {
  }

  /** Improving any of the three metrics never worsens the verdict. */
  lemma AssessMonotone(pIrr: real, eIrr: real, dscr: real, pIrr': real, eIrr': real, dscr': real)
    requires pIrr <= pIrr' && eIrr <= eIrr' && dscr <= dscr'
    ensures VerdictRank(Assess(pIrr, eIrr, Some(dscr)).value.overall)
      <= VerdictRank(Assess(pIrr', eIrr', Some(dscr')).value.overall)
  {
    RateMonotone(pIrr, pIrr', ProjectIrrGood, ProjectIrrMarginal);
    RateMonotone(eIrr, eIrr', EquityIrrGood, EquityIrrMarginal);
    RateMonotone(dscr, dscr', DscrGood, DscrMarginal);
    OverallMonotone(
      Rate(pIrr, ProjectIrrGood, ProjectIrrMarginal), Rate(eIrr, EquityIrrGood, EquityIrrMarginal),
      Rate(dscr, DscrGood, DscrMarginal),
      Rate(pIrr', ProjectIrrGood, ProjectIrrMarginal), Rate(eIrr', EquityIrrGood, EquityIrrMarginal),
      Rate(dscr', DscrGood, DscrMarginal));
  }

  /**
   * Without gearing, and with a DSCR limit that is not negative, the final
   * debt and so the debt service are 0: no DSCR is defined, and the
   * assessment has no minimum DSCR to rate.
   */
  lemma UngearedProjectNotAssessed(p: ProjectInputs, projectIrr: real, equityIrr: real)
    requires CanAmortize(p) && p.gearingRatio == 0.0 && MaxDebtByDscr(p) >= 0.0
    ensures FinalDebt(p) == 0.0 && AnnualDebtService(p) == 0.0
    ensures MinimumDscr(p).None?
    ensures Assess(projectIrr, equityIrr, MinimumDscr(p)).None?
  {
    assert MaxDebtByGearing(p) == 0.0;
    DscrStatsDefined(p);
  }
}
