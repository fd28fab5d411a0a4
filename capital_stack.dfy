/** Sources of funds: LIHTC equity, the soft subsidy, a permanent loan capped
    at 75% of cost, and whatever equity is still needed. */
module CapitalStack {
  import opened Inputs

  /** The four-entry result: "LIHTC Equity", "Soft Subsidy", "Loan", "Equity". */
  datatype CapitalStackResult = CapitalStackResult(
    lihtcEquity: real,
    softSubsidy: real,
    loan: real,
    equity: real)

  /** Loan-to-value rule of thumb: the loan is at most 75% of total cost. */
  const LtvCap: real := 0.75

  /** What cost remains after LIHTC equity and the soft subsidy. */
  function Gap(inputs: ProjectInputs, lihtcEquity: real): (r: real)
    ensures lihtcEquity + inputs.softSubsidy + r == inputs.totalDevelopmentCost
    ensures r < 0.0 <==> lihtcEquity + inputs.softSubsidy > inputs.totalDevelopmentCost
  {
    inputs.totalDevelopmentCost - (lihtcEquity + inputs.softSubsidy)
  }

  /** The sum of all four sources. */
  function TotalSources(c: CapitalStackResult): real {
    c.lihtcEquity + c.softSubsidy + c.loan + c.equity
  }

  /** The loan is the smaller of the gap and the LTV cap; equity is what the
      three other sources leave uncovered, so the sources meet cost exactly. */
  function BuildCapitalStack(inputs: ProjectInputs, lihtcEquity: real): (r: CapitalStackResult)
    ensures r.lihtcEquity == lihtcEquity && r.softSubsidy == inputs.softSubsidy
    ensures r.loan <= Gap(inputs, lihtcEquity)
    ensures r.loan <= LtvCap * inputs.totalDevelopmentCost
    ensures r.loan == Gap(inputs, lihtcEquity) || r.loan == LtvCap * inputs.totalDevelopmentCost
    ensures TotalSources(r) == inputs.totalDevelopmentCost
    ensures r.equity == Gap(inputs, lihtcEquity) - r.loan && r.equity >= 0.0
  {
    var tdc := inputs.totalDevelopmentCost;
    var gap := Gap(inputs, lihtcEquity);
    var cap := LtvCap * tdc;
    var loan := if gap <= cap then gap else cap;
    var equity := tdc - (lihtcEquity + inputs.softSubsidy + loan);
    CapitalStackResult(lihtcEquity, inputs.softSubsidy, loan, equity)
  }

  /** The two regimes: a gap within the cap is all debt and needs no equity;
      a larger gap borrows exactly the cap and the excess is equity. */
  lemma CapitalStackCases(inputs: ProjectInputs, lihtcEquity: real)
    ensures var r := BuildCapitalStack(inputs, lihtcEquity);
            var gap, cap := Gap(inputs, lihtcEquity), LtvCap * inputs.totalDevelopmentCost;
            (gap <= cap ==> r.loan == gap && r.equity == 0.0) &&
            (gap > cap ==> r.loan == cap && r.equity == gap - cap && r.equity > 0.0)
  {
  }

  /** There is no clamp: when LIHTC equity and subsidy exceed cost, the
      "loan" is negative. */
  lemma OverfundedLoanIsNegative(inputs: ProjectInputs, lihtcEquity: real)
    requires lihtcEquity + inputs.softSubsidy > inputs.totalDevelopmentCost
    ensures BuildCapitalStack(inputs, lihtcEquity).loan < 0.0
  {
  }

  /** Only total development cost and the soft subsidy are read from the inputs. */
  lemma CapitalStackReadsCostAndSubsidy(a: ProjectInputs, b: ProjectInputs, lihtcEquity: real)
    requires a.totalDevelopmentCost == b.totalDevelopmentCost && a.softSubsidy == b.softSubsidy
    ensures BuildCapitalStack(a, lihtcEquity) == BuildCapitalStack(b, lihtcEquity)
  {
  }
}
