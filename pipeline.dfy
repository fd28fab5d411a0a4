/** The command-line run: equity, capital stack, interest-only debt service,
    cash flows, IRR and DSCR for one input record. */
module Pipeline {
  import opened Rounding
  import opened Inputs
  import opened LihtcCalculator
  import opened CapitalStack
  import opened CashflowModel
  import opened Utils

  /** The one way a run fails: the DSCR divides by zero debt service. */
  datatype Error = ZeroDivisionError

  datatype Result<T> = Ok(value: T) | Err(error: Error)

  datatype RunResult = RunResult(
    lihtcEquity: real,
    capital: CapitalStackResult,
    debtService: real,
    cashFlows: seq<real>,
    irr: real,
    dscr: real)

  /** Interest-only debt service: loan times the permanent loan rate. */
  function DebtService(capital: CapitalStackResult, inputs: ProjectInputs): (r: real)
    ensures r == 0.0 <==> capital.loan == 0.0 || inputs.permanentLoanRate == 0.0
    ensures capital.loan >= 0.0 && inputs.permanentLoanRate >= 0.0 ==> r >= 0.0
  {
    capital.loan * inputs.permanentLoanRate
  }

  /** The pipeline. Equity takes the default term and pricing; cash flows take
      the default ten-year hold; the IRR invests the stack's residual equity. */
  function Run(inputs: ProjectInputs, solver: seq<real> -> real): (r: Result<RunResult>)
    ensures var equity := LihtcEquity(inputs.eligibleBasis, inputs.applicableFraction, inputs.creditRate, 10.0, 0.90);
            var capital := BuildCapitalStack(inputs, equity);
            r.Err? <==> DebtService(capital, inputs) == 0.0
    ensures r.Ok? ==>
              var v := r.value;
              v.lihtcEquity == LihtcEquity(inputs.eligibleBasis, inputs.applicableFraction, inputs.creditRate, 10.0, 0.90) &&
              v.capital == BuildCapitalStack(inputs, v.lihtcEquity) &&
              TotalSources(v.capital) == inputs.totalDevelopmentCost &&
              v.debtService == DebtService(v.capital, inputs) &&
              |v.cashFlows| == 10 &&
              (forall k :: 0 <= k < 10 ==> v.cashFlows[k] == inputs.noiYear1 - v.debtService) &&
              v.dscr == Dscr(inputs.noiYear1, v.debtService) &&
              v.irr == Irr(v.cashFlows, v.capital.equity, solver)
  {
    var equity := LihtcEquity(inputs.eligibleBasis, inputs.applicableFraction, inputs.creditRate);
    var capital := BuildCapitalStack(inputs, equity);
    var debtService := DebtService(capital, inputs);
    var cashFlows := CashFlowSeries(inputs.noiYear1, debtService);
    var irr := Irr(cashFlows, capital.equity, solver);
    if debtService == 0.0 then Err(ZeroDivisionError)
    else Ok(RunResult(equity, capital, debtService, cashFlows, irr, Dscr(inputs.noiYear1, debtService)))
  }

  /** The pipeline never reads the permanent loan term or the required DSCR. */
  lemma RunIgnoresTermAndRequiredDscr(inputs: ProjectInputs, term: int, dscrRequired: real,
                                       solver: seq<real> -> real)
    ensures Run(inputs.(permanentLoanTerm := term, dscrRequired := dscrRequired), solver)
         == Run(inputs, solver)
  {
    var other := inputs.(permanentLoanTerm := term, dscrRequired := dscrRequired);
    var equity := LihtcEquity(inputs.eligibleBasis, inputs.applicableFraction, inputs.creditRate);
    CapitalStackReadsCostAndSubsidy(other, inputs, equity);
    assert DebtService(BuildCapitalStack(other, equity), other)
        == DebtService(BuildCapitalStack(inputs, equity), inputs);
  }

  /** The ten yearly flows of the shipped example. */
  const ExampleFlows: seq<real> :=
    [505000.0, 505000.0, 505000.0, 505000.0, 505000.0,
     505000.0, 505000.0, 505000.0, 505000.0, 505000.0]

  /** 600,000 / 95,000 rounds to 6.32. */
  lemma ExampleDscr()
    ensures Dscr(600000.0, 95000.0) == 6.32
  {
    assert IsCents(6.32);
    RoundDetermined(600000.0 / 95000.0, 6.32);
  }

  /** End-to-end numbers for the shipped inputs: equity 8,100,000; loan
      1,900,000 with no residual equity; debt service 95,000; ten flows of
      505,000; DSCR 6.32; the IRR is whatever the solver makes of them.
      With residual equity 0 the solver's flows are [-0, 505000 x 10], which
      have no sign change; numpy_financial's irr then returns nan, so the
      whole-cent IRR stated here is not what the program prints. */
  lemma ShippedExample(solver: seq<real> -> real)
    ensures Run(GetProjectInputs(), solver)
         == Ok(RunResult(
              8100000.0,
              CapitalStackResult(8100000.0, 2000000.0, 1900000.0, 0.0),
              95000.0,
              ExampleFlows,
              Irr(ExampleFlows, 0.0, solver),
              6.32))
  {
    var inputs := GetProjectInputs();
    LihtcWorkedExample();
    var capital := BuildCapitalStack(inputs, 8100000.0);
    assert capital == CapitalStackResult(8100000.0, 2000000.0, 1900000.0, 0.0);
    assert DebtService(capital, inputs) == 95000.0;
    assert CashFlowSeries(600000.0, 95000.0) == ExampleFlows;
    ExampleDscr();
  }
}
