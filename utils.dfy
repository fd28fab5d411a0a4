/** Return metrics: the flows handed to the IRR solver, and the debt service
    coverage ratio. */
module Utils {
  import opened Rounding

  /** The solver's input: the equity investment as an outlay, then the flows. */
  function IrrFlows(cashFlows: seq<real>, equityInvestment: real): (r: seq<real>)
    ensures |r| == |cashFlows| + 1
    ensures r[0] == -equityInvestment
    ensures r[1..] == cashFlows
  {
    [-equityInvestment] + cashFlows
  }

  /** IRR as a percentage rounded to cents. `solver` stands for the external
      numeric root finder, of which nothing is assumed. */
  function Irr(cashFlows: seq<real>, equityInvestment: real, solver: seq<real> -> real): (r: real)
    ensures IsCents(r)
    ensures WithinHalfCent(r, 100.0 * solver(IrrFlows(cashFlows, equityInvestment)))
  {
    Round2(solver(IrrFlows(cashFlows, equityInvestment)) * 100.0)
  }

  /** DSCR = NOI / debt service, rounded to cents. Debt service zero is a
      division by zero in the source, so callers must exclude it. */
  function Dscr(noi: real, debtService: real): (r: real)
    requires debtService != 0.0
    ensures IsCents(r)
    ensures WithinHalfCent(r, noi / debtService)
  {
    Round2(noi / debtService)
  }

  /** NOI covering positive debt service gives at least the break-even 1.0. */
  lemma DscrBreakEven(noi: real, debtService: real)
    requires noi >= debtService > 0.0
    ensures Dscr(noi, debtService) >= 1.0
  {
    assert noi / debtService >= 1.0;
    RoundMonotone(1.0, noi / debtService);
    RoundFixesCents(1.0);
  }

  /** Scaling NOI and debt service by the same nonzero factor keeps the DSCR. */
  lemma DscrScaleInvariant(noi: real, debtService: real, factor: real)
    requires debtService != 0.0 && factor != 0.0
    ensures Dscr(noi * factor, debtService * factor) == Dscr(noi, debtService)
  {
    assert (noi * factor) / (debtService * factor) == noi / debtService;
  }
}
