/** The hard-coded example project that feeds the command-line pipeline. */
module Inputs {

  /** The nine-entry input record. `softSubsidy` is one scalar amount, not a
      mapping of sources; money and rates are exact reals. */
  datatype ProjectInputs = ProjectInputs(
    totalDevelopmentCost: real,
    eligibleBasis: real,
    applicableFraction: real,
    creditRate: real,
    softSubsidy: real,
    permanentLoanRate: real,
    permanentLoanTerm: int,
    dscrRequired: real,
    noiYear1: real)

  /** The fixed example: a 12,000,000 project on a 10,000,000 basis, fully
      income-restricted, at the 9% credit rate. */
  function GetProjectInputs(): (r: ProjectInputs)
    ensures r.totalDevelopmentCost > 0.0
    ensures r.eligibleBasis <= r.totalDevelopmentCost
    ensures 0.0 <= r.applicableFraction <= 1.0
    ensures r.creditRate == 0.09
  {
    ProjectInputs(
      totalDevelopmentCost := 12000000.0,
      eligibleBasis := 10000000.0,
      applicableFraction := 1.0,
      creditRate := 0.09,
      softSubsidy := 2000000.0,
      permanentLoanRate := 0.05,
      permanentLoanTerm := 30,
      dscrRequired := 1.15,
      noiYear1 := 600000.0)
  }
}
