/** Investor equity raised by selling Low-Income Housing Tax Credits. */
module LihtcCalculator {
  import opened Rounding

  /** Annual credit: qualified basis (eligible basis times applicable
      fraction) times the credit rate. */
  function AnnualCredit(eligibleBasis: real, applicableFraction: real, creditRate: real): (r: real)
    ensures applicableFraction == 0.0 || creditRate == 0.0 ==> r == 0.0
    ensures eligibleBasis >= 0.0 && 0.0 <= applicableFraction <= 1.0 && creditRate >= 0.0 ==>
              0.0 <= r <= eligibleBasis * creditRate
  {
    var qualifiedBasis := eligibleBasis * applicableFraction;
    assert eligibleBasis >= 0.0 && 0.0 <= applicableFraction <= 1.0 ==>
             0.0 <= qualifiedBasis <= eligibleBasis;
    assert creditRate >= 0.0 && 0.0 <= qualifiedBasis <= eligibleBasis ==>
             0.0 <= qualifiedBasis * creditRate <= eligibleBasis * creditRate;
    qualifiedBasis * creditRate
  }

  /** Equity = annual credit x term x pricing, rounded to cents. The credit
      term defaults to 10 years and pricing to 0.90 per dollar of credit.
      There is no validation: every input gives a result. */
  function LihtcEquity(eligibleBasis: real, applicableFraction: real, creditRate: real,
                       term: real := 10.0, pricing: real := 0.90): (r: real)
    ensures IsCents(r)
    ensures WithinHalfCent(r, eligibleBasis * applicableFraction * creditRate * term * pricing)
  {
    var totalCredit := AnnualCredit(eligibleBasis, applicableFraction, creditRate) * term;
    Round2(totalCredit * pricing)
  }

  /** Leaving out term and pricing is the same as passing 10 and 0.90. */
  lemma LihtcDefaults(eligibleBasis: real, applicableFraction: real, creditRate: real)
    ensures LihtcEquity(eligibleBasis, applicableFraction, creditRate)
         == LihtcEquity(eligibleBasis, applicableFraction, creditRate, 10.0, 0.90)
  {
  }

  /** A zero fraction, credit rate, term or pricing yields no equity. */
  lemma LihtcZeroFactor(eligibleBasis: real, applicableFraction: real, creditRate: real,
                        term: real, pricing: real)
    requires applicableFraction == 0.0 || creditRate == 0.0 || term == 0.0 || pricing == 0.0
    ensures LihtcEquity(eligibleBasis, applicableFraction, creditRate, term, pricing) == 0.0
  {
    assert AnnualCredit(eligibleBasis, applicableFraction, creditRate) * term * pricing == 0.0;
    RoundZero();
  }

  /** With the other factors non-negative, more basis never gives less equity. */
  lemma LihtcMonotoneInBasis(basis1: real, basis2: real, applicableFraction: real,
                             creditRate: real, term: real, pricing: real)
    requires basis1 <= basis2
    requires applicableFraction >= 0.0 && creditRate >= 0.0 && term >= 0.0 && pricing >= 0.0
    ensures LihtcEquity(basis1, applicableFraction, creditRate, term, pricing)
         <= LihtcEquity(basis2, applicableFraction, creditRate, term, pricing)
  {
    var k := applicableFraction * creditRate * term * pricing;
    assert k >= 0.0;
    assert basis1 * k <= basis2 * k;
    assert AnnualCredit(basis1, applicableFraction, creditRate) * term * pricing == basis1 * k;
    assert AnnualCredit(basis2, applicableFraction, creditRate) * term * pricing == basis2 * k;
    RoundMonotone(basis1 * k, basis2 * k);
  }

  /** The documented example: a 10,000,000 basis at 9% earns 900,000 a year,
      and with the defaults the equity is 8,100,000.00. */
  lemma LihtcWorkedExample()
    ensures AnnualCredit(10000000.0, 1.0, 0.09) == 900000.0
    ensures LihtcEquity(10000000.0, 1.0, 0.09) == 8100000.0
  {
    assert AnnualCredit(10000000.0, 1.0, 0.09) * 10.0 * 0.90 == 8100000.0;
    RoundFixesCents(8100000.0);
  }
}
