# LIHTC feasibility pipeline, modelled in Dafny

This project models the root-level command-line pipeline of an affordable-housing
feasibility analyzer. The pipeline sizes Low-Income Housing Tax Credit (LIHTC)
investor equity from the eligible basis. It then builds a capital stack: the soft
subsidy, a permanent loan capped at 75% of total development cost, and residual equity.
Next it charges interest-only debt service on the loan and projects ten years of cash
flow to equity. Finally it derives the IRR and the debt service coverage ratio (DSCR).

Money is modelled as exact `real`. Python's `round(x, 2)` is `Rounding.Round2`. Every
proof about it uses only two facts: the result is a whole number of cents, and it lies
within half a cent of `x`.

Modules follow the source files:

- `Rounding` (rounding.dfy): cent rounding and the facts derived from its contract
  (uniqueness, monotonicity, whole-cent amounts are fixed points).
- `Inputs` (inputs.dfy): the nine-field input record and the fixed example.
- `LihtcCalculator` (lihtc_calculator.dfy): LIHTC equity.
- `CapitalStack` (capital_stack.dfy): gap, LTV-capped loan, residual equity.
- `CashflowModel` (cashflow_model.dfy): the cash-flow list. This is an array method
  that pre-fills the array and overwrites it in a loop. It is proved equal to a
  specification function.
- `Utils` (utils.dfy): the IRR flow assembly and the DSCR.
- `Pipeline` (pipeline.dfy): `main` as a function returning every computed value.

The web application (app.py) and its input record (model/inputs.py) carry a richer
set of parameters: a syndication fee, a bridge loan, DSCR-based loan sizing, an
interest reserve, a deferred developer fee, NOI growth, a terminal sale and a mapping
of soft-subsidy sources. The calculation modules behind them are not part of this
model. The root-level code modelled here has none of these. The soft subsidy is a
single scalar, the loan is `min(gap, 0.75 * cost)` with no DSCR limit and no clamp,
and no input is validated.

## Model

| member | source | states |
|---|---|---|
| `Rounding.Round2` | lihtc_calculator.py:19-20 | `round(x, 2)`: the result is a whole number of cents within half a cent of `x` |
| `Rounding.RoundFixesCents` | lihtc_calculator.py:20 | rounding an amount that is already whole cents returns it unchanged |
| `Rounding.RoundDetermined` | utils.py:34 | a whole-cent value strictly closer than half a cent to `x` is the rounded value |
| `Rounding.RoundMonotone` | lihtc_calculator.py:20 | cent rounding never reverses the order of two amounts |
| `Inputs.GetProjectInputs` | inputs.py:1-12 | the fixed record has positive cost, basis no larger than cost, fraction in [0,1], and the 9% credit rate |
| `LihtcCalculator.AnnualCredit` | lihtc_calculator.py:15-16 | a zero fraction or rate gives no credit; with non-negative basis and rate and a fraction in [0,1], the annual credit lies between 0 and basis x rate |
| `LihtcCalculator.LihtcEquity` | lihtc_calculator.py:14-20 | equity is a whole number of cents within half a cent of basis x fraction x rate x term x pricing, for every input |
| `LihtcCalculator.LihtcDefaults` | lihtc_calculator.py:14 | omitted term and pricing mean 10 and 0.90 |
| `LihtcCalculator.LihtcZeroFactor` | lihtc_calculator.py:16-18 | a zero fraction, credit rate, term or pricing yields zero equity |
| `LihtcCalculator.LihtcMonotoneInBasis` | lihtc_calculator.py:16-20 | with non-negative other factors, equity is non-decreasing in eligible basis |
| `LihtcCalculator.LihtcWorkedExample` | lihtc_calculator.py:34-36 | a 10,000,000 basis at 9% earns 900,000 a year; with defaults, equity is 8,100,000.00 |
| `CapitalStack.Gap` | capital_stack.py:2 | LIHTC equity, subsidy and gap sum to cost; the gap is negative exactly when equity plus subsidy exceed cost |
| `CapitalStack.BuildCapitalStack` | capital_stack.py:1-10 | LIHTC equity and subsidy copied unchanged; loan at most the gap and at most 75% of cost, and equal to one of them; the four sources sum to cost exactly; equity is gap minus loan and never negative |
| `CapitalStack.CapitalStackCases` | capital_stack.py:3-4 | gap within the cap: loan is the gap and equity 0; gap above the cap: loan is the cap and equity is the positive excess |
| `CapitalStack.OverfundedLoanIsNegative` | capital_stack.py:2-3 | when LIHTC equity plus subsidy exceed cost, the loan is negative (no clamp) |
| `CapitalStack.CapitalStackReadsCostAndSubsidy` | capital_stack.py:1-4 | inputs agreeing on cost and subsidy give the same stack |
| `CashflowModel.InitialFill` | cashflow_model.py:8 | the pre-filled list has max(0, hold period) entries, each -debt service |
| `CashflowModel.CashFlowSeries` | cashflow_model.py:7-11 | the list the pipeline uses: max(0, hold period) entries, hold period 10 by default, each NOI minus debt service |
| `CashflowModel.ProjectCashFlows` | cashflow_model.py:7-11 | the array pre-filled with -debt service and overwritten in the loop ends as one entry per year of the hold period (none when it is 0 or less), each equal to NOI minus debt service |
| `CashflowModel.CashFlowSeriesShape` | cashflow_model.py:8-10 | the series has length max(0, hold period), is empty exactly when the hold period is at most 0, and holds NOI minus debt service everywhere |
| `CashflowModel.CashFlowDefaultHold` | cashflow_model.py:7 | the hold period defaults to 10, giving 10 entries |
| `CashflowModel.CashFlowSeriesConstant` | cashflow_model.py:9-10 | every two entries of the series are equal |
| `CashflowModel.InitialFillOverwritten` | cashflow_model.py:8-11 | for nonzero NOI, no entry keeps its pre-filled -debt service value |
| `CashflowModel.InitialFillExample` | cashflow_model.py:15-16 | a 3-year hold with 300,000 debt service starts as three entries of -300,000 |
| `Utils.IrrFlows` | utils.py:17-19 | the solver's flows are one longer than the cash flows, start with the negated investment and continue with the cash flows unchanged |
| `Utils.Irr` | utils.py:17-21 | the IRR is a whole number of cents within half a cent of 100 x the solver's result on those flows |
| `Utils.Dscr` | utils.py:33-34 | for nonzero debt service, DSCR is a whole number of cents within half a cent of NOI / debt service |
| `Utils.DscrBreakEven` | utils.py:28-34 | NOI at least a positive debt service gives DSCR at least 1.0 |
| `Utils.DscrScaleInvariant` | utils.py:33-34 | scaling NOI and debt service by one nonzero factor leaves the DSCR unchanged |
| `Pipeline.DebtService` | main.py:16 | interest-only debt service is zero exactly when the loan or the rate is zero, and non-negative when both are |
| `Pipeline.Run` | main.py:7-19 | fails exactly when debt service is zero; otherwise equity uses term 10 and pricing 0.90, the stack's sources sum to cost, debt service is loan x loan rate, there are 10 flows of NOI minus debt service, and DSCR and IRR use that NOI, debt service and the stack's equity |
| `Pipeline.RunIgnoresTermAndRequiredDscr` | main.py:8-19 | changing the permanent loan term or the required DSCR does not change the run |
| `Pipeline.ExampleDscr` | main.py:19 | 600,000 / 95,000 rounds to 6.32 |
| `Pipeline.ShippedExample` | main.py:8-19 | on the fixed inputs: equity 8,100,000, loan 1,900,000, residual equity 0, debt service 95,000, ten flows of 505,000, DSCR 6.32; the IRR is left to the solver, whose flows here have no sign change |

## Left out

- `Rounding.Round2`: it does not model binary floating point or Python's ties-to-even on binary values. At an exact half-cent tie the model rounds up, and no lemma relies on that.
- `Utils.Irr`: `npf.irr` (utils.py:21) is a foreign numeric root finder. It is the parameter `solver`, and nothing is assumed about it. `round(nan)` for a flow list without a sign change is not modelled. The shipped example is such a case: its residual equity is 0, so the solver gets `[-0, 505000 x 10]`, numpy_financial returns nan and the program prints `IRR: nan%`. The model's whole-cent IRR is not what the program returns there.
- `Utils.Dscr`: Python raises `ZeroDivisionError` for zero debt service. `Dscr` requires nonzero debt service, and `Pipeline.Run` models the raise as `Err(ZeroDivisionError)`.
- The printing loop and formatted output of main.py:21-26 are console I/O.
- app.py (web routing, templates, downloads) and the `model/` package are out of scope. That package holds the report and chart generators and a second input record. Its calculation modules are not part of this model, so the extended variants are not modelled. These are syndication fee, bridge loan, annuity-based DSCR sizing, NOI growth and terminal sale.
- Floating-point error in the capital stack and cash flows: with exact reals, the sources balance exactly.
