/** Yearly cash flow to equity over the holding period: NOI less debt service. */
module CashflowModel {

  /** Number of years in the list: repeating a list a negative number of
      times, or ranging over a negative count, gives nothing. */
  function Years(holdPeriod: int): nat {
    if holdPeriod < 0 then 0 else holdPeriod
  }

  /** The list before the loop: debt service as a loss in every year. */
  function InitialFill(debtService: real, holdPeriod: int): (r: seq<real>)
    ensures |r| == Years(holdPeriod)
    ensures forall k :: 0 <= k < |r| ==> r[k] == -debtService
  {
    seq(Years(holdPeriod), _ => -debtService)
  }

  /** The finished list: one entry of NOI less debt service per year. */
  function CashFlowSeries(noi: real, debtService: real, holdPeriod: int := 10): (r: seq<real>)
    ensures |r| == Years(holdPeriod)
    ensures forall k :: 0 <= k < |r| ==> r[k] == noi - debtService
  {
    seq(Years(holdPeriod), _ => noi - debtService)
  }

  /** Allocates the list pre-filled with -debtService, then overwrites each
      year with noi - debtService. */
  method ProjectCashFlows(noi: real, debtService: real, holdPeriod: int := 10)
    returns (cashFlows: seq<real>)
    ensures |cashFlows| == Years(holdPeriod)
    ensures forall k :: 0 <= k < |cashFlows| ==> cashFlows[k] == noi - debtService
    ensures cashFlows == CashFlowSeries(noi, debtService, holdPeriod)
  {
    var n := Years(holdPeriod);
    var a := new real[n](_ => -debtService);
    assert a[..] == InitialFill(debtService, holdPeriod);
    for i := 0 to n
      invariant forall k :: 0 <= k < i ==> a[k] == noi - debtService
      invariant forall k :: i <= k < n ==> a[k] == -debtService
    {
      a[i] := noi - debtService;
    }
    cashFlows := a[..];
  }

  /** The series has one entry per year, all equal to NOI less debt service;
      it is empty for a hold period of zero or less. */
  lemma CashFlowSeriesShape(noi: real, debtService: real, holdPeriod: int)
    ensures var s := CashFlowSeries(noi, debtService, holdPeriod);
            |s| == Years(holdPeriod) &&
            (holdPeriod <= 0 <==> s == []) &&
            forall k :: 0 <= k < |s| ==> s[k] == noi - debtService
  {
  }

  /** The hold period defaults to ten years. */
  lemma CashFlowDefaultHold(noi: real, debtService: real)
    ensures |CashFlowSeries(noi, debtService)| == 10
    ensures CashFlowSeries(noi, debtService) == CashFlowSeries(noi, debtService, 10)
  {
  }

  /** The series is constant. */
  lemma CashFlowSeriesConstant(noi: real, debtService: real, holdPeriod: int, j: int, k: int)
    requires 0 <= j < Years(holdPeriod) && 0 <= k < Years(holdPeriod)
    ensures CashFlowSeries(noi, debtService, holdPeriod)[j] == CashFlowSeries(noi, debtService, holdPeriod)[k]
  {
  }

  /** No pre-filled -debtService survives, unless NOI is zero so that the
      overwriting value coincides with it. */
  lemma InitialFillOverwritten(noi: real, debtService: real, holdPeriod: int)
    requires noi != 0.0
    ensures forall k :: 0 <= k < Years(holdPeriod) ==>
              CashFlowSeries(noi, debtService, holdPeriod)[k] != InitialFill(debtService, holdPeriod)[k]
  {
  }

  /** The example of a three-year hold with 300,000 of debt service. */
  lemma InitialFillExample()
    ensures InitialFill(300000.0, 3) == [-300000.0, -300000.0, -300000.0]
  {
  }
}
