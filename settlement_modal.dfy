/**
 * The settlement dialog: how each row of the settlement report is shown
 * (settled, to receive, to pay), the summary line, and the two-step
 * "clear all data" confirmation.
 */
module SettlementModal {
  import opened JsStrings
  import opened Wrappers
  import opened TripTypes
  import opened TripCalculations

  function Abs(x: real): real
  {
    if x < 0.0 then -x else x
  }

  /** `isSettled`: balances within a fen of zero count as settled. */
  predicate IsSettled(balance: real)
  {
    Abs(balance) < 0.01
  }

  /** How a row is shown. */
  datatype RowStyle = SettledRow | ReceiveRow | PayRow

  function Classify(balance: real): RowStyle
  {
    if IsSettled(balance) then SettledRow
    else if balance < 0.0 then ReceiveRow
    else PayRow
  }

  /** Every balance falls in exactly one class: settled within a fen of
    * zero, to receive at -0.01 or below, to pay at 0.01 or above. */
  lemma ClassifyFacts(balance: real)
    ensures Classify(balance) == SettledRow <==> -0.01 < balance < 0.01
    ensures Classify(balance) == ReceiveRow <==> balance <= -0.01
    ensures Classify(balance) == PayRow <==> balance >= 0.01
  {
  }

  /** The net amount shown in the last column; none for a settled row. */
  function NetShown(balance: real): Option<real>
  {
    match Classify(balance)
    case SettledRow => None
    case ReceiveRow => Some(Abs(balance))
    case PayRow => Some(balance)
  }

  /** Unsettled rows show the size of their balance, at least a fen. */
  lemma NetShownFacts(balance: real)
    ensures NetShown(balance).Some? <==> !IsSettled(balance)
    ensures NetShown(balance).Some? ==> NetShown(balance).value == Abs(balance) >= 0.01
  {
  }

  /** The number of rows shown as unsettled. */
  function UnsettledCount(report: seq<SettlementItem>): nat
  {
    if report == [] then 0
    else UnsettledCount(report[..|report| - 1]) + (if IsSettled(report[|report| - 1].balance) then 0 else 1)
  }

  /** The count is zero exactly when every row is settled, and the full
    * length exactly when none is. */
  lemma {:induction false} UnsettledCountFacts(report: seq<SettlementItem>)
    ensures UnsettledCount(report) <= |report|
    ensures UnsettledCount(report) == 0 <==> forall i :: 0 <= i < |report| ==> IsSettled(report[i].balance)
    ensures UnsettledCount(report) == |report| <==> forall i :: 0 <= i < |report| ==> !IsSettled(report[i].balance)
  {
    if report != [] {
      var init := report[..|report| - 1];
      UnsettledCountFacts(init);
      assert forall i :: 0 <= i < |init| ==> init[i] == report[i];
    }
  }

  /** The summary line: total paid, total share, number unsettled. */
  datatype Summary = Summary(totalPaid: real, totalShare: real, unsettled: nat)

  function Summarize(report: seq<SettlementItem>): Summary
  {
    Summary(Sum(PaidColumn(report)), Sum(ShareColumn(report)), UnsettledCount(report))
  }

  /** For a ledger the settlement accounts for in full, both totals of the
    * summary are the amount spent. */
  lemma SummaryOfSettlement(txs: seq<Transaction>, travelers: seq<Text>)
    requires forall tx :: tx in txs ==> Settleable(tx, travelers)
    ensures Summarize(Settlement(txs, travelers)).totalPaid == TotalSpent(txs)
    ensures Summarize(Settlement(txs, travelers)).totalShare == TotalSpent(txs)
  {
    SettlementBalancesCancel(txs, travelers);
  }

  /** What the dialog asks of its parent. */
  datatype Effect = Cleared | Closed

  class SettlementDialog {
    /** Whether the parent passed `onClear`. */
    const canClear: bool
    var showClearConfirm: bool
    /** The parent callbacks invoked so far, in order. */
    var effects: seq<Effect>

    constructor (canClear: bool)
      ensures this.canClear == canClear && !showClearConfirm && effects == []
    {
      this.canClear := canClear;
      showClearConfirm := false;
      effects := [];
    }

    /** The "clear data" button, present only with `onClear`, opens the
      * confirmation. */
    method AskToClear()
      modifies this
      ensures showClearConfirm == (canClear || old(showClearConfirm)) && effects == old(effects)
    {
      if canClear {
        showClearConfirm := true;
      }
    }

    method CancelClear()
      modifies this
      ensures !showClearConfirm && effects == old(effects)
    {
      showClearConfirm := false;
    }

    /** `handleClear`: without `onClear` nothing happens; with it the data
      * is cleared, the confirmation hidden and the dialog closed. */
    method HandleClear()
      modifies this
      ensures canClear ==> !showClearConfirm && effects == old(effects) + [Cleared, Closed]
      ensures !canClear ==> showClearConfirm == old(showClearConfirm) && effects == old(effects)
    {
      if canClear {
        effects := effects + [Cleared];
        showClearConfirm := false;
        effects := effects + [Closed];
      }
    }
  }
}
