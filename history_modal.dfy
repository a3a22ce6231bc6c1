/**
 * The translation-history dialog: the records shown (newest first, at most
 * twenty), the two-click "clear all" confirmation and record selection.
 */
module HistoryModal {
  import opened JsStrings
  import opened TranslationTypes
  import opened StableSort

  /** The most records the dialog shows. */
  const MaxHistoryItems: nat := 20

  function Stamp(h: TranslationHistory): real
  {
    h.timestamp as real
  }

  /** `sortedHistory`: a copy sorted by timestamp, newest first (ties keep
    * their order, the sort being stable), cut to the first twenty. */
  function SortedHistory(history: seq<TranslationHistory>): seq<TranslationHistory>
  {
    Slice(SortDesc(history, Stamp), 0, MaxHistoryItems)
  }

  function Min(a: nat, b: nat): nat
  {
    if a < b then a else b
  }

  /** The dialog shows min(n, 20) records, newest first, all taken from the
    * history; every record left out is no newer than any record shown. */
  lemma SortedHistoryFacts(history: seq<TranslationHistory>)
    ensures var shown := SortedHistory(history);
      && |shown| == Min(|history|, MaxHistoryItems)
      && SortedDesc(shown, Stamp)
      && multiset(shown) <= multiset(history)
      && forall i, y :: 0 <= i < |shown| && y in multiset(history) - multiset(shown) ==> y.timestamp <= shown[i].timestamp
  {
    var k := Min(|history|, MaxHistoryItems);
    var shown := SortedHistory(history);
    assert shown == SortDesc(history, Stamp)[..k] by {
      SlicePrefix(SortDesc(history, Stamp), MaxHistoryItems);
    }
    SortDescTop(history, Stamp, k);
    forall i, y: TranslationHistory | 0 <= i < |shown| && y in multiset(history) - multiset(shown)
      ensures y.timestamp <= shown[i].timestamp
    {
      assert Stamp(y) <= Stamp(shown[i]);
    }
  }

  /** The "clear all" button is shown exactly when there is a record. */
  lemma ClearButtonShownIffHistory(history: seq<TranslationHistory>)
    ensures |SortedHistory(history)| > 0 <==> |history| > 0
  {
    SortedHistoryFacts(history);
  }

  /** What the dialog asks of its parent. */
  datatype Effect = ClearedAll | Selected(item: TranslationHistory) | Deleted(id: Text) | Closed

  class HistoryDialog {
    var showClearConfirm: bool
    /** The parent callbacks invoked so far, in order. */
    var effects: seq<Effect>

    constructor ()
      ensures !showClearConfirm && effects == []
    {
      showClearConfirm := false;
      effects := [];
    }

    /** `handleClearAll`: the first click asks for confirmation, the second
      * clears the history and withdraws the question. */
    method HandleClearAll()
      modifies this
      ensures old(showClearConfirm) ==> !showClearConfirm && effects == old(effects) + [ClearedAll]
      ensures !old(showClearConfirm) ==> showClearConfirm && effects == old(effects)
    {
      if showClearConfirm {
        effects := effects + [ClearedAll];
        showClearConfirm := false;
      } else {
        showClearConfirm := true;
      }
    }

    /** `handleSelectHistory`: hands the record to the parent, then closes. */
    method HandleSelectHistory(item: TranslationHistory)
      modifies this
      ensures effects == old(effects) + [Selected(item), Closed] && showClearConfirm == old(showClearConfirm)
    {
      effects := effects + [Selected(item)];
      effects := effects + [Closed];
    }

    /** The delete button of a record asks the parent to delete it by id. */
    method DeleteItem(item: TranslationHistory)
      modifies this
      ensures effects == old(effects) + [Deleted(item.id)] && showClearConfirm == old(showClearConfirm)
    {
      effects := effects + [Deleted(item.id)];
    }
  }
}
