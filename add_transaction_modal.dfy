/**
 * The "add transaction" form of the trip ledger: the split-list toggle, the
 * two-currency amount fields kept in step through the exchange service, the
 * validation, the transaction it hands to the ledger, and the state of its
 * submit button.
 */
module AddTransactionModal {
  import opened Wrappers
  import opened JsStrings
  import opened TripTypes
  import Exchange

  datatype Currency = KRW | CNY

  /** The submit button: `normal` → `submitting` → `success` → `normal`. */
  datatype ButtonState = Normal | Submitting | Done

  const MerchantNameRequired: Text := "请输入商家名称"
  const AmountRequired: Text := "请输入有效的金额"
  const PayerRequired: Text := "请选择付款人"
  const SplitAmongRequired: Text := "请至少选择1人参与分摊"
  const TreatedByRequired: Text := "请选择请客的人"
  const NegativeAmount: Text := "金额不能为负数"
  const RateUnavailable: Text := "汇率不可用"

  /** One optional message per form field. */
  datatype FormErrors = FormErrors(
    merchantName: Option<Text>,
    amount: Option<Text>,
    payer: Option<Text>,
    splitAmong: Option<Text>,
    treatedBy: Option<Text>)

  const NoErrors: FormErrors := FormErrors(None, None, None, None, None)

  /** The transaction handed to the ledger, before it receives its id,
    * timestamp and date; an amount that does not parse is `None` (NaN). */
  datatype NewTransaction = NewTransaction(
    name: Text,
    amountKRW: Option<real>,
    amountCNY: Option<real>,
    payer: Text,
    splitType: SplitType,
    icon: Text,
    splitAmong: Option<seq<Text>>,
    treatedBy: Option<Text>)

  // ---------------------------------------------------------------------
  // The split list

  lemma {:induction false} RemoveOnlyName(s: seq<Text>, x: Text)
    requires forall y :: y in s ==> y == x
    ensures Remove(s, x) == []
  {
    if s != [] {
      var init := s[..|s| - 1];
      assert s == init + [s[|s| - 1]];
      assert s[|s| - 1] in s;
      forall y | y in init
        ensures y == x
      {
        assert y in s;
      }
      RemoveOnlyName(init, x);
    }
  }

  /** `toggleSplitAmong`'s update: a listed traveler leaves the list unless
    * they are its only entry; an unlisted one joins at the end. */
  function Toggled(prev: seq<Text>, traveler: Text): seq<Text>
  {
    if traveler in prev then (if |prev| > 1 then Remove(prev, traveler) else prev)
    else prev + [traveler]
  }

  /** The three cases of the toggle, and when it can empty the list: only
    * when the list holds the toggled name at least twice and nobody else. */
  lemma ToggledFacts(prev: seq<Text>, traveler: Text)
    ensures traveler in prev && |prev| > 1 ==>
      traveler !in Toggled(prev, traveler)
      && forall y :: y != traveler ==> multiset(Toggled(prev, traveler))[y] == multiset(prev)[y]
    ensures traveler in prev && |prev| <= 1 ==> Toggled(prev, traveler) == prev
    ensures traveler !in prev ==> Toggled(prev, traveler) == prev + [traveler]
    ensures Toggled(prev, traveler) == [] <==> |prev| > 1 && forall y :: y in prev ==> y == traveler
  {
    var r := Toggled(prev, traveler);
    if traveler in prev && |prev| > 1 {
      assert traveler !in r by {
        assert multiset(r)[traveler] == 0;
      }
      if forall y :: y in prev ==> y == traveler {
        RemoveOnlyName(prev, traveler);
      } else {
        var y :| y in prev && y != traveler;
        assert multiset(prev)[y] > 0;
        assert y in r;
      }
    } else if |prev| > 1 {
      assert prev[0] in prev;
    }
  }

  // ---------------------------------------------------------------------
  // Validation and the new transaction

  /** At least one amount field is a number above zero; `parse` is
    * `parseFloat`, with `None` for NaN. */
  predicate HasValidAmount(amountKRW: Text, amountCNY: Text, parse: Text -> Option<real>)
  {
    || (amountKRW != [] && parse(amountKRW).Some? && parse(amountKRW).value > 0.0)
    || (amountCNY != [] && parse(amountCNY).Some? && parse(amountCNY).value > 0.0)
  }

  /** The errors `validateForm` records. */
  function Validate(merchantName: Text, amountKRW: Text, amountCNY: Text, payer: Text, splitType: SplitType,
                    splitAmong: seq<Text>, treatedBy: Text, parse: Text -> Option<real>): (e: FormErrors)
    ensures e.merchantName.Some? <==> IsBlank(merchantName)
    ensures e.amount.Some? <==> !HasValidAmount(amountKRW, amountCNY, parse)
    ensures e.payer.Some? <==> payer == []
    ensures e.splitAmong.Some? <==> splitType == Even && splitAmong == []
    ensures e.treatedBy.Some? <==> splitType == Treat && treatedBy == []
  {
    FormErrors(
      if IsBlank(merchantName) then Some(MerchantNameRequired) else None,
      if HasValidAmount(amountKRW, amountCNY, parse) then None else Some(AmountRequired),
      if payer == [] then Some(PayerRequired) else None,
      if splitType == Even && splitAmong == [] then Some(SplitAmongRequired) else None,
      if splitType == Treat && treatedBy == [] then Some(TreatedByRequired) else None)
  }

  /** The transaction built from the form: the name trimmed, the split list
    * only for an even split and the host only for a treat. */
  function BuildTransaction(merchantName: Text, amountKRW: Text, amountCNY: Text, payer: Text, splitType: SplitType,
                            icon: Text, splitAmong: seq<Text>, treatedBy: Text, parse: Text -> Option<real>): (t: NewTransaction)
    ensures t.name == Trim(merchantName) && t.payer == payer && t.splitType == splitType
    ensures t.splitAmong.Some? <==> splitType == Even
    ensures t.treatedBy.Some? <==> splitType == Treat
  {
    NewTransaction(
      Trim(merchantName), parse(amountKRW), parse(amountCNY), payer, splitType, icon,
      if splitType == Even then Some(splitAmong) else None,
      if splitType == Treat then Some(treatedBy) else None)
  }

  /** A form that passes validation yields a transaction with a non-empty
    * name, a payer, a positive amount, a non-empty split list for an even
    * split and a host for a treat. */
  lemma AcceptedFormIsComplete(merchantName: Text, amountKRW: Text, amountCNY: Text, payer: Text, splitType: SplitType,
                               icon: Text, splitAmong: seq<Text>, treatedBy: Text, parse: Text -> Option<real>)
    requires Validate(merchantName, amountKRW, amountCNY, payer, splitType, splitAmong, treatedBy, parse) == NoErrors
    ensures var t := BuildTransaction(merchantName, amountKRW, amountCNY, payer, splitType, icon, splitAmong, treatedBy, parse);
      && t.name != [] && t.payer != []
      && ((t.amountKRW.Some? && t.amountKRW.value > 0.0) || (t.amountCNY.Some? && t.amountCNY.value > 0.0))
      && (splitType == Even ==> t.splitAmong == Some(splitAmong) && splitAmong != [])
      && (splitType == Treat ==> t.treatedBy == Some(treatedBy) && treatedBy != [])
  {
  }

  // ---------------------------------------------------------------------
  // The form

  class TransactionForm {
    const travelers: seq<Text>
    /** The rate passed in by the ledger; 0 stands for none. */
    const currentRate: real
    var merchantName: Text
    var amountKRW: Text
    var amountCNY: Text
    var payer: Text
    var splitType: SplitType
    var splitAmong: seq<Text>
    var treatedBy: Text
    var icon: Text
    var errors: FormErrors
    var buttonState: ButtonState
    /** The transactions passed to `onAdd`, in order. */
    var added: seq<NewTransaction>

    /** The opened form, after its first effects: the exchange service gets
      * the ledger's rate if it has none, and payer, split list and host
      * default to the travelers. */
    constructor (travelers: seq<Text>, currentRate: real, exchange: Exchange.ExchangeRateService, now: int)
      modifies exchange
      ensures this.travelers == travelers && this.currentRate == currentRate
      ensures merchantName == [] && amountKRW == [] && amountCNY == [] && icon == "💰"
      ensures splitType == Even && errors == NoErrors && buttonState == Normal && added == []
      ensures payer == (if travelers != [] then travelers[0] else [])
      ensures treatedBy == payer && splitAmong == travelers
      ensures currentRate != 0.0 && !old(exchange.Loaded()) ==> exchange.currentRate == Some(currentRate)
      ensures !(currentRate != 0.0 && !old(exchange.Loaded())) ==> exchange.currentRate == old(exchange.currentRate)
      ensures exchange.stored == old(exchange.stored)
    {
      this.travelers := travelers;
      this.currentRate := currentRate;
      merchantName := [];
      amountKRW := [];
      amountCNY := [];
      splitType := Even;
      icon := "💰";
      errors := NoErrors;
      buttonState := Normal;
      added := [];
      new;
      if currentRate != 0.0 && !exchange.Loaded() {
        exchange.SetRate(currentRate, now);
      }
      payer := if travelers != [] then travelers[0] else [];
      splitAmong := travelers;
      treatedBy := payer;
    }

    /** Both buttons are disabled except in the normal state. */
    predicate ButtonsDisabled()
      reads this
    {
      buttonState != Normal
    }

    /** `handleAmountChange`: a negative amount clears both fields and
      * records an error; a number with a rate fills the other field by
      * conversion (`fixed2` is `toFixed(2)`); anything else keeps the typed
      * text and clears the other field. */
    method HandleAmountChange(value: Text, selected: Currency, parse: Text -> Option<real>,
                              exchange: Exchange.ExchangeRateService, fixed2: real -> Text)
      modifies this
      ensures merchantName == old(merchantName) && payer == old(payer) && splitType == old(splitType)
      ensures splitAmong == old(splitAmong) && treatedBy == old(treatedBy) && icon == old(icon)
      ensures buttonState == old(buttonState) && added == old(added)
      ensures errors.(amount := old(errors).amount) == old(errors)
      ensures parse(value).Some? && parse(value).value < 0.0 ==>
        amountKRW == [] && amountCNY == [] && errors.amount == Some(NegativeAmount)
      ensures parse(value).Some? && parse(value).value >= 0.0 && currentRate != 0.0 && selected == KRW ==>
        var converted := exchange.KrwToCny(parse(value).value);
        && amountKRW == value
        && (converted.Success? ==> amountCNY == fixed2(converted.value) && errors.amount == None)
        && (converted.Failure? ==> amountCNY == old(amountCNY) && errors.amount == Some(RateUnavailable))
      ensures parse(value).Some? && parse(value).value >= 0.0 && currentRate != 0.0 && selected == CNY ==>
        var converted := exchange.CnyToKrw(parse(value).value);
        && amountCNY == value
        && (converted.Success? ==> amountKRW == IntToDecimal(converted.value) && errors.amount == None)
        && (converted.Failure? ==> amountKRW == old(amountKRW) && errors.amount == Some(RateUnavailable))
      ensures (parse(value).None? || (parse(value).value >= 0.0 && currentRate == 0.0)) ==>
        errors == old(errors)
        && (selected == KRW ==> amountKRW == value && amountCNY == [])
        && (selected == CNY ==> amountCNY == value && amountKRW == [])
    {
      var amount := parse(value);
      if amount.Some? && amount.value < 0.0 {
        errors := errors.(amount := Some(NegativeAmount));
        amountKRW := [];
        amountCNY := [];
        return;
      }
      if amount.Some? && amount.value >= 0.0 && currentRate != 0.0 {
        if selected == KRW {
          amountKRW := value;
          var converted := exchange.KrwToCny(amount.value);
          if converted.Failure? {
            errors := errors.(amount := Some(RateUnavailable));
            return;
          }
          amountCNY := fixed2(converted.value);
        } else {
          amountCNY := value;
          var converted := exchange.CnyToKrw(amount.value);
          if converted.Failure? {
            errors := errors.(amount := Some(RateUnavailable));
            return;
          }
          amountKRW := IntToDecimal(converted.value);
        }
        errors := errors.(amount := None);
      } else if selected == KRW {
        amountKRW := value;
        amountCNY := [];
      } else {
        amountCNY := value;
        amountKRW := [];
      }
    }

    /** `toggleSplitAmong`. */
    method ToggleSplitAmong(traveler: Text)
      modifies this
      ensures splitAmong == Toggled(old(splitAmong), traveler)
      ensures errors == old(errors).(splitAmong := None)
      ensures merchantName == old(merchantName) && amountKRW == old(amountKRW) && amountCNY == old(amountCNY)
      ensures payer == old(payer) && splitType == old(splitType) && treatedBy == old(treatedBy)
      ensures icon == old(icon) && buttonState == old(buttonState) && added == old(added)
    {
      splitAmong := Toggled(splitAmong, traveler);
      errors := errors.(splitAmong := None);
    }

    /** `validateForm`: records one message per failing field and accepts
      * the form when none was recorded. */
    method ValidateForm(parse: Text -> Option<real>) returns (ok: bool)
      modifies this
      ensures errors == Validate(merchantName, amountKRW, amountCNY, payer, splitType, splitAmong, treatedBy, parse)
      ensures ok <==> errors == NoErrors
      ensures merchantName == old(merchantName) && amountKRW == old(amountKRW) && amountCNY == old(amountCNY)
      ensures payer == old(payer) && splitType == old(splitType) && splitAmong == old(splitAmong)
      ensures treatedBy == old(treatedBy) && icon == old(icon) && buttonState == old(buttonState) && added == old(added)
    {
      var newErrors := NoErrors;
      if IsBlank(merchantName) {
        newErrors := newErrors.(merchantName := Some(MerchantNameRequired));
      }
      if !HasValidAmount(amountKRW, amountCNY, parse) {
        newErrors := newErrors.(amount := Some(AmountRequired));
      }
      if payer == [] {
        newErrors := newErrors.(payer := Some(PayerRequired));
      }
      if splitType == Even {
        if splitAmong == [] {
          newErrors := newErrors.(splitAmong := Some(SplitAmongRequired));
        }
      } else if splitType == Treat {
        if treatedBy == [] {
          newErrors := newErrors.(treatedBy := Some(TreatedByRequired));
        }
      }
      errors := newErrors;
      ok := errors == NoErrors;
    }

    /** `handleAdd`, reachable only while the button is enabled: an invalid
      * form stays as it is; a valid one hands its transaction to the ledger
      * and the button shows success. */
    method HandleAdd(parse: Text -> Option<real>)
      requires buttonState == Normal
      modifies this
      ensures errors == Validate(merchantName, amountKRW, amountCNY, payer, splitType, splitAmong, treatedBy, parse)
      ensures errors != NoErrors ==> buttonState == Normal && added == old(added)
      ensures errors == NoErrors ==>
        && buttonState == Done
        && added == old(added) + [BuildTransaction(merchantName, amountKRW, amountCNY, payer, splitType, icon, splitAmong, treatedBy, parse)]
      ensures merchantName == old(merchantName) && amountKRW == old(amountKRW) && amountCNY == old(amountCNY)
      ensures payer == old(payer) && splitType == old(splitType) && splitAmong == old(splitAmong)
      ensures treatedBy == old(treatedBy) && icon == old(icon)
    {
      var ok := ValidateForm(parse);
      if !ok {
        return;
      }
      buttonState := Submitting;
      var transaction := BuildTransaction(merchantName, amountKRW, amountCNY, payer, splitType, icon, splitAmong, treatedBy, parse);
      added := added + [transaction];
      buttonState := Done;
    }

    /** The timer one second after a success: the button is usable again and
      * the form is kept. */
    method SuccessTimerElapsed()
      modifies this
      ensures buttonState == Normal
      ensures merchantName == old(merchantName) && amountKRW == old(amountKRW) && amountCNY == old(amountCNY)
      ensures payer == old(payer) && splitType == old(splitType) && splitAmong == old(splitAmong)
      ensures treatedBy == old(treatedBy) && icon == old(icon) && errors == old(errors) && added == old(added)
    {
      buttonState := Normal;
    }
  }
}
