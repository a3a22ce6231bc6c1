/**
 * The trip ledger's arithmetic: the settlement report (who paid what and who
 * should bear what), grouping by day, totals per person, and the KRW/CNY
 * conversions, whose rate is KRW per CNY.
 */
module TripCalculations {
  import opened Wrappers
  import opened JsStrings
  import opened TripTypes
  import StableSort

  /** The avatar colours, cycled by traveler position. */
  const Colors: seq<Text> := ["#FF6B81", "#4ECDC4", "#FFE66D", "#95E1D3", "#A8E6CF", "#FFD93D"]

  // ---------------------------------------------------------------------
  // Real vectors with one entry per traveler

  function Sum(s: seq<real>): real
  {
    if s == [] then 0.0 else Sum(s[..|s| - 1]) + s[|s| - 1]
  }

  function Zeros(n: nat): (r: seq<real>)
    ensures |r| == n
  {
    seq(n, i => 0.0)
  }

  /** `v` at position `k` and 0 elsewhere; all zeros when `k` is out of range. */
  function Unit(n: nat, k: int, v: real): (r: seq<real>)
    ensures |r| == n
  {
    seq(n, i => if i == k then v else 0.0)
  }

  function Add(a: seq<real>, b: seq<real>): (r: seq<real>)
    requires |a| == |b|
    ensures |r| == |a|
  {
    seq(|a|, i requires 0 <= i < |a| => a[i] + b[i])
  }

  lemma {:induction false} SumAdd(a: seq<real>, b: seq<real>)
    requires |a| == |b|
    ensures Sum(Add(a, b)) == Sum(a) + Sum(b)
  {
    if a != [] {
      var n := |a| - 1;
      assert Add(a, b)[..n] == Add(a[..n], b[..n]);
      SumAdd(a[..n], b[..n]);
    }
  }

  lemma {:induction false} SumUnit(n: nat, k: int, v: real)
    ensures Sum(Unit(n, k, v)) == if 0 <= k < n then v else 0.0
  {
    if n > 0 {
      assert Unit(n, k, v)[..n - 1] == Unit(n - 1, k, v);
      SumUnit(n - 1, k, v);
    }
  }

  function Sub(a: seq<real>, b: seq<real>): (r: seq<real>)
    requires |a| == |b|
    ensures |r| == |a|
  {
    seq(|a|, i requires 0 <= i < |a| => a[i] - b[i])
  }

  lemma {:induction false} SumSub(a: seq<real>, b: seq<real>)
    requires |a| == |b|
    ensures Sum(Sub(a, b)) == Sum(a) - Sum(b)
  {
    if a != [] {
      var n := |a| - 1;
      assert Sub(a, b)[..n] == Sub(a[..n], b[..n]);
      SumSub(a[..n], b[..n]);
    }
  }

  // ---------------------------------------------------------------------
  // The settlement report

  /** The colour of the row for position `i`: the colour of the first
    * position holding the same name. */
  function ColorOf(travelers: seq<Text>, i: int): Text
    requires 0 <= i < |travelers|
  {
    Colors[IndexOf(travelers, travelers[i]) % |Colors|]
  }

  /** The share of each of `people` in `amount`; 0 when nobody shares. */
  function SharePerPerson(people: seq<Text>, amount: real): real
  {
    if |people| == 0 then 0.0 else amount / |people| as real
  }

  /** What a transaction adds to each row's `totalPaid`: its amount, at the
    * payer's first position. */
  function PaidVec(tx: Transaction, travelers: seq<Text>): (r: seq<real>)
    ensures |r| == |travelers|
  {
    Unit(|travelers|, IndexOf(travelers, tx.payer), tx.amountCNY)
  }

  /** `per` at the first position of every listed person who travels, once
    * per occurrence in the list. */
  function SplitShares(people: seq<Text>, travelers: seq<Text>, per: real): (r: seq<real>)
    ensures |r| == |travelers|
  {
    if people == [] then Zeros(|travelers|)
    else Add(SplitShares(people[..|people| - 1], travelers, per), Unit(|travelers|, IndexOf(travelers, people[|people| - 1]), per))
  }

  /** What a transaction adds to each row's `totalShare`: nothing when the
    * payer does not travel; otherwise by its split rule. */
  function ShareVec(tx: Transaction, travelers: seq<Text>): (r: seq<real>)
    ensures |r| == |travelers|
  {
    var n := |travelers|;
    if IndexOf(travelers, tx.payer) < 0 then Zeros(n)
    else if tx.splitType == Even && tx.splitAmong.Some? then
      SplitShares(tx.splitAmong.value, travelers, SharePerPerson(tx.splitAmong.value, tx.amountCNY))
    else if tx.splitType == Treat && tx.treatedBy.Some? && tx.treatedBy.value != [] then
      Unit(n, IndexOf(travelers, tx.treatedBy.value), tx.amountCNY)
    else if tx.splitType == NoSplit then Unit(n, IndexOf(travelers, tx.payer), tx.amountCNY)
    else Zeros(n)
  }

  function PaidTotals(txs: seq<Transaction>, travelers: seq<Text>): (r: seq<real>)
    ensures |r| == |travelers|
  {
    if txs == [] then Zeros(|travelers|)
    else Add(PaidTotals(txs[..|txs| - 1], travelers), PaidVec(txs[|txs| - 1], travelers))
  }

  function ShareTotals(txs: seq<Transaction>, travelers: seq<Text>): (r: seq<real>)
    ensures |r| == |travelers|
  {
    if txs == [] then Zeros(|travelers|)
    else Add(ShareTotals(txs[..|txs| - 1], travelers), ShareVec(txs[|txs| - 1], travelers))
  }

  /** `calculateSettlement`: one row per traveler position, in order. */
  function Settlement(txs: seq<Transaction>, travelers: seq<Text>): (r: seq<SettlementItem>)
    ensures |r| == |travelers|
  {
    var paid := PaidTotals(txs, travelers);
    var share := ShareTotals(txs, travelers);
    seq(|travelers|, i requires 0 <= i < |travelers| =>
      SettlementItem(travelers[i], paid[i], share[i], share[i] - paid[i], ColorOf(travelers, i)))
  }

  function PaidColumn(rows: seq<SettlementItem>): seq<real>
  {
    seq(|rows|, i requires 0 <= i < |rows| => rows[i].totalPaid)
  }

  function ShareColumn(rows: seq<SettlementItem>): seq<real>
  {
    seq(|rows|, i requires 0 <= i < |rows| => rows[i].totalShare)
  }

  function BalanceColumn(rows: seq<SettlementItem>): seq<real>
  {
    seq(|rows|, i requires 0 <= i < |rows| => rows[i].balance)
  }

  /** `calculateTotalSpent`: the sum of the CNY amounts. */
  function TotalSpent(txs: seq<Transaction>): real
  {
    if txs == [] then 0.0 else TotalSpent(txs[..|txs| - 1]) + txs[|txs| - 1].amountCNY
  }

  /** A transaction the settlement accounts for in full: its payer travels;
    * an even split names a non-empty list of travelers; a treat names a
    * traveler. */
  predicate Settleable(tx: Transaction, travelers: seq<Text>)
  {
    && tx.payer in travelers
    && (tx.splitType == Even ==>
          tx.splitAmong.Some? && |tx.splitAmong.value| > 0 && forall p :: p in tx.splitAmong.value ==> p in travelers)
    && (tx.splitType == Treat ==> tx.treatedBy.Some? && tx.treatedBy.value != [] && tx.treatedBy.value in travelers)
  }

  /** `v` added up `k` times. */
  function Times(v: real, k: nat): real
  {
    if k == 0 then 0.0 else Times(v, k - 1) + v
  }

  lemma {:induction false} SplitSharesSum(people: seq<Text>, travelers: seq<Text>, per: real)
    requires forall p :: p in people ==> p in travelers
    ensures Sum(SplitShares(people, travelers, per)) == Times(per, |people|)
  {
    var n := |travelers|;
    if people == [] {
      SumUnit(n, -1, 0.0);
      assert Zeros(n) == Unit(n, -1, 0.0);
    } else {
      var init := people[..|people| - 1];
      var k := IndexOf(travelers, people[|people| - 1]);
      assert forall p :: p in init ==> p in people;
      SplitSharesSum(init, travelers, per);
      SumAdd(SplitShares(init, travelers, per), Unit(n, k, per));
      SumUnit(n, k, per);
    }
  }

  lemma {:induction false} TimesIsProduct(v: real, k: nat)
    ensures Times(v, k) == v * k as real
  {
    if k > 0 {
      TimesIsProduct(v, k - 1);
    }
  }

  /** The equal shares of an even split add back up to the amount. */
  lemma EqualSharesAddUp(people: seq<Text>, amount: real)
    requires people != []
    ensures Times(SharePerPerson(people, amount), |people|) == amount
  {
    TimesIsProduct(SharePerPerson(people, amount), |people|);
  }

  /** A settleable transaction's amount is paid once and borne once. */
  lemma TransactionSums(tx: Transaction, travelers: seq<Text>)
    requires Settleable(tx, travelers)
    ensures Sum(PaidVec(tx, travelers)) == tx.amountCNY
    ensures Sum(ShareVec(tx, travelers)) == tx.amountCNY
  {
    var n := |travelers|;
    var payer := IndexOf(travelers, tx.payer);
    SumUnit(n, payer, tx.amountCNY);
    if tx.splitType == Even {
      var people := tx.splitAmong.value;
      var per := SharePerPerson(people, tx.amountCNY);
      assert ShareVec(tx, travelers) == SplitShares(people, travelers, per);
      SplitSharesSum(people, travelers, per);
      EqualSharesAddUp(people, tx.amountCNY);
    } else if tx.splitType == Treat {
      var treater := IndexOf(travelers, tx.treatedBy.value);
      assert ShareVec(tx, travelers) == Unit(n, treater, tx.amountCNY);
      SumUnit(n, treater, tx.amountCNY);
    } else {
      assert ShareVec(tx, travelers) == Unit(n, payer, tx.amountCNY);
    }
  }

  /** Money is conserved: when every transaction is settleable, the rows'
    * paid totals and share totals both add up to the total spent. */
  lemma {:induction false} Conservation(txs: seq<Transaction>, travelers: seq<Text>)
    requires forall tx :: tx in txs ==> Settleable(tx, travelers)
    ensures Sum(PaidTotals(txs, travelers)) == TotalSpent(txs)
    ensures Sum(ShareTotals(txs, travelers)) == TotalSpent(txs)
  {
    var n := |travelers|;
    if txs == [] {
      SumUnit(n, -1, 0.0);
      assert Zeros(n) == Unit(n, -1, 0.0);
    } else {
      var init := txs[..|txs| - 1];
      var last := txs[|txs| - 1];
      assert forall tx :: tx in init ==> tx in txs;
      Conservation(init, travelers);
      TransactionSums(last, travelers);
      SumAdd(PaidTotals(init, travelers), PaidVec(last, travelers));
      SumAdd(ShareTotals(init, travelers), ShareVec(last, travelers));
    }
  }

  /** The report's columns: the paid and share columns each add up to the
    * total spent and the balances add up to zero. */
  lemma SettlementBalancesCancel(txs: seq<Transaction>, travelers: seq<Text>)
    requires forall tx :: tx in txs ==> Settleable(tx, travelers)
    ensures var rows := Settlement(txs, travelers);
      && Sum(PaidColumn(rows)) == TotalSpent(txs)
      && Sum(ShareColumn(rows)) == TotalSpent(txs)
      && Sum(BalanceColumn(rows)) == 0.0
  {
    Conservation(txs, travelers);
    SettlementColumns(txs, travelers);
    SumSub(ShareTotals(txs, travelers), PaidTotals(txs, travelers));
  }

  /** The columns of the report are the accumulated totals and their difference. */
  lemma SettlementColumns(txs: seq<Transaction>, travelers: seq<Text>)
    ensures var rows := Settlement(txs, travelers);
      && PaidColumn(rows) == PaidTotals(txs, travelers)
      && ShareColumn(rows) == ShareTotals(txs, travelers)
      && BalanceColumn(rows) == Sub(ShareTotals(txs, travelers), PaidTotals(txs, travelers))
  {
    var rows := Settlement(txs, travelers);
    var paid := PaidTotals(txs, travelers);
    var share := ShareTotals(txs, travelers);
    assert PaidColumn(rows) == paid;
    assert ShareColumn(rows) == share;
    assert forall i :: 0 <= i < |rows| ==> BalanceColumn(rows)[i] == Sub(share, paid)[i];
  }

  /** A transaction whose payer does not travel changes no row. */
  lemma UnknownPayerIgnored(txs: seq<Transaction>, tx: Transaction, travelers: seq<Text>)
    requires tx.payer !in travelers
    ensures Settlement(txs + [tx], travelers) == Settlement(txs, travelers)
  {
    assert (txs + [tx])[..|txs|] == txs;
    var n := |travelers|;
    assert Add(PaidTotals(txs, travelers), PaidVec(tx, travelers)) == PaidTotals(txs, travelers);
    assert Add(ShareTotals(txs, travelers), ShareVec(tx, travelers)) == ShareTotals(txs, travelers);
  }

  // ---------------------------------------------------------------------
  // The report as the source computes it

  /** The rows before the balances are filled in. */
  ghost predicate Accumulated(report: seq<SettlementItem>, travelers: seq<Text>, paid: seq<real>, share: seq<real>)
  {
    && |report| == |travelers| == |paid| == |share|
    && forall i :: 0 <= i < |report| ==>
         report[i] == SettlementItem(travelers[i], paid[i], share[i], 0.0, ColorOf(travelers, i))
  }

  /** The inner `splitAmong.forEach`: adds `per` to the share of each listed
    * person's first position. */
  method AddSplitShares(report: seq<SettlementItem>, people: seq<Text>, travelers: seq<Text>, per: real)
    returns (r: seq<SettlementItem>)
    requires |report| == |travelers|
    ensures |r| == |report|
    ensures forall i :: 0 <= i < |r| ==>
      r[i] == report[i].(totalShare := report[i].totalShare + SplitShares(people, travelers, per)[i])
  {
    r := report;
    var j := 0;
    while j < |people|
      invariant 0 <= j <= |people| && |r| == |report|
      invariant forall i :: 0 <= i < |r| ==>
        r[i] == report[i].(totalShare := report[i].totalShare + SplitShares(people[..j], travelers, per)[i])
    {
      assert people[..j + 1][..j] == people[..j];
      var index := IndexOf(travelers, people[j]);
      if index != -1 {
        r := r[index := r[index].(totalShare := r[index].totalShare + per)];
      }
      j := j + 1;
    }
    assert people[..j] == people;
  }

  /** The body of `transactions.forEach`: the payer's paid total, then the
    * share by split rule; nothing at all for a payer who does not travel. */
  method ApplyTransaction(report: seq<SettlementItem>, tx: Transaction, travelers: seq<Text>)
    returns (r: seq<SettlementItem>)
    requires |report| == |travelers|
    ensures |r| == |report|
    ensures forall i :: 0 <= i < |r| ==>
      r[i] == report[i].(totalPaid := report[i].totalPaid + PaidVec(tx, travelers)[i],
                         totalShare := report[i].totalShare + ShareVec(tx, travelers)[i])
  {
    var payerIndex := IndexOf(travelers, tx.payer);
    if payerIndex == -1 {
      return report;
    }
    r := report[payerIndex := report[payerIndex].(totalPaid := report[payerIndex].totalPaid + tx.amountCNY)];
    if tx.splitType == Even && tx.splitAmong.Some? {
      var people := tx.splitAmong.value;
      r := AddSplitShares(r, people, travelers, SharePerPerson(people, tx.amountCNY));
    } else if tx.splitType == Treat && tx.treatedBy.Some? && tx.treatedBy.value != [] {
      var treaterIndex := IndexOf(travelers, tx.treatedBy.value);
      if treaterIndex != -1 {
        r := r[treaterIndex := r[treaterIndex].(totalShare := r[treaterIndex].totalShare + tx.amountCNY)];
      }
    } else if tx.splitType == NoSplit {
      r := r[payerIndex := r[payerIndex].(totalShare := r[payerIndex].totalShare + tx.amountCNY)];
    }
  }

  /** One more transaction applied row-wise keeps the rows accumulated. */
  lemma AccumulateOne(report: seq<SettlementItem>, r: seq<SettlementItem>, txs: seq<Transaction>, tx: Transaction,
                      travelers: seq<Text>)
    requires Accumulated(report, travelers, PaidTotals(txs, travelers), ShareTotals(txs, travelers))
    requires |r| == |report|
    requires forall i :: 0 <= i < |r| ==>
      r[i] == report[i].(totalPaid := report[i].totalPaid + PaidVec(tx, travelers)[i],
                         totalShare := report[i].totalShare + ShareVec(tx, travelers)[i])
    ensures Accumulated(r, travelers, PaidTotals(txs + [tx], travelers), ShareTotals(txs + [tx], travelers))
  {
    var all := txs + [tx];
    assert all[..|all| - 1] == txs && all[|all| - 1] == tx;
    var paid := PaidTotals(all, travelers);
    var share := ShareTotals(all, travelers);
    assert paid == Add(PaidTotals(txs, travelers), PaidVec(tx, travelers));
    assert share == Add(ShareTotals(txs, travelers), ShareVec(tx, travelers));
    forall i | 0 <= i < |r|
      ensures r[i] == SettlementItem(travelers[i], paid[i], share[i], 0.0, ColorOf(travelers, i))
    {
      assert paid[i] == PaidTotals(txs, travelers)[i] + PaidVec(tx, travelers)[i];
      assert share[i] == ShareTotals(txs, travelers)[i] + ShareVec(tx, travelers)[i];
    }
  }

  /** `report.forEach(item => item.balance = ...)`: each row's balance is
    * its share less what it paid. */
  method FillBalances(report: seq<SettlementItem>) returns (r: seq<SettlementItem>)
    ensures |r| == |report|
    ensures forall i :: 0 <= i < |r| ==> r[i] == report[i].(balance := report[i].totalShare - report[i].totalPaid)
  {
    r := report;
    var j := 0;
    while j < |r|
      invariant 0 <= j <= |r| && |r| == |report|
      invariant forall i :: 0 <= i < |r| ==>
        r[i] == if i < j then report[i].(balance := report[i].totalShare - report[i].totalPaid) else report[i]
    {
      r := r[j := r[j].(balance := r[j].totalShare - r[j].totalPaid)];
      j := j + 1;
    }
  }

  /** `calculateSettlement`. */
  method CalculateSettlement(transactions: seq<Transaction>, travelers: seq<Text>) returns (report: seq<SettlementItem>)
    ensures report == Settlement(transactions, travelers)
  {
    var n := |travelers|;
    report := seq(n, i requires 0 <= i < n => SettlementItem(travelers[i], 0.0, 0.0, 0.0, ColorOf(travelers, i)));
    StartAccumulated(travelers);
    assert transactions[..0] == [];
    var k := 0;
    while k < |transactions|
      invariant 0 <= k <= |transactions|
      invariant Accumulated(report, travelers, PaidTotals(transactions[..k], travelers), ShareTotals(transactions[..k], travelers))
    {
      var next := ApplyTransaction(report, transactions[k], travelers);
      AccumulateOne(report, next, transactions[..k], transactions[k], travelers);
      assert transactions[..k + 1] == transactions[..k] + [transactions[k]];
      report := next;
      k := k + 1;
    }
    assert transactions[..k] == transactions;
    var filled := FillBalances(report);
    BalancesCompleteSettlement(report, filled, transactions, travelers);
    report := filled;
  }

  /** Rows accumulated over all transactions, with their balances filled
    * in, are the settlement. */
  lemma BalancesCompleteSettlement(report: seq<SettlementItem>, r: seq<SettlementItem>, txs: seq<Transaction>,
                                   travelers: seq<Text>)
    requires Accumulated(report, travelers, PaidTotals(txs, travelers), ShareTotals(txs, travelers))
    requires |r| == |report|
    requires forall i :: 0 <= i < |r| ==> r[i] == report[i].(balance := report[i].totalShare - report[i].totalPaid)
    ensures r == Settlement(txs, travelers)
  {
    var s := Settlement(txs, travelers);
    assert |r| == |s|;
    forall i | 0 <= i < |r|
      ensures r[i] == s[i]
    {
    }
  }

  /** The rows start at zero. */
  lemma StartAccumulated(travelers: seq<Text>)
    ensures Accumulated(seq(|travelers|, i requires 0 <= i < |travelers| => SettlementItem(travelers[i], 0.0, 0.0, 0.0, ColorOf(travelers, i))),
                        travelers, PaidTotals([], travelers), ShareTotals([], travelers))
  {
  }

  // ---------------------------------------------------------------------
  // Totals for one person

  /** `calculatePersonalSpent`: what `traveler` paid. */
  function PersonalSpent(txs: seq<Transaction>, traveler: Text): real
  {
    if txs == [] then 0.0
    else
      var tx := txs[|txs| - 1];
      PersonalSpent(txs[..|txs| - 1], traveler) + (if tx.payer == traveler then tx.amountCNY else 0.0)
  }

  /** What one transaction asks of `traveler` in `calculatePersonalShare`:
    * an even split charges a listed traveler one share however often they
    * are listed. */
  function ShareFor(tx: Transaction, traveler: Text): real
  {
    if tx.splitType == Even && tx.splitAmong.Some? then
      (if traveler in tx.splitAmong.value then SharePerPerson(tx.splitAmong.value, tx.amountCNY) else 0.0)
    else if tx.splitType == Treat && tx.treatedBy.Some? && tx.treatedBy.value != [] then
      (if tx.treatedBy.value == traveler then tx.amountCNY else 0.0)
    else if tx.splitType == NoSplit then
      (if tx.payer == traveler then tx.amountCNY else 0.0)
    else 0.0
  }

  function PersonalShare(txs: seq<Transaction>, traveler: Text): real
  {
    if txs == [] then 0.0 else PersonalShare(txs[..|txs| - 1], traveler) + ShareFor(txs[|txs| - 1], traveler)
  }

  /** `calculatePersonalShare`. */
  method CalculatePersonalShare(transactions: seq<Transaction>, traveler: Text) returns (share: real)
    ensures share == PersonalShare(transactions, traveler)
  {
    share := 0.0;
    var k := 0;
    while k < |transactions|
      invariant 0 <= k <= |transactions|
      invariant share == PersonalShare(transactions[..k], traveler)
    {
      assert transactions[..k + 1][..k] == transactions[..k];
      var tx := transactions[k];
      if tx.splitType == Even && tx.splitAmong.Some? {
        if traveler in tx.splitAmong.value {
          share := share + tx.amountCNY / |tx.splitAmong.value| as real;
        }
      } else if tx.splitType == Treat && tx.treatedBy.Some? && tx.treatedBy.value != [] {
        if tx.treatedBy.value == traveler {
          share := share + tx.amountCNY;
        }
      } else if tx.splitType == NoSplit && tx.payer == traveler {
        share := share + tx.amountCNY;
      }
      k := k + 1;
    }
    assert transactions[..k] == transactions;
  }

  lemma IndexOfDistinct(travelers: seq<Text>, i: int, x: Text)
    requires Distinct(travelers) && 0 <= i < |travelers|
    ensures IndexOf(travelers, x) == i <==> x == travelers[i]
  {
    var r := IndexOf(travelers, x);
    if x == travelers[i] {
      assert r >= 0;
    }
  }

  lemma {:induction false} SplitSharesAt(people: seq<Text>, travelers: seq<Text>, per: real, i: int)
    requires Distinct(travelers) && Distinct(people) && 0 <= i < |travelers|
    ensures SplitShares(people, travelers, per)[i] == if travelers[i] in people then per else 0.0
  {
    if people != [] {
      var init := people[..|people| - 1];
      var last := people[|people| - 1];
      assert Distinct(init);
      assert last !in init;
      assert people == init + [last];
      SplitSharesAt(init, travelers, per, i);
      IndexOfDistinct(travelers, i, last);
    }
  }

  /** One transaction adds the same to a row's share as to that traveler's
    * personal share, when names are unique and the payer travels. */
  lemma ShareVecAt(tx: Transaction, travelers: seq<Text>, i: int)
    requires Distinct(travelers) && 0 <= i < |travelers| && tx.payer in travelers
    requires tx.splitAmong.Some? ==> Distinct(tx.splitAmong.value)
    ensures ShareVec(tx, travelers)[i] == ShareFor(tx, travelers[i])
    ensures PaidVec(tx, travelers)[i] == if tx.payer == travelers[i] then tx.amountCNY else 0.0
  {
    IndexOfDistinct(travelers, i, tx.payer);
    if tx.splitType == Even && tx.splitAmong.Some? {
      SplitSharesAt(tx.splitAmong.value, travelers, SharePerPerson(tx.splitAmong.value, tx.amountCNY), i);
    } else if tx.splitType == Treat && tx.treatedBy.Some? && tx.treatedBy.value != [] {
      IndexOfDistinct(travelers, i, tx.treatedBy.value);
    }
  }

  /** The report's row for a traveler agrees with `calculatePersonalSpent`
    * and `calculatePersonalShare` when traveler names are unique, every
    * payer travels and no split list names anybody twice. */
  lemma {:induction false} RowsMatchPersonalTotals(txs: seq<Transaction>, travelers: seq<Text>, i: int)
    requires Distinct(travelers) && 0 <= i < |travelers|
    requires forall tx :: tx in txs ==> tx.payer in travelers && (tx.splitAmong.Some? ==> Distinct(tx.splitAmong.value))
    ensures Settlement(txs, travelers)[i].totalPaid == PersonalSpent(txs, travelers[i])
    ensures Settlement(txs, travelers)[i].totalShare == PersonalShare(txs, travelers[i])
  {
    if txs != [] {
      var init := txs[..|txs| - 1];
      assert forall tx :: tx in init ==> tx in txs;
      RowsMatchPersonalTotals(init, travelers, i);
      ShareVecAt(txs[|txs| - 1], travelers, i);
    }
  }

  /** Without the duplicate-free condition the two totals part: a traveler
    * named twice in an even split is charged once per listing in the report,
    * but only once by `calculatePersonalShare`. */
  lemma DuplicateSharerChargedTwice(p: Text, amount: real)
    requires amount != 0.0
    ensures var tx := Transaction([], [], 0.0, amount, p, Even, Some([p, p]), None, 0, [], []);
      && Settlement([tx], [p])[0].totalShare == amount
      && PersonalShare([tx], p) == amount / 2.0
      && Settlement([tx], [p])[0].totalShare != PersonalShare([tx], p)
  {
    var tx := Transaction([], [], 0.0, amount, p, Even, Some([p, p]), None, 0, [], []);
    var half := amount / 2.0;
    assert [tx][..0] == [];
    assert [p, p][..1] == [p];
    assert [p][..0] == [];
    assert IndexOf([p], p) == 0;
    var none := SplitShares([], [p], half);
    assert none[0] == 0.0;
    var one := SplitShares([p], [p], half);
    assert one == Add(none, Unit(1, 0, half));
    assert one[0] == half;
    var two := SplitShares([p, p], [p], half);
    assert two == Add(one, Unit(1, 0, half));
    assert two[0] == amount;
    assert two == [amount];
    assert SharePerPerson([p, p], amount) == half;
    assert ShareVec(tx, [p]) == [amount];
    assert ShareTotals([tx], [p]) == [amount];
  }

  // ---------------------------------------------------------------------
  // Grouping by day

  /** The days in order of first appearance (a `Map`'s key order). */
  function Dates(txs: seq<Transaction>): seq<Text>
  {
    if txs == [] then []
    else
      var init := Dates(txs[..|txs| - 1]);
      var d := txs[|txs| - 1].date;
      if d in init then init else init + [d]
  }

  /** The transactions of one day, in input order. */
  function OnDate(txs: seq<Transaction>, date: Text): seq<Transaction>
  {
    if txs == [] then []
    else
      var init := OnDate(txs[..|txs| - 1], date);
      if txs[|txs| - 1].date == date then init + [txs[|txs| - 1]] else init
  }

  function Group(txs: seq<Transaction>, date: Text): TransactionsByDate
  {
    TransactionsByDate(date, OnDate(txs, date), TotalSpent(OnDate(txs, date)))
  }

  function Groups(txs: seq<Transaction>): seq<TransactionsByDate>
  {
    var dates := Dates(txs);
    seq(|dates|, i requires 0 <= i < |dates| => Group(txs, dates[i]))
  }

  /** `groupTransactionsByDate`: the groups, latest day first; `timeOf` is
    * the instant a day string denotes. */
  function GroupsByDate(txs: seq<Transaction>, timeOf: Text -> real): seq<TransactionsByDate>
  {
    StableSort.SortDesc(Groups(txs), (g: TransactionsByDate) => timeOf(g.date))
  }

  lemma {:induction false} DatesFacts(txs: seq<Transaction>)
    ensures Distinct(Dates(txs))
    ensures forall d :: d in Dates(txs) <==> exists t :: t in txs && t.date == d
  {
    if txs != [] {
      var init := txs[..|txs| - 1];
      DatesFacts(init);
      assert txs == init + [txs[|txs| - 1]];
    }
  }

  lemma {:induction false} OnDateFacts(txs: seq<Transaction>, date: Text)
    ensures forall t :: t in OnDate(txs, date) <==> t in txs && t.date == date
  {
    if txs != [] {
      var init := txs[..|txs| - 1];
      OnDateFacts(init, date);
      assert txs == init + [txs[|txs| - 1]];
    }
  }

  lemma DistinctCounts<T>(s: seq<T>, x: T)
    requires Distinct(s)
    ensures multiset(s)[x] <= 1
  {
    if s != [] {
      var init := s[..|s| - 1];
      assert s == init + [s[|s| - 1]];
      assert Distinct(init);
      DistinctCounts(init, x);
      if x == s[|s| - 1] {
        assert x !in init;
      }
    }
  }

  lemma RepeatCounted<T>(t: seq<T>, i: int, j: int)
    requires 0 <= i < j < |t| && t[i] == t[j]
    ensures multiset(t)[t[i]] >= 2
  {
    assert t == t[..j] + [t[j]] + t[j + 1..];
    assert t[i] in t[..j];
  }

  lemma PermutationDistinct<T>(s: seq<T>, t: seq<T>)
    requires Distinct(s) && multiset(s) == multiset(t)
    ensures Distinct(t)
  {
    forall i, j | 0 <= i < j < |t|
      ensures t[i] != t[j]
    {
      if t[i] == t[j] {
        DistinctCounts(s, t[i]);
        RepeatCounted(t, i, j);
      }
    }
  }

  /** Before sorting: one group per day, each determined by its day. */
  lemma GroupsFacts(txs: seq<Transaction>)
    ensures Distinct(Groups(txs))
    ensures forall g :: g in Groups(txs) ==> g == Group(txs, g.date)
    ensures forall t :: t in txs ==> Group(txs, t.date) in Groups(txs)
  {
    var groups := Groups(txs);
    var dates := Dates(txs);
    DatesFacts(txs);
    forall i, j | 0 <= i < j < |groups| ensures groups[i] != groups[j] {
      assert groups[i].date == dates[i];
    }
    forall t | t in txs ensures Group(txs, t.date) in groups {
      assert t.date in dates;
      var i :| 0 <= i < |dates| && dates[i] == t.date;
      assert groups[i] == Group(txs, t.date);
    }
  }

  /** The groups partition the transactions by day: one group per day,
    * holding exactly that day's transactions in input order and their sum,
    * latest day first, and a permutation of the days' groups. */
  lemma GroupsByDateFacts(txs: seq<Transaction>, timeOf: Text -> real)
    ensures var r := GroupsByDate(txs, timeOf);
      && multiset(r) == multiset(Groups(txs))
      && StableSort.SortedDesc(r, (g: TransactionsByDate) => timeOf(g.date))
      && (forall i, j :: 0 <= i < j < |r| ==> r[i].date != r[j].date)
      && (forall g :: g in r ==> g.transactions == OnDate(txs, g.date) && g.totalAmount == TotalSpent(g.transactions))
      && (forall g, t :: g in r ==> (t in g.transactions <==> t in txs && t.date == g.date))
      && (forall t :: t in txs ==> exists g :: g in r && g.date == t.date)
  {
    var key := (g: TransactionsByDate) => timeOf(g.date);
    var r := GroupsByDate(txs, timeOf);
    var groups := Groups(txs);
    StableSort.SortDescIsPermutation(groups, key);
    StableSort.SortDescIsSorted(groups, key);
    GroupsFacts(txs);
    assert forall g :: g in r <==> g in groups by {
      forall g ensures g in r <==> g in groups {
        assert g in r <==> g in multiset(r);
      }
    }
    PermutationDistinct(groups, r);
    forall g, t | g in r ensures t in g.transactions <==> t in txs && t.date == g.date {
      OnDateFacts(txs, g.date);
    }
  }

  lemma {:induction false} OnDateOfUnknownDate(txs: seq<Transaction>, date: Text)
    requires date !in Dates(txs)
    ensures OnDate(txs, date) == []
  {
    if txs != [] {
      OnDateOfUnknownDate(txs[..|txs| - 1], date);
    }
  }

  /** `groupTransactionsByDate`: buckets by day in a map, keeping the order
    * days first appear in, then sorts the groups latest day first. */
  method GroupTransactionsByDate(transactions: seq<Transaction>, timeOf: Text -> real)
    returns (result: seq<TransactionsByDate>)
    ensures result == GroupsByDate(transactions, timeOf)
  {
    var dates: seq<Text> := [];
    var grouped: map<Text, seq<Transaction>> := map[];
    var k := 0;
    while k < |transactions|
      invariant 0 <= k <= |transactions|
      invariant dates == Dates(transactions[..k])
      invariant forall d :: d in grouped <==> d in dates
      invariant forall d :: d in grouped ==> grouped[d] == OnDate(transactions[..k], d)
    {
      assert transactions[..k + 1][..k] == transactions[..k];
      var date := transactions[k].date;
      if date !in grouped {
        OnDateOfUnknownDate(transactions[..k], date);
        dates := dates + [date];
        grouped := grouped[date := []];
      }
      grouped := grouped[date := grouped[date] + [transactions[k]]];
      k := k + 1;
    }
    assert transactions[..k] == transactions;
    var groups := seq(|dates|, i requires 0 <= i < |dates| =>
      TransactionsByDate(dates[i], grouped[dates[i]], TotalSpent(grouped[dates[i]])));
    assert groups == Groups(transactions);
    result := StableSort.SortDesc(groups, (g: TransactionsByDate) => timeOf(g.date));
  }

  // ---------------------------------------------------------------------
  // Currency conversion

  /** `convertKRWToCNY`: KRW divided by the rate; no finite amount when the
    * rate is zero. */
  function ConvertKRWToCNY(amountKRW: real, rate: real): (r: Option<real>)
    ensures r.Some? <==> rate != 0.0
    ensures r.Some? ==> r.value * rate == amountKRW
  {
    if rate == 0.0 then None else Some(amountKRW / rate)
  }

  /** `convertCNYToKRW`: CNY times the rate. */
  function ConvertCNYToKRW(amountCNY: real, rate: real): real
  {
    amountCNY * rate
  }

  /** With a non-zero rate the two conversions undo each other. */
  lemma ConversionRoundTrip(amount: real, rate: real)
    requires rate != 0.0
    ensures ConvertKRWToCNY(ConvertCNYToKRW(amount, rate), rate) == Some(amount)
    ensures ConvertCNYToKRW(ConvertKRWToCNY(amount, rate).value, rate) == amount
  {
    assert (amount * rate) / rate == amount;
  }
}
