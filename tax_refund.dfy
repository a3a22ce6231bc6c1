/**
 * The tax-refund card: the refund table for purchases in KRW, the refund
 * reached by an amount, how much more must be spent to reach the next tier,
 * and the refund in CNY.
 */
module TaxRefund {
  import opened Wrappers

  /** A purchase of at least `min` won earns `refund` won back. */
  datatype Tier = Tier(min: real, refund: real)

  const RefundTiers: seq<Tier> := [
    Tier(15000.0, 1000.0),
    Tier(30000.0, 2000.0),
    Tier(50000.0, 3500.0),
    Tier(75000.0, 5000.0),
    Tier(100000.0, 6500.0),
    Tier(125000.0, 8000.0),
    Tier(150000.0, 9500.0),
    Tier(175000.0, 11000.0),
    Tier(200000.0, 12500.0),
    Tier(250000.0, 16000.0),
    Tier(300000.0, 19500.0),
    Tier(400000.0, 26500.0),
    Tier(500000.0, 33500.0)
  ]

  /** Below this amount no refund is given. */
  const MinimumPurchase: real := 15000.0

  /** How far the next tier is, and where it starts. */
  datatype NextTierInfo = NextTierInfo(needed: real, nextMin: real)

  /** Every tier refunds something; later tiers start higher and refund more. */
  predicate Ascending(ts: seq<Tier>)
  {
    && (forall i :: 0 <= i < |ts| ==> ts[i].refund > 0.0)
    && (forall i, j :: 0 <= i < j < |ts| ==> ts[i].min < ts[j].min && ts[i].refund < ts[j].refund)
  }

  /** Each tier starts higher and refunds more than the one before it. */
  predicate StepsUp(ts: seq<Tier>)
  {
    && (forall i :: 0 <= i < |ts| ==> ts[i].refund > 0.0)
    && (forall i :: 0 <= i < |ts| - 1 ==> ts[i].min < ts[i + 1].min && ts[i].refund < ts[i + 1].refund)
  }

  /** Steps up from one tier to the next make the whole table ascending. */
  lemma {:induction false} StepsUpAscending(ts: seq<Tier>)
    requires StepsUp(ts)
    ensures Ascending(ts)
  {
    if |ts| > 1 {
      var init := ts[..|ts| - 1];
      assert StepsUp(init);
      StepsUpAscending(init);
      forall i | 0 <= i < |ts| - 1
        ensures ts[i].min < ts[|ts| - 1].min && ts[i].refund < ts[|ts| - 1].refund
      {
        if i < |ts| - 2 {
          assert init[i] == ts[i] && init[|ts| - 2] == ts[|ts| - 2];
        }
      }
    }
  }

  lemma RefundTiersAscending()
    ensures Ascending(RefundTiers)
    ensures RefundTiers[0].min == MinimumPurchase && RefundTiers[|RefundTiers| - 1].min == 500000.0
  {
    TiersStepUp();
    StepsUpAscending(RefundTiers);
  }

  /** The table's minimums and refunds, entry by entry. */
  lemma TierValues()
    ensures |RefundTiers| == 13
    ensures RefundTiers[0] == Tier(15000.0, 1000.0) && RefundTiers[1] == Tier(30000.0, 2000.0)
    ensures RefundTiers[2] == Tier(50000.0, 3500.0) && RefundTiers[3] == Tier(75000.0, 5000.0)
    ensures RefundTiers[4] == Tier(100000.0, 6500.0) && RefundTiers[5] == Tier(125000.0, 8000.0)
    ensures RefundTiers[6] == Tier(150000.0, 9500.0) && RefundTiers[7] == Tier(175000.0, 11000.0)
    ensures RefundTiers[8] == Tier(200000.0, 12500.0) && RefundTiers[9] == Tier(250000.0, 16000.0)
    ensures RefundTiers[10] == Tier(300000.0, 19500.0) && RefundTiers[11] == Tier(400000.0, 26500.0)
    ensures RefundTiers[12] == Tier(500000.0, 33500.0)
  {
  }

  lemma TiersStepUp()
    ensures StepsUp(RefundTiers)
  {
    TierValues();
    var t := RefundTiers;
    forall i | 0 <= i < |t|
      ensures t[i].refund > 0.0
    {
      assert i in {0, 1, 2, 3, 4, 5, 6, 7, 8, 9, 10, 11, 12};
    }
    forall i | 0 <= i < |t| - 1
      ensures t[i].min < t[i + 1].min && t[i].refund < t[i + 1].refund
    {
      assert i in {0, 1, 2, 3, 4, 5, 6, 7, 8, 9, 10, 11};
    }
  }

  /** The highest tier `amount` reaches, or -1. */
  function Reached(ts: seq<Tier>, amount: real): (i: int)
    ensures -1 <= i < |ts|
    ensures i >= 0 ==> ts[i].min <= amount
    ensures forall j :: i < j < |ts| ==> ts[j].min > amount
  {
    if ts == [] then -1
    else if ts[|ts| - 1].min <= amount then |ts| - 1
    else Reached(ts[..|ts| - 1], amount)
  }

  /** The first tier that starts above `amount`, or -1 (`Array.find`). */
  function FirstAbove(ts: seq<Tier>, amount: real): (i: int)
    ensures -1 <= i < |ts|
    ensures i >= 0 ==> ts[i].min > amount
    ensures forall j :: 0 <= j < |ts| && (i < 0 || j < i) ==> ts[j].min <= amount
  {
    if ts == [] then -1
    else if ts[0].min > amount then 0
    else
      var k := FirstAbove(ts[1..], amount);
      if k < 0 then -1 else k + 1
  }

  /** The refund of the highest tier of `ts` that `amount` reaches, or 0. */
  function RefundIn(ts: seq<Tier>, amount: real): real
  {
    var i := Reached(ts, amount);
    if i < 0 then 0.0 else ts[i].refund
  }

  /** The refund `getCurrentRefund` gives: none below the minimum purchase,
    * otherwise that of the highest tier reached. */
  function CurrentRefund(amount: real): real
  {
    if amount < MinimumPurchase then 0.0 else RefundIn(RefundTiers, amount)
  }

  /** `getCurrentRefund`: scans the table from the top and stops at the first
    * tier reached. */
  method GetCurrentRefund(amount: real) returns (refund: real)
    ensures refund == CurrentRefund(amount)
  {
    if amount < MinimumPurchase {
      return 0.0;
    }
    refund := 0.0;
    var i := |RefundTiers| - 1;
    while i >= 0
      invariant -1 <= i < |RefundTiers|
      invariant forall j :: i < j < |RefundTiers| ==> RefundTiers[j].min > amount
    {
      if amount >= RefundTiers[i].min {
        refund := RefundTiers[i].refund;
        break;
      }
      i := i - 1;
    }
    ReachedIsHighest(RefundTiers, amount, i);
  }

  /** Any index meeting the contract of `Reached` is `Reached`. */
  lemma ReachedIsHighest(ts: seq<Tier>, amount: real, i: int)
    requires -1 <= i < |ts|
    requires i >= 0 ==> ts[i].min <= amount
    requires forall j :: i < j < |ts| ==> ts[j].min > amount
    ensures Reached(ts, amount) == i
  {
  }

  lemma RefundInMonotonic(ts: seq<Tier>, a: real, b: real)
    requires Ascending(ts) && a <= b
    ensures RefundIn(ts, a) <= RefundIn(ts, b)
  {
    var i := Reached(ts, a);
    var j := Reached(ts, b);
    if 0 <= i < j {
      assert ts[i].refund < ts[j].refund;
    }
  }

  /** The first tier above `amount` is the one after the highest reached. */
  lemma FirstAboveFollowsReached(ts: seq<Tier>, amount: real)
    requires Ascending(ts)
    ensures FirstAbove(ts, amount) == if Reached(ts, amount) + 1 < |ts| then Reached(ts, amount) + 1 else -1
  {
    var i := Reached(ts, amount);
    var k := FirstAbove(ts, amount);
    if i + 1 < |ts| {
      assert ts[i + 1].min > amount;
      assert k == i + 1;
    } else {
      assert k == -1;
    }
  }

  lemma NextMinRaisesRefund(ts: seq<Tier>, amount: real)
    requires Ascending(ts) && FirstAbove(ts, amount) >= 0
    ensures RefundIn(ts, ts[FirstAbove(ts, amount)].min) > RefundIn(ts, amount)
  {
    var k := FirstAbove(ts, amount);
    FirstAboveFollowsReached(ts, amount);
    ReachedIsHighest(ts, ts[k].min, k);
    if k > 0 {
      assert ts[k - 1].refund < ts[k].refund;
    }
  }

  /** The refund is that of the highest tier whose minimum the amount
    * reaches, and every tier reached refunds no more. */
  lemma CurrentRefundIsHighestTier(amount: real)
    ensures amount < MinimumPurchase <==> CurrentRefund(amount) == 0.0
    ensures amount >= MinimumPurchase ==>
      exists i :: 0 <= i < |RefundTiers| && RefundTiers[i].min <= amount && CurrentRefund(amount) == RefundTiers[i].refund
    ensures forall i :: 0 <= i < |RefundTiers| && RefundTiers[i].min <= amount ==> RefundTiers[i].refund <= CurrentRefund(amount)
  {
    RefundTiersAscending();
    var ts := RefundTiers;
    var i := Reached(ts, amount);
    if amount >= MinimumPurchase {
      assert ts[0].min <= amount;
      assert i >= 0;
    }
  }

  /** Spending more never lowers the refund. */
  lemma CurrentRefundMonotonic(a: real, b: real)
    requires a <= b
    ensures CurrentRefund(a) <= CurrentRefund(b)
  {
    RefundTiersAscending();
    RefundInMonotonic(RefundTiers, a, b);
  }

  /** `getNextTierInfo`: the first tier above the amount, if any. */
  function NextTier(amount: real): Option<NextTierInfo>
  {
    var i := FirstAbove(RefundTiers, amount);
    if i < 0 then None else Some(NextTierInfo(RefundTiers[i].min - amount, RefundTiers[i].min))
  }

  /** There is a next tier exactly below 500000 won; it is the lowest tier
    * minimum above the amount, so more must be spent to reach it. */
  lemma NextTierFacts(amount: real)
    ensures NextTier(amount).None? <==> amount >= 500000.0
    ensures NextTier(amount).Some? ==>
      var info := NextTier(amount).value;
      && info.needed > 0.0 && info.needed == info.nextMin - amount
      && (exists i :: 0 <= i < |RefundTiers| && RefundTiers[i].min == info.nextMin)
      && forall i :: 0 <= i < |RefundTiers| && RefundTiers[i].min > amount ==> info.nextMin <= RefundTiers[i].min
  {
    RefundTiersAscending();
    var ts := RefundTiers;
    var k := FirstAbove(ts, amount);
    if amount < 500000.0 {
      assert ts[|ts| - 1].min > amount;
    }
  }

  /** Reaching the next tier raises the refund. */
  lemma NextTierRaisesRefund(amount: real)
    requires NextTier(amount).Some?
    ensures CurrentRefund(NextTier(amount).value.nextMin) > CurrentRefund(amount)
  {
    RefundTiersAscending();
    var ts := RefundTiers;
    var k := FirstAbove(ts, amount);
    NextMinRaisesRefund(ts, amount);
    assert ts[k].min >= ts[0].min;
    if amount < MinimumPurchase {
      assert RefundIn(ts, ts[k].min) >= ts[0].refund;
    }
  }

  /** The refund in CNY: the won refund times the rate, or 0 without a
    * usable rate. */
  function RefundCNY(refundKRW: real, rate: Option<real>): (r: real)
    ensures rate.Some? ==> r == refundKRW * rate.value
    ensures rate.None? ==> r == 0.0
  {
    if rate.Some? && rate.value != 0.0 then refundKRW * rate.value else 0.0
  }
}
