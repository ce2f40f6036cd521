/** What a whole plan spends: each bid is held against the keeper's inventory by itself, so bids that buy
    into one slot share what they were each promised in full. */
module Spending {
  import opened Words
  import opened Division
  import opened FixedPoint
  import opened Accounts
  import Math = SdkMath
  import opened Sdk
  import opened Planner

  /** What the bids of a plan pay into slot `b`. */
  function SpentOn(plan: seq<Action>, b: nat): int {
    if plan == [] then 0
    else
      var a := plan[|plan| - 1];
      SpentOn(plan[..|plan| - 1], b) + (if a.ActBid? && a.buy == b then a.maxBuyAmount else 0)
  }

  /** How many bids of a plan buy into slot `b`. */
  function BidsOn(plan: seq<Action>, b: nat): nat {
    if plan == [] then 0
    else
      var a := plan[|plan| - 1];
      BidsOn(plan[..|plan| - 1], b) + (if a.ActBid? && a.buy == b then 1 else 0)
  }

  /** Every bid of a plan that buys into slot `b` pays at most `budget`. */
  ghost predicate EachWithin(plan: seq<Action>, b: nat, budget: int) {
    forall i :: 0 <= i < |plan| && plan[i].ActBid? && plan[i].buy == b ==> plan[i].maxBuyAmount <= budget
  }

  lemma {:induction false} SpentIsBounded(plan: seq<Action>, b: nat, budget: int)
    requires EachWithin(plan, b, budget)
    ensures SpentOn(plan, b) <= BidsOn(plan, b) * budget
  {
    if plan == [] {
    } else {
      SpentIsBounded(plan[..|plan| - 1], b, budget);
    }
  }

  /** Slots from `s` on, other than `b`, that have something to sell. */
  function Sellers(x: PlanInput, b: nat, s: nat): nat
    requires s <= Slots(x)
    decreases Slots(x) - s
  {
    if s == Slots(x) then 0
    else Sellers(x, b, s + 1) + BuysInto(x, b, s, b)
  }

  /** One if the pair of `s` and `b'` can buy into `b` at all. */
  function BuysInto(x: PlanInput, b: nat, s: nat, b': nat): nat
    requires s < Slots(x)
  {
    if b' == b && s != b && AuctionLeg(x.snapshot, s).sellable > 0 then 1 else 0
  }

  /** The pairs still to be searched that could buy into `b`. */
  function SellersAhead(x: PlanInput, b: nat, s: nat, b': nat): nat
    requires s <= Slots(x)
  {
    if b' <= b || s == Slots(x) then Sellers(x, b, s) else Sellers(x, b, s + 1)
  }

  lemma OnePairLess(x: PlanInput, b: nat, s: nat, b': nat)
    requires s < Slots(x) && b < Slots(x)
    ensures SellersAhead(x, b, s, b') == SellersAhead(x, b, s, b' + 1) + BuysInto(x, b, s, b')
    ensures SellersAhead(x, b, s, Slots(x)) == SellersAhead(x, b, s + 1, 0)
  {
  }

  /** A pair plans at most one bid, within the budget of its own slot, and only if it has something to
      sell. */
  lemma PairBuys(x: PlanInput, premium: int, s: nat, b': nat, b: nat, pair: seq<Action>)
    requires s < Slots(x) && b' < Slots(x) && b < Slots(x) && PlanPair(x, premium, s, b') == Some(pair)
    ensures |pair| <= 1 && BidsOn(pair, b) <= BuysInto(x, b, s, b') && EachWithin(pair, b, Budget(x, b))
  {
    if pair != [] {
      assert pair[..0] == [];
    }
  }

  lemma OneMore(done: seq<Action>, pair: seq<Action>, b: nat, budget: int)
    requires |pair| <= 1 && EachWithin(done, b, budget) && EachWithin(pair, b, budget)
    ensures BidsOn(done + pair, b) == BidsOn(done, b) + BidsOn(pair, b) && EachWithin(done + pair, b, budget)
  {
    if pair == [] {
      assert done + pair == done;
    } else {
      assert (done + pair)[..|done|] == done && pair[..0] == [];
    }
  }

  /** The search in its own steps: the next pair, or the next row. */
  lemma SearchSteps(x: PlanInput, premium: int, s: nat, b': nat, done: seq<Action>, plan: seq<Action>)
    requires s < Slots(x) && b' <= Slots(x) && PlanPairs(x, premium, s, b', done) == Some(plan)
    ensures b' == Slots(x) ==> PlanPairs(x, premium, s + 1, 0, done) == Some(plan)
    ensures b' < Slots(x) ==>
      && PlanPair(x, premium, s, b').Some?
      && PlanPairs(x, premium, s, b' + 1, done + PlanPair(x, premium, s, b').value) == Some(plan)
  {
  }

  lemma {:induction false} PairsBuy(x: PlanInput, premium: int, s: nat, b': nat, done: seq<Action>, plan: seq<Action>,
                                    b: nat)
    requires s <= Slots(x) && b' <= Slots(x) && b < Slots(x) && EachWithin(done, b, Budget(x, b))
    requires PlanPairs(x, premium, s, b', done) == Some(plan)
    ensures BidsOn(plan, b) <= BidsOn(done, b) + SellersAhead(x, b, s, b') && EachWithin(plan, b, Budget(x, b))
    decreases Slots(x) - s, Slots(x) - b'
  {
    if s == Slots(x) {
    } else {
      SearchSteps(x, premium, s, b', done, plan);
      OnePairLess(x, b, s, b');
      if b' == Slots(x) {
        PairsBuy(x, premium, s + 1, 0, done, plan, b);
      } else {
        var pair := PlanPair(x, premium, s, b').value;
        PairBuys(x, premium, s, b', b, pair);
        OneMore(done, pair, b, Budget(x, b));
        PairsBuy(x, premium, s, b' + 1, done + pair, plan, b);
      }
    }
  }

  /** A plan without bids. */
  lemma IdleBuys(fee: int, start: seq<Action>, b: nat)
    requires start == [] || start == [ActAccrue(fee)] || start == [ActEnd] || start == [ActAccrue(fee), ActEnd]
    ensures BidsOn(start, b) == 0
  {
    assert [ActAccrue(fee), ActEnd][..1] == [ActAccrue(fee)];
  }

  lemma PlanBuys(x: PlanInput, plan: seq<Action>, b: nat)
    requires PlanOf(x) == Some(plan) && b < Slots(x)
    ensures BidsOn(plan, b) <= Sellers(x, b, 0) && EachWithin(plan, b, Budget(x, b))
  {
    var r := x.snapshot.account.rebalance;
    var fee := x.snapshot.pendingFee;
    var accrual := if fee >= x.policy.minAccrualTokens then [ActAccrue(fee)] else [];
    IdleBuys(fee, accrual, b);
    if r.active && r.startTs <= x.now <= r.endTs {
      var premium := Math.PremiumAt(r.startPremiumBps, r.endPremiumBps, r.startTs, r.endTs, x.now);
      PairsBuy(x, premium.value, 0, 0, accrual, plan, b);
    } else {
      IdleBuys(fee, plan, b);
    }
  }

  /** All the bids of a plan that buy into one slot together spend at most its budget for each other slot
      that has something to sell. */
  lemma PlanSpendsAtMost(x: PlanInput, plan: seq<Action>, b: nat)
    requires PlanOf(x) == Some(plan) && b < Slots(x)
    ensures Budget(x, b) >= 0
    ensures SpentOn(plan, b) <= Sellers(x, b, 0) * Budget(x, b)
  {
    PlanBuys(x, plan, b);
    SpentIsBounded(plan, b, Budget(x, b));
    MulMonotone(BidsOn(plan, b), Sellers(x, b, 0), Budget(x, b));
  }

  /** So a plan stays inside inventory and room on a slot whenever at most one other slot has something
      to sell. */
  lemma OneSellerStaysInside(x: PlanInput, plan: seq<Action>, b: nat)
    requires PlanOf(x) == Some(plan) && b < Slots(x) && Sellers(x, b, 0) <= 1
    ensures SpentOn(plan, b) <= Entry(x.inventory, b) && SpentOn(plan, b) <= AuctionLeg(x.snapshot, b).buyable
  {
    PlanSpendsAtMost(x, plan, b);
  }

  // ---------------------------------------------------------------------------------------------
  // Two sellers, one purse
  // ---------------------------------------------------------------------------------------------

  /** Two slots with a hundred to sell each, a third that wants a thousand, and a keeper with a hundred. */
  function CrowdedInput(): PlanInput {
    Input(
      Snapshot(
        Index(Live, 1, 2, 3, 0, 0, Params(0, 0, 0, 1_000, 300),
              [Component(1, 200, 100, 1, 0), Component(2, 200, 100, 1, 0), Component(3, 0, 1_000, 1, 0)],
              Rebalance(true, 2, 0, 300, 1_000, 0, 0, 0, 0)),
        UNIT_SCALE, [200, 200, 0], 0, 500),
      [2, 2, 1], 500, Policy(1, 25, 10_000), [0, 0, 100])
  }

  const FIRST: Action := ActBid(0, 2, 100, 100, 0, 10_000)
  const SECOND: Action := ActBid(1, 2, 100, 100, 0, 10_000)

  lemma CrowdedLegs(x: PlanInput)
    requires x == CrowdedInput()
    ensures AuctionLeg(x.snapshot, 0).sellable == 100 && AuctionLeg(x.snapshot, 0).buyable == 0
    ensures AuctionLeg(x.snapshot, 1).sellable == 100 && AuctionLeg(x.snapshot, 1).buyable == 0
    ensures AuctionLeg(x.snapshot, 2).sellable == 0 && AuctionLeg(x.snapshot, 2).buyable == 1_100
  {
  }

  lemma CrowdedPair(x: PlanInput, s: nat)
    requires x == CrowdedInput() && s < 2
    ensures PlanPair(x, 0, s, 2) == Some([ActBid(s, 2, 100, 100, 0, 10_000)])
  {
    CrowdedLegs(x);
    assert Pow10(0) == 1;
    assert Payment(x, s, 2, 100, 0) == Some(100);
    assert SizeOf(x, s, 2, 0) == Size(100, 100);
    assert MarketValue(x, s, 100) == 200 && MarketValue(x, 2, 100) == 100;
    assert EdgeBps(200, 100) == 10_000;
  }

  lemma CrowdedPlan(x: PlanInput)
    requires x == CrowdedInput()
    ensures PlanPairs(x, 0, 0, 0, []) == Some([FIRST, SECOND])
  {
    CrowdedLegs(x);
    CrowdedPair(x, 0);
    CrowdedPair(x, 1);
    NothingToSell(x, 0, 2, 0, [FIRST, SECOND]);
    var none: seq<Action> := [];
    assert none + none == none && none + [FIRST] == [FIRST] && [FIRST] + none == [FIRST];
    assert [FIRST] + [SECOND] == [FIRST, SECOND];
    assert PlanPairs(x, 0, 1, 2, [FIRST]) == PlanPairs(x, 0, 1, 3, [FIRST, SECOND]);
    assert PlanPairs(x, 0, 1, 0, [FIRST]) == PlanPairs(x, 0, 1, 2, [FIRST]);
    assert PlanPairs(x, 0, 0, 2, none) == PlanPairs(x, 0, 0, 3, [FIRST]);
    assert PlanPairs(x, 0, 0, 0, none) == PlanPairs(x, 0, 0, 2, none);
  }

  /** There the plan spends two hundred of a slot of which the keeper holds one hundred. */
  lemma PlanCanOverspend(x: PlanInput)
    requires x == CrowdedInput()
    ensures PlanOf(x) == Some([FIRST, SECOND])
    ensures SpentOn([FIRST, SECOND], 2) == 200 && Entry(x.inventory, 2) == 100
  {
    CrowdedPlan(x);
    assert [FIRST, SECOND][..1] == [FIRST] && [FIRST][..0] == [];
    assert SpentOn([FIRST], 2) == 100;
  }
}
