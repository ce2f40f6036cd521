/** What a plan holds, to the last action: when the planner throws, what it plans otherwise, and in which
    order. */
module Plans {
  import opened Words
  import opened Division
  import opened FixedPoint
  import opened Accounts
  import opened Auctions
  import Math = SdkMath
  import opened Sdk
  import opened SdkTheorems
  import opened Planner
  import opened PlannerTheorems

  // ---------------------------------------------------------------------------------------------
  // One pair
  // ---------------------------------------------------------------------------------------------

  function SlotOfInput(x: PlanInput, i: nat): Component
    requires i < Slots(x)
  {
    x.snapshot.account.components[i]
  }

  /** The policy's share of what slot `s` may sell. */
  function Share(x: PlanInput, s: nat): nat
    requires s < Slots(x)
  {
    FloorBounds(AuctionLeg(x.snapshot, s).sellable * x.policy.maxLegShareBps, BPS);
    AuctionLeg(x.snapshot, s).sellable * x.policy.maxLegShareBps / BPS
  }

  /** What the market makes of `amount` of slot `i`, in 1e-9 USD, rounded down. */
  function Worth(x: PlanInput, i: nat, amount: nat): nat
    requires i < Slots(x)
  {
    FloorBounds(amount * Entry(x.marketPricesE9, i), Pow10(SlotOfInput(x, i).decimals));
    amount * Entry(x.marketPricesE9, i) / Pow10(SlotOfInput(x, i).decimals)
  }

  /** The size of a bid on a pair: the share itself if it can be paid for, and otherwise the share cut in
      the proportion of the purse to its price, if the price of that can be paid. */
  predicate Sized(share: nat, shareCost: nat, purse: nat, k: nat, cost: nat) {
    && 0 < k && cost <= purse
    && if shareCost <= purse then k == share
       else k * shareCost <= share * purse < (k + 1) * shareCost
  }

  /** A pair calls for selling `k` for `pay` at `edge`: within inventory and room, at the program's own
      price, with both tokens priced by the market and an edge of at least the policy's floor. */
  predicate Calls(x: PlanInput, premium: int, s: nat, b: nat, k: int, pay: int, edge: int)
    requires s < Slots(x) && b < Slots(x)
  {
    var sell, buy, held, room :=
      SlotOfInput(x, s), SlotOfInput(x, b), Entry(x.inventory, b), AuctionLeg(x.snapshot, b).buyable;
    && s != b && premium <= BPS && buy.refPriceE9 > 0 && 0 < k && 0 <= pay
    && pay == PriceOf(sell, buy, k, premium)
    && Sized(Share(x, s), PriceOf(sell, buy, Share(x, s), premium), if held < room then held else room, k, pay)
    && Entry(x.marketPricesE9, s) > 0 && Entry(x.marketPricesE9, b) > 0
    && Worth(x, b, pay) > 0
    && edge == TruncDiv((Worth(x, s, k) - Worth(x, b, pay)) * BPS, Worth(x, b, pay)) >= x.policy.minEdgeBps
  }

  /** The planner prices a bid exactly when the proposal prices the token it pays with. */
  lemma PaymentIsPrice(x: PlanInput, s: nat, b: nat, k: nat, premium: int)
    requires s < Slots(x) && b < Slots(x) && premium <= BPS
    ensures Payment(x, s, b, k, premium) == if SlotOfInput(x, b).refPriceE9 == 0 then None
      else Some(PriceOf(SlotOfInput(x, s), SlotOfInput(x, b), k, premium))
  {
    BidCostIsExact(SlotOfInput(x, s), SlotOfInput(x, b), k, premium);
  }

  lemma TrimIsExact(share: nat, cost: nat, purse: nat, k: nat)
    requires cost > 0
    ensures 0 <= share * purse / cost
    ensures k == share * purse / cost <==> k * cost <= share * purse < (k + 1) * cost
  {
    FloorBounds(share * purse, cost);
    if k * cost <= share * purse < (k + 1) * cost {
      FloorAtLeast(k, share * purse, cost);
      FloorBelow(k + 1, share * purse, cost);
    }
  }

  /** With something in the purse a pair is sized exactly so. */
  lemma SizeIsExact(x: PlanInput, s: nat, b: nat, premium: int, k: nat, pay: nat)
    requires s < Slots(x) && b < Slots(x) && premium <= BPS && SlotOfInput(x, b).refPriceE9 > 0 && Budget(x, b) > 0
    ensures var sell, buy := SlotOfInput(x, s), SlotOfInput(x, b);
      SizeOf(x, s, b, premium) == Size(k, pay) && 0 < k <==>
        && pay == PriceOf(sell, buy, k, premium)
        && Sized(Share(x, s), PriceOf(sell, buy, Share(x, s), premium), Budget(x, b), k, pay)
  {
    var sell, buy, share, purse := SlotOfInput(x, s), SlotOfInput(x, b), Share(x, s), Budget(x, b);
    var cost := PriceOf(sell, buy, share, premium);
    PaymentIsPrice(x, s, b, share, premium);
    PaymentIsPrice(x, s, b, k, premium);
    if share == 0 {
      NothingCostsNothing(sell, buy, premium);
    } else if cost > purse {
      TrimIsExact(share, cost, purse, k);
      PaymentIsPrice(x, s, b, share * purse / cost, premium);
    }
  }

  lemma NothingCostsNothing(sell: Component, buy: Component, premium: int)
    requires premium <= BPS && buy.refPriceE9 > 0
    ensures PriceOf(sell, buy, 0, premium) == 0
  {
    FloorBounds(0, Pow10(sell.decimals));
    CeilAtMost(0, 0, BPS);
    CeilAtMost(0, 0, buy.refPriceE9);
  }

  lemma WorthIsMarketValue(x: PlanInput, i: nat, amount: nat)
    requires i < Slots(x)
    ensures MarketValue(x, i, amount) == Worth(x, i, amount)
  {
  }

  lemma EmptyPurse(x: PlanInput, premium: int, s: nat, b: nat, k: nat, pay: nat, edge: int)
    requires s < Slots(x) && b < Slots(x) && Budget(x, b) == 0
    ensures !Calls(x, premium, s, b, k, pay, edge)
  {
    if pay == 0 {
      FloorBelow(1, 0, Pow10(SlotOfInput(x, b).decimals));
    }
  }

  /** A pair calls for a bid in this sense exactly when the search adds that bid. */
  lemma PairIsExact(x: PlanInput, premium: int, s: nat, b: nat, k: int, pay: int, edge: int)
    requires s < Slots(x) && b < Slots(x) && premium <= BPS
    ensures PlanPair(x, premium, s, b) == Some([ActBid(s, b, k, pay, premium, edge)])
       <==> Calls(x, premium, s, b, k, pay, edge)
  {
    if PlanPair(x, premium, s, b) == Some([ActBid(s, b, k, pay, premium, edge)]) {
      PairCalls(x, premium, s, b, k, pay, edge);
    }
    if Calls(x, premium, s, b, k, pay, edge) {
      CalledPair(x, premium, s, b, k, pay, edge);
    }
  }

  lemma PairCalls(x: PlanInput, premium: int, s: nat, b: nat, k: int, pay: int, edge: int)
    requires s < Slots(x) && b < Slots(x) && premium <= BPS
    requires PlanPair(x, premium, s, b) == Some([ActBid(s, b, k, pay, premium, edge)])
    ensures Calls(x, premium, s, b, k, pay, edge)
  {
    SizeStaysInside(x, s, b, premium, Size(k, pay));
    PaymentIsPrice(x, s, b, k, premium);
    SizeIsExact(x, s, b, premium, k, pay);
    WorthIsMarketValue(x, s, k);
    WorthIsMarketValue(x, b, pay);
  }

  lemma CalledPair(x: PlanInput, premium: int, s: nat, b: nat, k: nat, pay: nat, edge: int)
    requires s < Slots(x) && b < Slots(x) && premium <= BPS && Calls(x, premium, s, b, k, pay, edge)
    ensures PlanPair(x, premium, s, b) == Some([ActBid(s, b, k, pay, premium, edge)])
  {
    if Budget(x, b) == 0 {
      EmptyPurse(x, premium, s, b, k, pay, edge);
    } else {
      SizeIsExact(x, s, b, premium, k, pay);
      NothingToShare(x, s);
      WorthIsMarketValue(x, s, k);
      WorthIsMarketValue(x, b, pay);
    }
  }

  lemma NothingToShare(x: PlanInput, s: nat)
    requires s < Slots(x)
    ensures AuctionLeg(x.snapshot, s).sellable == 0 ==> Share(x, s) == 0
  {
  }

  // ---------------------------------------------------------------------------------------------
  // The whole plan
  // ---------------------------------------------------------------------------------------------

  /** A bid is planned exactly when the auction is open and its pair calls for it at the premium of the
      moment. */
  lemma BidsArePlannedExactly(x: PlanInput, plan: seq<Action>, s: nat, b: nat, k: int, pay: int, premium: int,
                              edge: int)
    requires PlanOf(x) == Some(plan) && s < Slots(x) && b < Slots(x)
    requires x.snapshot.account.rebalance.startPremiumBps <= BPS && x.snapshot.account.rebalance.endPremiumBps <= BPS
    ensures ActBid(s, b, k, pay, premium, edge) in plan
       <==> AuctionPremium(x.snapshot, x.now) == Some(premium) && Calls(x, premium, s, b, k, pay, edge)
  {
    PlanIsComplete(x, plan, s, b, k, pay, premium, edge);
    if AuctionPremium(x.snapshot, x.now) == Some(premium) {
      PremiumIsBounded(x.snapshot.account.rebalance, x.now);
      PairIsExact(x, premium, s, b, k, pay, edge);
    }
  }

  lemma {:induction false} SearchAddsBids(x: PlanInput, premium: int, s: nat, b: nat, done: seq<Action>,
                                          plan: seq<Action>, a: Action)
    requires s <= Slots(x) && b <= Slots(x) && PlanPairs(x, premium, s, b, done) == Some(plan) && !a.ActBid?
    ensures a in plan <==> a in done
    decreases Slots(x) - s, Slots(x) - b
  {
    if s == Slots(x) {
    } else if b == Slots(x) {
      SearchAddsBids(x, premium, s + 1, 0, done, plan, a);
    } else {
      SearchAddsBids(x, premium, s, b + 1, done + PlanPair(x, premium, s, b).value, plan, a);
    }
  }

  /** The plan accrues exactly a fee that has reached the policy's floor, and closes the auction exactly
      when it has run out. */
  lemma ChoresArePlannedExactly(x: PlanInput, plan: seq<Action>, fee: int)
    requires PlanOf(x) == Some(plan)
    ensures ActAccrue(fee) in plan <==> fee == x.snapshot.pendingFee && x.policy.minAccrualTokens <= fee
    ensures ActEnd in plan <==> x.snapshot.account.rebalance.active && x.snapshot.account.rebalance.endTs < x.now
  {
    var r := x.snapshot.account.rebalance;
    var accrual := if x.snapshot.pendingFee >= x.policy.minAccrualTokens then [ActAccrue(x.snapshot.pendingFee)]
      else [];
    if r.active && r.startTs <= x.now <= r.endTs {
      var premium := Math.PremiumAt(r.startPremiumBps, r.endPremiumBps, r.startTs, r.endTs, x.now).value;
      SearchAddsBids(x, premium, 0, 0, accrual, plan, ActAccrue(fee));
      SearchAddsBids(x, premium, 0, 0, accrual, plan, ActEnd);
    }
  }

  /** A pair that the planner cannot price although it has something to sell and to buy. */
  predicate Unpriced(x: PlanInput, s: nat, b: nat)
    requires s < Slots(x) && b < Slots(x)
  {
    && s != b && Share(x, s) > 0 && AuctionLeg(x.snapshot, s).sellable > 0 && AuctionLeg(x.snapshot, b).buyable > 0
    && SlotOfInput(x, b).refPriceE9 == 0
  }

  lemma PairThrowsExactly(x: PlanInput, premium: int, s: nat, b: nat)
    requires s < Slots(x) && b < Slots(x)
    ensures PlanPair(x, premium, s, b).None? <==> Unpriced(x, s, b)
  {
  }

  lemma {:induction false} ThrowIsFound(x: PlanInput, premium: int, s: nat, b: nat, done: seq<Action>)
    returns (s': nat, b': nat)
    requires s <= Slots(x) && b <= Slots(x) && PlanPairs(x, premium, s, b, done).None?
    ensures s' < Slots(x) && b' < Slots(x) && PlanPair(x, premium, s', b').None?
    decreases Slots(x) - s, Slots(x) - b
  {
    if b == Slots(x) {
      s', b' := ThrowIsFound(x, premium, s + 1, 0, done);
    } else if PlanPair(x, premium, s, b).None? {
      s', b' := s, b;
    } else {
      s', b' := ThrowIsFound(x, premium, s, b + 1, done + PlanPair(x, premium, s, b).value);
    }
  }

  ghost predicate SomeUnpriced(x: PlanInput) {
    exists s: nat, b: nat :: s < Slots(x) && b < Slots(x) && Unpriced(x, s, b)
  }

  lemma SearchThrowsExactly(x: PlanInput, premium: int, done: seq<Action>)
    ensures PlanPairs(x, premium, 0, 0, done).None? <==> SomeUnpriced(x)
  {
    if PlanPairs(x, premium, 0, 0, done).None? {
      var s, b := ThrowIsFound(x, premium, 0, 0, done);
      PairThrowsExactly(x, premium, s, b);
    } else if SomeUnpriced(x) {
      var s: nat, b: nat :| s < Slots(x) && b < Slots(x) && Unpriced(x, s, b);
      PairsArePlanned(x, premium, 0, 0, done, PlanPairs(x, premium, 0, 0, done).value, s, b);
      PairThrowsExactly(x, premium, s, b);
      assert false;
    }
  }

  /** The planner throws exactly inside an auction's window, when the window has no length or a pair with
      something to sell and to buy has no price to pay at. */
  lemma PlanThrowsExactly(x: PlanInput)
    ensures var r := x.snapshot.account.rebalance;
      PlanOf(x).None? <==> r.active && r.startTs <= x.now <= r.endTs && (r.endTs <= r.startTs || SomeUnpriced(x))
  {
    var r := x.snapshot.account.rebalance;
    var accrual := if x.snapshot.pendingFee >= x.policy.minAccrualTokens then [ActAccrue(x.snapshot.pendingFee)]
      else [];
    if r.active && r.startTs <= x.now <= r.endTs && r.startTs < r.endTs {
      var premium := Math.PremiumAt(r.startPremiumBps, r.endPremiumBps, r.startTs, r.endTs, x.now).value;
      SearchThrowsExactly(x, premium, accrual);
    }
  }

  // ---------------------------------------------------------------------------------------------
  // Order
  // ---------------------------------------------------------------------------------------------

  /** Accruals first, then bids slot by slot in table order, or the closing. */
  predicate Precedes(a: Action, a': Action) {
    || (a.ActAccrue? && !a'.ActAccrue?)
    || (a.ActBid? && a'.ActBid? && (a.sell < a'.sell || (a.sell == a'.sell && a.buy < a'.buy)))
  }

  ghost predicate InOrder(plan: seq<Action>) {
    forall i, j :: 0 <= i < j < |plan| ==> Precedes(plan[i], plan[j])
  }

  /** Everything planned so far comes before the pair (s, b). */
  ghost predicate Behind(plan: seq<Action>, s: nat, b: nat) {
    forall i :: 0 <= i < |plan| ==>
      plan[i].ActAccrue? || (plan[i].ActBid? && (plan[i].sell < s || (plan[i].sell == s && plan[i].buy < b)))
  }

  lemma OneMoreInOrder(x: PlanInput, premium: int, done: seq<Action>, s: nat, b: nat)
    requires s < Slots(x) && b < Slots(x) && PlanPair(x, premium, s, b).Some? && InOrder(done) && Behind(done, s, b)
    ensures InOrder(done + PlanPair(x, premium, s, b).value)
      && Behind(done + PlanPair(x, premium, s, b).value, s, b + 1)
  {
    var pair := PlanPair(x, premium, s, b).value;
    assert pair == [] || (|pair| == 1 && pair[0].ActBid? && pair[0].sell == s && pair[0].buy == b);
  }

  lemma {:induction false} SearchIsInOrder(x: PlanInput, premium: int, s: nat, b: nat, done: seq<Action>,
                                           plan: seq<Action>)
    requires s <= Slots(x) && b <= Slots(x) && PlanPairs(x, premium, s, b, done) == Some(plan)
    requires InOrder(done) && Behind(done, s, b)
    ensures InOrder(plan)
    decreases Slots(x) - s, Slots(x) - b
  {
    if s == Slots(x) {
    } else if b == Slots(x) {
      SearchIsInOrder(x, premium, s + 1, 0, done, plan);
    } else {
      OneMoreInOrder(x, premium, done, s, b);
      SearchIsInOrder(x, premium, s, b + 1, done + PlanPair(x, premium, s, b).value, plan);
    }
  }

  /** Every plan lists its actions in that order, none of them twice. */
  lemma PlansAreInOrder(x: PlanInput, plan: seq<Action>)
    requires PlanOf(x) == Some(plan)
    ensures InOrder(plan)
  {
    var r := x.snapshot.account.rebalance;
    var accrual := if x.snapshot.pendingFee >= x.policy.minAccrualTokens then [ActAccrue(x.snapshot.pendingFee)]
      else [];
    if r.active && r.startTs <= x.now <= r.endTs {
      var premium := Math.PremiumAt(r.startPremiumBps, r.endPremiumBps, r.startTs, r.endTs, x.now).value;
      SearchIsInOrder(x, premium, 0, 0, accrual, plan);
    }
  }

  lemma FirstIsListed(plan: seq<Action>)
    requires plan != []
    ensures exists a :: a in plan
  {
    assert plan[0] in plan;
  }

  /** So there is only one plan: two lists of the same actions in that order are the same list. */
  lemma {:induction false} OrderedPlansAgree(plan: seq<Action>, plan': seq<Action>)
    requires InOrder(plan) && InOrder(plan') && forall a :: a in plan <==> a in plan'
    ensures plan == plan'
  {
    if plan == [] {
      if plan' != [] {
        FirstIsListed(plan');
        assert false;
      }
    } else {
      assert plan[0] in plan';
      var j :| 0 <= j < |plan'| && plan'[j] == plan[0];
      assert plan'[0] in plan;
      var i :| 0 <= i < |plan| && plan[i] == plan'[0];
      assert i == 0 && j == 0;
      RestOfPlan(plan, plan');
      OrderedPlansAgree(plan[1..], plan'[1..]);
    }
  }

  lemma RestOfPlan(plan: seq<Action>, plan': seq<Action>)
    requires InOrder(plan) && InOrder(plan') && forall a :: a in plan <==> a in plan'
    requires plan != [] && plan' != [] && plan[0] == plan'[0]
    ensures InOrder(plan[1..]) && InOrder(plan'[1..])
    ensures forall a :: a in plan[1..] <==> a in plan'[1..]
  {
    forall a ensures a in plan[1..] <==> a in plan'[1..] {
      assert a in plan <==> a == plan[0] || a in plan[1..];
      assert a in plan' <==> a == plan'[0] || a in plan'[1..];
      assert plan[0] !in plan[1..] && plan'[0] !in plan'[1..];
    }
  }
}
