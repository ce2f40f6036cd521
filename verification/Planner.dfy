/** The keeper's planner: what to do about an index, decided from a snapshot, market prices and the
    keeper's own inventory. */
module Planner {
  import opened Words
  import opened Division
  import FixedPoint
  import opened Accounts
  import Math = SdkMath
  import opened Sdk

  datatype Policy = Policy(
    minAccrualTokens: int,
    minEdgeBps: int,
    maxLegShareBps: nat
  )

  datatype Action =
    | ActAccrue(pendingFee: int)
    | ActEnd
    | ActBid(sell: nat, buy: nat, sellAmount: int, maxBuyAmount: int, premiumBps: int, edgeBps: int)

  datatype RawInput = Input(snapshot: Snapshot, marketPricesE9: seq<nat>, now: int, policy: Policy, inventory: seq<nat>)

  type PlanInput = x: RawInput | Complete(x.snapshot)
    witness Input(Snapshot(NO_INDEX, 0, [], 0, 0), [], 0, Policy(0, 0, 0), [])

  /** Entry of a list that may be shorter than the table. */
  function Entry(xs: seq<nat>, i: nat): nat {
    if i < |xs| then xs[i] else 0
  }

  function Slots(x: PlanInput): nat {
    |x.snapshot.balances|
  }

  /** What the program would charge for `sellAmount` of one slot in units of another. */
  function Payment(x: PlanInput, s: nat, b: nat, sellAmount: int, premium: int): Option<int>
    requires s < Slots(x) && b < Slots(x)
  {
    var sell, buy := x.snapshot.account.components[s], x.snapshot.account.components[b];
    var quote := Math.BidCost(sellAmount, sell.decimals, sell.refPriceE9, buy.decimals, buy.refPriceE9, premium);
    if quote.None? then None else Some(quote.value.buyAmount)
  }

  /** What the keeper can spend on slot `b`: its inventory, as far as the leg has room. */
  function Budget(x: PlanInput, b: nat): int
    requires b < Slots(x)
  {
    var held, buyable := Entry(x.inventory, b), AuctionLeg(x.snapshot, b).buyable;
    if held < buyable then held else buyable
  }

  /** Value of `amount` of slot `i` on the market. */
  function MarketValue(x: PlanInput, i: nat, amount: int): int
    requires i < Slots(x)
  {
    TruncDiv(amount * Entry(x.marketPricesE9, i), FixedPoint.Pow10(x.snapshot.account.components[i].decimals))
  }

  function EdgeBps(outValue: int, inValue: int): int
    requires inValue != 0
  {
    var n := (outValue - inValue) * FixedPoint.BPS;
    if inValue > 0 then TruncDiv(n, inValue) else TruncDiv(-n, -inValue)
  }

  /** The size of a bid on a pair; zero sells nothing. */
  datatype Size = Throws | Size(sellAmount: int, payment: int)

  /** A leg's share, trimmed to the budget and priced again if its first price exceeds it. */
  function SizeOf(x: PlanInput, s: nat, b: nat, premium: int): Size
    requires s < Slots(x) && b < Slots(x)
  {
    var share := TruncDiv(AuctionLeg(x.snapshot, s).sellable * x.policy.maxLegShareBps, FixedPoint.BPS);
    if share == 0 then Size(0, 0)
    else
      var quote := Payment(x, s, b, share, premium);
      var budget := Budget(x, b);
      if quote.None? then Throws
      else if budget == 0 then Size(0, 0)
      else if quote.value <= budget then Size(share, quote.value)
      else
        var trimmed := if quote.value > 0 then TruncDiv(share * budget, quote.value) else 0;
        if trimmed == 0 then Size(0, 0)
        else
          var again := Payment(x, s, b, trimmed, premium);
          if again.None? then Throws
          else if again.value > budget then Size(0, 0)
          else Size(trimmed, again.value)
  }

  /** The bid worth making on a pair of slots, if there is one; None where the planner throws. */
  function PlanPair(x: PlanInput, premium: int, s: nat, b: nat): Option<seq<Action>>
    requires s < Slots(x) && b < Slots(x)
  {
    if AuctionLeg(x.snapshot, s).sellable == 0 || b == s || AuctionLeg(x.snapshot, b).buyable == 0 then Some([])
    else
      match SizeOf(x, s, b, premium)
      case Throws => None
      case Size(sellAmount, payment) =>
        if sellAmount == 0 || Entry(x.marketPricesE9, s) == 0 || Entry(x.marketPricesE9, b) == 0 then Some([])
        else
          var outValue, inValue := MarketValue(x, s, sellAmount), MarketValue(x, b, payment);
          if inValue == 0 then Some([])
          else
            var edge := EdgeBps(outValue, inValue);
            if edge < x.policy.minEdgeBps then Some([])
            else Some([ActBid(s, b, sellAmount, payment, premium, edge)])
  }

  /** All bids worth making from the pair (s, b) on, in table order, after those in `done`. */
  function PlanPairs(x: PlanInput, premium: int, s: nat, b: nat, done: seq<Action>): Option<seq<Action>>
    requires s <= Slots(x) && b <= Slots(x)
    decreases Slots(x) - s, Slots(x) - b
  {
    if s == Slots(x) then Some(done)
    else if b == Slots(x) then PlanPairs(x, premium, s + 1, 0, done)
    else
      var pair := PlanPair(x, premium, s, b);
      if pair.None? then None else PlanPairs(x, premium, s, b + 1, done + pair.value)
  }

  /** The whole plan. */
  function PlanOf(x: PlanInput): Option<seq<Action>> {
    var r := x.snapshot.account.rebalance;
    var accrual := if x.snapshot.pendingFee >= x.policy.minAccrualTokens then [ActAccrue(x.snapshot.pendingFee)]
      else [];
    if r.active && x.now > r.endTs then Some(accrual + [ActEnd])
    else if !r.active || x.now < r.startTs then Some(accrual)
    else
      var premium := Math.PremiumAt(r.startPremiumBps, r.endPremiumBps, r.startTs, r.endTs, x.now);
      if premium.None? then None else PlanPairs(x, premium.value, 0, 0, accrual)
  }

  /** A slot that has nothing to sell adds no bids. */
  lemma {:induction false} NothingToSell(x: PlanInput, premium: int, s: nat, b: nat, done: seq<Action>)
    requires s < Slots(x) && b <= Slots(x) && AuctionLeg(x.snapshot, s).sellable == 0
    ensures PlanPairs(x, premium, s, b, done) == PlanPairs(x, premium, s + 1, 0, done)
    decreases Slots(x) - b
  {
    if b < Slots(x) {
      assert done + [] == done;
      NothingToSell(x, premium, s, b + 1, done);
    }
  }

  /** Size a bid on a pair: a share of the leg, then trimmed to the budget and priced again. */
  method SizeBid(x: PlanInput, s: nat, b: nat, premium: int) returns (size: Size)
    requires s < Slots(x) && b < Slots(x)
    ensures size == SizeOf(x, s, b, premium)
  {
    var sellAmount := TruncDiv(AuctionLeg(x.snapshot, s).sellable * x.policy.maxLegShareBps, FixedPoint.BPS);
    if sellAmount == 0 {
      return Size(0, 0);
    }
    var quote := Payment(x, s, b, sellAmount, premium);
    if quote.None? {
      return Throws;
    }
    var budget := Budget(x, b);
    if budget == 0 {
      return Size(0, 0);
    }
    if quote.value > budget {
      if quote.value <= 0 {
        return Size(0, 0);
      }
      sellAmount := TruncDiv(sellAmount * budget, quote.value);
      if sellAmount == 0 {
        return Size(0, 0);
      }
      quote := Payment(x, s, b, sellAmount, premium);
      if quote.None? {
        return Throws;
      }
      if quote.value > budget {
        return Size(0, 0);
      }
    }
    return Size(sellAmount, quote.value);
  }

  /** The planner as it runs: a search over pairs of slots that skips what cannot be bid on, trims to
      the budget, prices again and keeps what clears the edge. */
  method Plan(x: PlanInput) returns (plan: Option<seq<Action>>)
    ensures plan == PlanOf(x)
  {
    var account, n := x.snapshot.account, Slots(x);
    var actions: seq<Action> := [];
    if x.snapshot.pendingFee >= x.policy.minAccrualTokens {
      actions := [ActAccrue(x.snapshot.pendingFee)];
    }
    if account.rebalance.active && x.now > account.rebalance.endTs {
      actions := actions + [ActEnd];
      return Some(actions);
    }
    if !account.rebalance.active {
      return Some(actions);
    }
    if x.now < account.rebalance.startTs {
      return Some(actions);
    }
    var premium := AuctionPremium(x.snapshot, x.now);
    if premium.None? {
      return None;
    }

    var s := 0;
    while s < n
      invariant s <= n
      invariant PlanPairs(x, premium.value, s, 0, actions) == PlanOf(x)
    {
      if AuctionLeg(x.snapshot, s).sellable == 0 {
        NothingToSell(x, premium.value, s, 0, actions);
        s := s + 1;
        continue;
      }
      var b := 0;
      while b < n
        invariant b <= n
        invariant PlanPairs(x, premium.value, s, b, actions) == PlanOf(x)
      {
        assert actions + [] == actions;
        b := b + 1;
        var pair := b - 1;
        if pair == s {
          continue;
        }
        if AuctionLeg(x.snapshot, pair).buyable == 0 {
          continue;
        }
        var size := SizeBid(x, s, pair, premium.value);
        if size.Throws? {
          return None;
        }
        if size.sellAmount == 0 {
          continue;
        }

        if Entry(x.marketPricesE9, s) == 0 || Entry(x.marketPricesE9, pair) == 0 {
          continue;
        }
        var outValue, inValue := MarketValue(x, s, size.sellAmount), MarketValue(x, pair, size.payment);
        if inValue == 0 {
          continue;
        }
        var edge := EdgeBps(outValue, inValue);
        if edge < x.policy.minEdgeBps {
          continue;
        }
        actions := actions + [ActBid(s, pair, size.sellAmount, size.payment, premium.value, edge)];
      }
      s := s + 1;
    }
    return Some(actions);
  }
}
