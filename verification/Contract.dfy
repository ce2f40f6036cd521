/** The program in one piece: what each step needs to be accepted and everything it leaves behind, in
    closed form, beside the handlers that compute it stage by stage. */
module Contract {
  import opened Words
  import opened Sums
  import opened Shares
  import opened Accounts
  import opened Tokens
  import opened Handlers
  import opened Effects
  import opened Runs
  import opened Frames
  import opened Invariant
  import opened Holders
  import opened Auctions
  import opened Entries
  import opened Exits
  import opened Bids
  import opened Proposals

  // ---------------------------------------------------------------------------------------------
  // What a step needs
  // ---------------------------------------------------------------------------------------------

  /** Parameters inside the caps that are built into the program. */
  predicate InCaps(p: Params) {
    && p.streamingFeeBps <= 500 && p.issueFeeBps <= 100 && p.redeemFeeBps <= 100
    && p.maxPremiumBps <= 1_000 && 300 <= p.rebalanceDelay
  }

  ghost predicate AccrualMeets(w: World) {
    && w.index.status.Sealed() && FeeFits(w)
    && forall i :: 0 <= i < |w.vaults| ==> PricedUnits(w, i) <= U64_MAX
  }

  ghost predicate ClosingMeets(w: World, caller: Key) {
    && w.index.rebalance.active
    && (caller == w.index.manager || w.index.rebalance.endTs < w.clock)
    && forall i :: 0 <= i < |w.vaults| ==> HeldUnits(w, i) <= U64_MAX
  }

  /** A new slot: the manager's, while the index is set up, for a token that is not listed yet. */
  ghost predicate AdditionMeets(w: World, caller: Key, mint: Key, units: uint64) {
    && w.index.status.Bootstrapping? && caller == w.index.manager && 0 < units && |w.vaults| < 16
    && forall i :: 0 <= i < |w.vaults| ==> w.index.components[i].mint != mint
  }

  predicate SendMeets(w: World, sender: Account, to: Key, amount: uint64) {
    && amount <= Balance(w.wallets, sender)
    && (to == sender.holder || Balance(w.wallets, Account(to, sender.mint)) + amount <= U64_MAX)
  }

  /** Everything a step has to meet. */
  ghost predicate Accepts(w: World, step: Step) {
    var idx := w.index;
    match step
    case DoInit(_, _, _, params) => idx.status.Absent? && w.supply == 0 && InCaps(params)
    case DoAddComponent(caller, mint, _, units) => AdditionMeets(w, caller, mint, units)
    case DoSeal(caller) => idx.status.Bootstrapping? && caller == idx.manager && 0 < |w.vaults|
    case DoIssue(user, _, amount, maxIn) => IssueMeets(w, user, amount, maxIn)
    case DoRedeem(user, to, amount, minOut) => RedeemMeets(w, user, to, amount, minOut)
    case DoAccrue => AccrualMeets(w)
    case DoPropose(caller, targets, prices, auction) => ProposalMeets(w, caller, targets, prices, auction)
    case DoBid(bidder, to, sell, buy, sellAmount, maxBuyAmount) =>
      BidMeets(w, bidder, to, sell, buy, sellAmount, maxBuyAmount)
    case DoEnd(caller) => ClosingMeets(w, caller)
    case DoSetParams(caller, params) => !idx.status.Absent? && caller == idx.governor && InCaps(params)
    case DoSetAuthority(caller, role, _) => !idx.status.Absent? && caller == idx.governor && role <= 2
    case DoSetPaused(caller, paused) =>
      idx.status.Sealed() && (caller == idx.governor || (paused && caller == idx.manager))
    case Donate(from, slot, amount) =>
      && slot < |w.vaults|
      && amount <= Balance(w.wallets, ComponentAccount(w, from, slot)) && w.vaults[slot] + amount <= U64_MAX
    case Burn(holder, amount) => amount <= Balance(w.wallets, Account(holder, IndexMint))
    case Send(sender, to, amount) => SendMeets(w, sender, to, amount)
    case Wait(seconds) => w.clock + seconds <= I64_MAX
  }

  // ---------------------------------------------------------------------------------------------
  // What a step leaves
  // ---------------------------------------------------------------------------------------------

  /** Nothing but the record differs. */
  predicate OnlyRecord(w: World, w': World) {
    w'.vaults == w.vaults && w'.supply == w.supply && w'.wallets == w.wallets && w'.clock == w.clock
  }

  /** Slot `i` with so much in its vault and so many units; its token, target and price stand. */
  ghost predicate SlotLeft(w: World, w': World, i: nat, vault: int, units: int) {
    && i < |w.vaults| && |w'.vaults| == |w.vaults| && w'.vaults[i] == vault
    && w'.index.components[i] == w.index.components[i].(units := w'.index.components[i].units)
    && w'.index.components[i].units == units
  }

  /** The record after a step that bills the fee: its clock at the present, and nothing else but slots. */
  ghost predicate BilledRecord(w: World, w': World) {
    && w'.index == w.index.(lastFeeAccrual := w.clock, components := w'.index.components)
    && w'.clock == w.clock && |w'.vaults| == |w.vaults|
  }

  /** What an issue takes from an account: the user's component accounts pay the costs of their slots. */
  function CostTo(w: World, user: Key, gross: nat, a: Account): nat {
    var slot := SlotOf(w, a);
    if a.holder == user && slot.Some? then Cost(w, gross, slot.value) else 0
  }

  /** What a redemption pays an account: the recipient's component accounts get the proceeds of their
      slots. */
  function ProceedsTo(w: World, to: Key, net: nat, a: Account): nat {
    var slot := SlotOf(w, a);
    if a.holder == to && slot.Some? then Proceeds(w, net, slot.value) else 0
  }

  /** Fee tokens that reach an account: the fee that fell due and the flat fee. */
  function Collected(w: World, a: Account, flat: nat): nat {
    if a == Account(w.index.feeRecipient, IndexMint) then FeeDue(w) + flat else 0
  }

  ghost predicate IssueLeaves(w: World, user: Key, to: Key, amount: uint64, w': World) {
    var gross := Gross(w, amount);
    && BilledRecord(w, w') && w'.supply == w.supply + FeeDue(w) + gross
    && (forall i :: 0 <= i < |w.vaults| ==>
          SlotLeft(w, w', i, w.vaults[i] + Cost(w, gross, i), UnitsAfterEntry(w, gross, i)))
    && (forall a {:trigger Balance(w'.wallets, a)} :: Balance(w'.wallets, a) == Balance(w.wallets, a)
          + Minted(a, to, amount)
            + Collected(w, a, FeeOn(amount, w.index.params.issueFeeBps)) - CostTo(w, user, gross, a))
  }

  ghost predicate RedeemLeaves(w: World, user: Key, to: Key, amount: uint64, w': World)
    requires 0 <= Net(w, amount)
  {
    var net := Net(w, amount);
    && BilledRecord(w, w') && w'.supply == w.supply + FeeDue(w) - net
    && (forall i :: 0 <= i < |w.vaults| ==>
          SlotLeft(w, w', i, w.vaults[i] - Proceeds(w, net, i), UnitsLeft(w, net, i)))
    && (forall a {:trigger Balance(w'.wallets, a)} :: Balance(w'.wallets, a) == Balance(w.wallets, a)
          - Minted(a, user, amount) + Collected(w, a, FeeOn(amount, w.index.params.redeemFeeBps))
          + ProceedsTo(w, to, net, a))
  }

  /** Units of slot `i` once `net` has left; after the last token they stand. */
  function UnitsLeft(w: World, net: nat, i: nat): nat
    requires i < |w.vaults|
  {
    if net < PricedSupply(w) && Proceeds(w, net, i) <= w.vaults[i]
    then DerivedUnits(0, w.vaults[i] - Proceeds(w, net, i), PricedSupply(w) - net)
    else PricedUnits(w, i)
  }

  ghost predicate AccrualLeaves(w: World, w': World) {
    && BilledRecord(w, w') && w'.supply == w.supply + FeeDue(w)
    && (forall i :: 0 <= i < |w.vaults| ==> SlotLeft(w, w', i, w.vaults[i], PricedUnits(w, i)))
    && (forall a {:trigger Balance(w'.wallets, a)} ::
          Balance(w'.wallets, a) == Balance(w.wallets, a) + Collected(w, a, 0))
  }

  ghost predicate ProposalLeaves(w: World, caller: Key, targets: seq<uint64>, prices: seq<uint64>, p: AuctionParams,
                                 w': World)
    requires |targets| == |prices| == |w.vaults|
  {
    var cs := Proposed(w.index.components, targets, prices);
    && OnlyRecord(w, w')
    && w'.index == w.index.(components := cs, rebalance := w'.index.rebalance)
    && Opens(w, caller, Sum(Values(cs, w.vaults)) / 1_000, p, w'.index.rebalance)
  }

  /** What a bid pays at the premium of the moment. */
  function BidPrice(w: World, s: nat, b: nat, sellAmount: nat): nat
    requires s < |w.vaults| && b < |w.vaults|
    requires PriceFits(w.index.components[s], w.index.components[b], sellAmount, PremiumNow(w))
  {
    PriceOf(w.index.components[s], w.index.components[b], sellAmount, PremiumNow(w))
  }

  /** Vault of slot `i` after slot `s` has given `sold` and slot `b` has taken `paid`. */
  function VaultAfterFill(w: World, s: nat, b: nat, sold: nat, paid: nat, i: nat): int
    requires i < |w.vaults|
  {
    if i == s then w.vaults[i] - sold else if i == b then w.vaults[i] + paid else w.vaults[i]
  }

  ghost predicate BidLeaves(w: World, bidder: Key, to: Key, s: nat, b: nat, sold: nat, paid: nat, w': World)
    requires s < |w.vaults| && b < |w.vaults|
  {
    && w'.index == w.index.(components := w'.index.components) && w'.supply == w.supply && w'.clock == w.clock
    && |w'.vaults| == |w.vaults|
    && (forall i :: 0 <= i < |w.vaults| ==>
          SlotLeft(w, w', i, VaultAfterFill(w, s, b, sold, paid, i), DerivedUnits(0, w'.vaults[i], w.supply)))
    && (forall a {:trigger Balance(w'.wallets, a)} :: Balance(w'.wallets, a) == Balance(w.wallets, a)
          + (if a == ComponentAccount(w, to, s) then sold else 0)
          - (if a == ComponentAccount(w, bidder, b) then paid else 0))
  }

  ghost predicate ClosingLeaves(w: World, w': World) {
    var r := w.index.rebalance;
    && OnlyRecord(w, w')
    && w'.index == w.index.(components := w'.index.components,
                            rebalance := Rebalance(false, r.proposer, r.proposedAt, 0, 0, 0, 0, 0, 0))
    && forall i :: 0 <= i < |w.vaults| ==>
         var d := w'.index.components[i];
         d == w.index.components[i].(units := d.units, targetUnits := d.units) && d.units == HeldUnits(w, i)
  }

  ghost predicate AdditionLeaves(w: World, mint: Key, decimals: uint8, units: uint64, w': World) {
    && w'.index == w.index.(components := w.index.components + [Component(mint, units, units, 0, decimals)])
    && w'.vaults == w.vaults + [0] && w'.supply == w.supply && w'.wallets == w.wallets && w'.clock == w.clock
  }

  /** The record after a governor has written `authority` into a role. */
  function Appointed(idx: Index, role: uint8, authority: Key): Index {
    if role == 0 then idx.(governor := authority)
    else if role == 1 then idx.(manager := authority)
    else idx.(feeRecipient := authority)
  }

  /** Everything an accepted step leaves behind. */
  ghost predicate Leaves(w: World, step: Step, w': World)
    requires Accepts(w, step)
  {
    var idx := w.index;
    match step
    case DoInit(governor, manager, feeRecipient, params) =>
      && w' == World(Index(Bootstrapping, governor, manager, feeRecipient, w.clock, w.clock, params, [],
                           Rebalance(false, 0, 0, 0, 0, 0, 0, 0, 0)), [], 0, w.wallets, w.clock)
    case DoAddComponent(_, mint, decimals, units) => AdditionLeaves(w, mint, decimals, units, w')
    case DoSeal(_) => OnlyRecord(w, w') && w'.index == idx.(status := Live, lastFeeAccrual := w.clock)
    case DoIssue(user, to, amount, _) => IssueLeaves(w, user, to, amount, w')
    case DoRedeem(user, to, amount, _) => RedeemLeaves(w, user, to, amount, w')
    case DoAccrue => AccrualLeaves(w, w')
    case DoPropose(caller, targets, prices, auction) => ProposalLeaves(w, caller, targets, prices, auction, w')
    case DoBid(bidder, to, sell, buy, sellAmount, _) => 
      BidLeaves(w, bidder, to, sell, buy, sellAmount, BidPrice(w, sell, buy, sellAmount), w')
    case DoEnd(_) => ClosingLeaves(w, w')
    case DoSetParams(_, params) =>
      && OnlyRecord(w, w')
      && w'.index == idx.(params := params,
                          lastFeeAccrual := if idx.status.Bootstrapping? then idx.lastFeeAccrual else w.clock)
    case DoSetAuthority(_, role, authority) => OnlyRecord(w, w') && w'.index == Appointed(idx, role, authority)
    case DoSetPaused(_, paused) =>
      OnlyRecord(w, w') && w'.index == idx.(status := if paused then Status.Paused else Live)
    case Donate(from, slot, amount) =>
      && w'.index == idx && w'.supply == w.supply && w'.clock == w.clock
      && w'.vaults == w.vaults[slot := w.vaults[slot] + amount]
      && forall a {:trigger Balance(w'.wallets, a)} :: Balance(w'.wallets, a) == Balance(w.wallets, a)
           - (if a == ComponentAccount(w, from, slot) then amount as int else 0)
    case Burn(holder, amount) =>
      && w'.index == idx && w'.vaults == w.vaults && w'.supply == w.supply - amount && w'.clock == w.clock
      && forall a {:trigger Balance(w'.wallets, a)} ::
           Balance(w'.wallets, a) == Balance(w.wallets, a) - Minted(a, holder, amount)
    case Send(sender, to, amount) =>
      && w'.index == idx && w'.vaults == w.vaults && w'.supply == w.supply && w'.clock == w.clock
      && forall a {:trigger Balance(w'.wallets, a)} :: Balance(w'.wallets, a) == Balance(w.wallets, a)
           + (if a == Account(to, sender.mint) then amount as int else 0) - (if a == sender then amount as int else 0)
    case Wait(seconds) => w' == w.(clock := w.clock + seconds)
  }

  // ---------------------------------------------------------------------------------------------
  // Each instruction keeps it
  // ---------------------------------------------------------------------------------------------

  lemma AccrualIsExact(w: World)
    requires Sound(w)
    ensures AccrueFees(w).Ok? <==> AccrualMeets(w)
    ensures AccrueFees(w).Ok? ==> AccrualLeaves(w, AccrueFees(w).value)
  {
    SettlingSucceedsExactly(w);
    if AccrualMeets(w) {
      AccrualSucceedsExactly(w);
      SettledEffect(w);
      var w' := AccrueFees(w).value;
      forall i | 0 <= i < |w.vaults| ensures SlotLeft(w, w', i, w.vaults[i], PricedUnits(w, i)) {
        SettledPrices(w, w', i);
      }
    }
  }

  lemma IssueLeavesIt(w: World, user: Key, to: Key, amount: uint64, maxIn: seq<uint64>, w': World)
    requires Sound(w) && Issue(w, user, to, amount, maxIn) == Ok(w')
    ensures IssueLeaves(w, user, to, amount, w')
  {
    var gross := Gross(w, amount);
    IssueRecord(w, user, to, amount, maxIn, w');
    forall i | 0 <= i < |w.vaults|
      ensures SlotLeft(w, w', i, w.vaults[i] + Cost(w, gross, i), UnitsAfterEntry(w, gross, i))
    {
      IssueSlot(w, user, to, amount, maxIn, w', i);
    }
    forall a {:trigger Balance(w'.wallets, a)}
      ensures Balance(w'.wallets, a) == Balance(w.wallets, a) + Minted(a, to, amount)
        + Collected(w, a, FeeOn(amount, w.index.params.issueFeeBps)) - CostTo(w, user, gross, a)
    {
      IssueAccount(w, user, to, amount, maxIn, w', a);
    }
  }

  lemma IssueRecord(w: World, user: Key, to: Key, amount: uint64, maxIn: seq<uint64>, w': World)
    requires Sound(w) && Issue(w, user, to, amount, maxIn) == Ok(w')
    ensures BilledRecord(w, w') && w'.supply == w.supply + FeeDue(w) + Gross(w, amount)
  {
    EntryFrame(w, DoIssue(user, to, amount, maxIn));
    AccrualSucceedsExactly(w);
    IssueMoves(w, user, to, amount, maxIn, w', 0);
  }

  /** Entering, leaving and accruing rewrite nothing of a slot but its units. */
  lemma SlotStands(w: World, step: Step, w': World, i: nat)
    requires step.DoIssue? || step.DoRedeem? || step.DoAccrue?
    requires Apply(w, step) == Ok(w') && i < |w.vaults|
    ensures |w'.vaults| == |w.vaults|
    ensures w'.index.components[i] == w.index.components[i].(units := w'.index.components[i].units)
  {
    EntryFrame(w, step);
  }

  lemma IssueSlot(w: World, user: Key, to: Key, amount: uint64, maxIn: seq<uint64>, w': World, i: nat)
    requires Sound(w) && Issue(w, user, to, amount, maxIn) == Ok(w') && i < |w.vaults|
    ensures var gross := Gross(w, amount);
      SlotLeft(w, w', i, w.vaults[i] + Cost(w, gross, i), UnitsAfterEntry(w, gross, i))
  {
    SlotStands(w, DoIssue(user, to, amount, maxIn), w', i);
    IssueMoves(w, user, to, amount, maxIn, w', i);
    IssuedSlotIsLeft(w, w', Gross(w, amount), i);
  }

  lemma IssuedSlotIsLeft(w: World, w': World, gross: nat, i: nat)
    requires i < |w.vaults| && IssuedSlot(w, w', gross, i)
    requires w'.index.components[i] == w.index.components[i].(units := w'.index.components[i].units)
    ensures SlotLeft(w, w', i, w.vaults[i] + Cost(w, gross, i), UnitsAfterEntry(w, gross, i))
  {
  }

  lemma IssueAccount(w: World, user: Key, to: Key, amount: uint64, maxIn: seq<uint64>, w': World, a: Account)
    requires Sound(w) && Issue(w, user, to, amount, maxIn) == Ok(w')
    ensures Balance(w'.wallets, a) == Balance(w.wallets, a) + Minted(a, to, amount)
      + Collected(w, a, FeeOn(amount, w.index.params.issueFeeBps)) - CostTo(w, user, Gross(w, amount), a)
  {
    IssueRecord(w, user, to, amount, maxIn, w');
    AccrualSucceedsExactly(w);
    IssueTradesWithUser(w, user, to, amount, maxIn, w', a);
    var slot := SlotOf(w, a);
    if slot.Some? {
      IssueMoves(w, user, to, amount, maxIn, w', slot.value);
    }
  }

  lemma RedeemLeavesIt(w: World, user: Key, to: Key, amount: uint64, minOut: seq<uint64>, w': World)
    requires Sound(w) && Redeem(w, user, to, amount, minOut) == Ok(w')
    ensures 0 <= Net(w, amount) && RedeemLeaves(w, user, to, amount, w')
  {
    RedeemRecord(w, user, to, amount, minOut, w');
    var net := Net(w, amount);
    forall i | 0 <= i < |w.vaults|
      ensures SlotLeft(w, w', i, w.vaults[i] - Proceeds(w, net, i), UnitsLeft(w, net, i))
    {
      RedeemSlot(w, user, to, amount, minOut, w', i);
    }
    forall a {:trigger Balance(w'.wallets, a)}
      ensures Balance(w'.wallets, a) == Balance(w.wallets, a) - Minted(a, user, amount)
        + Collected(w, a, FeeOn(amount, w.index.params.redeemFeeBps)) + ProceedsTo(w, to, net, a)
    {
      RedeemAccount(w, user, to, amount, minOut, w', a);
    }
  }

  lemma RedeemRecord(w: World, user: Key, to: Key, amount: uint64, minOut: seq<uint64>, w': World)
    requires Sound(w) && Redeem(w, user, to, amount, minOut) == Ok(w')
    ensures 0 <= Net(w, amount) && BilledRecord(w, w') && w'.supply == w.supply + FeeDue(w) - Net(w, amount)
  {
    EntryFrame(w, DoRedeem(user, to, amount, minOut));
    AccrualSucceedsExactly(w);
    RedeemMoves(w, user, to, amount, minOut, w', 0);
  }

  lemma RedeemSlot(w: World, user: Key, to: Key, amount: uint64, minOut: seq<uint64>, w': World, i: nat)
    requires Sound(w) && Redeem(w, user, to, amount, minOut) == Ok(w') && i < |w.vaults|
    ensures var net := Net(w, amount);
      0 <= net && SlotLeft(w, w', i, w.vaults[i] - Proceeds(w, net, i), UnitsLeft(w, net, i))
  {
    SlotStands(w, DoRedeem(user, to, amount, minOut), w', i);
    RedeemMoves(w, user, to, amount, minOut, w', i);
    RedeemedSlotIsLeft(w, w', Net(w, amount), i);
  }

  lemma RedeemedSlotIsLeft(w: World, w': World, net: nat, i: nat)
    requires i < |w.vaults| && RedeemedSlot(w, w', net, i)
    requires w'.index.components[i] == w.index.components[i].(units := w'.index.components[i].units)
    ensures SlotLeft(w, w', i, w.vaults[i] - Proceeds(w, net, i), UnitsLeft(w, net, i))
  {
  }

  lemma RedeemAccount(w: World, user: Key, to: Key, amount: uint64, minOut: seq<uint64>, w': World, a: Account)
    requires Sound(w) && Redeem(w, user, to, amount, minOut) == Ok(w')
    ensures 0 <= Net(w, amount)
    ensures Balance(w'.wallets, a) == Balance(w.wallets, a) - Minted(a, user, amount)
      + Collected(w, a, FeeOn(amount, w.index.params.redeemFeeBps)) + ProceedsTo(w, to, Net(w, amount), a)
  {
    RedeemRecord(w, user, to, amount, minOut, w');
    AccrualSucceedsExactly(w);
    RedeemTradesWithRecipient(w, user, to, amount, minOut, w', a);
    var slot := SlotOf(w, a);
    if slot.Some? {
      RedeemMoves(w, user, to, amount, minOut, w', slot.value);
    }
  }

  lemma BidLeavesIt(w: World, bidder: Key, to: Key, s: uint8, b: uint8, sellAmount: uint64, maxBuyAmount: uint64,
                    w': World)
    requires Sound(w) && Bid(w, bidder, to, s, b, sellAmount, maxBuyAmount) == Ok(w')
    ensures BidMeets(w, bidder, to, s, b, sellAmount, maxBuyAmount)
    ensures BidLeaves(w, bidder, to, s, b, sellAmount, BidPrice(w, s, b, sellAmount), w')
  {
    BidSucceedsExactly(w, bidder, to, s, b, sellAmount, maxBuyAmount);
    PricedAtPremiumNow(w);
    LegGuards(w, s, b, sellAmount, maxBuyAmount, PremiumNow(w));
    CapNeedsSupply(w, b);
    FillLeavesIt(w, bidder, to, s, b, sellAmount, BidPrice(w, s, b, sellAmount), w');
  }

  lemma FillLeavesIt(w: World, bidder: Key, to: Key, s: nat, b: nat, sold: uint64, paid: uint64, w': World)
    requires s < |w.vaults| && b < |w.vaults| && s != b && w.supply > 0 && Distinct(w.index.components)
    requires FillBid(w, bidder, to, s, b, sold, paid) == Ok(w')
    ensures BidLeaves(w, bidder, to, s, b, sold, paid, w')
  {
    FillBidEffect(w, bidder, to, s, b, sold, paid, w');
    forall i | 0 <= i < |w.vaults|
      ensures SlotLeft(w, w', i, VaultAfterFill(w, s, b, sold, paid, i), DerivedUnits(0, w'.vaults[i], w.supply))
    {
      assert Resynced(w.index.components[i], w'.index.components[i], w'.vaults[i], w'.supply);
    }
    forall a {:trigger Balance(w'.wallets, a)}
      ensures Balance(w'.wallets, a) == Balance(w.wallets, a)
        + (if a == ComponentAccount(w, to, s) then sold as int else 0)
        - (if a == ComponentAccount(w, bidder, b) then paid as int else 0)
    {
      FilledAccount(w, bidder, to, s, b, sold, paid, w', a);
    }
  }

  lemma FilledAccount(w: World, bidder: Key, to: Key, s: nat, b: nat, sold: uint64, paid: uint64, w': World, a: Account)
    requires s < |w.vaults| && b < |w.vaults| && s != b && Distinct(w.index.components)
    requires FillBid(w, bidder, to, s, b, sold, paid) == Ok(w')
    ensures Balance(w'.wallets, a) == Balance(w.wallets, a)
      + (if a == ComponentAccount(w, to, s) then sold as int else 0)
      - (if a == ComponentAccount(w, bidder, b) then paid as int else 0)
  {
    assert w.index.components[s].mint != w.index.components[b].mint;
    assert ComponentAccount(w, to, s) != ComponentAccount(w, bidder, b);
    FillAccounts(w, bidder, to, s, b, sold, paid, w', a);
  }

  lemma ClosingLeavesIt(w: World, caller: Key, w': World)
    requires EndRebalance(w, caller) == Ok(w')
    ensures ClosingLeaves(w, w')
  {
    EndFrame(w, DoEnd(caller));
    forall i | 0 <= i < |w.vaults|
      ensures var d := w'.index.components[i];
        d == w.index.components[i].(units := d.units, targetUnits := d.units) && d.units == HeldUnits(w, i)
    {
    }
  }

  lemma ClosingIsExact(w: World, caller: Key)
    requires Sound(w)
    ensures EndRebalance(w, caller).Ok? <==> ClosingMeets(w, caller)
    ensures EndRebalance(w, caller).Ok? ==> ClosingLeaves(w, EndRebalance(w, caller).value)
  {
    assert forall i :: 0 <= i < |w.vaults| ==>
      HeldUnits(w, i) == DerivedUnits(w.index.components[i].units, w.vaults[i], w.supply);
    SyncUnitsEffect(w);
    if EndRebalance(w, caller).Ok? {
      ClosingLeavesIt(w, caller, EndRebalance(w, caller).value);
    }
  }

  /** Setting up, governing and what anyone may do. */
  predicate Plain(step: Step) {
    || step.DoInit? || step.DoAddComponent? || step.DoSeal?
    || step.DoSetParams? || step.DoSetAuthority? || step.DoSetPaused?
  }

  lemma PlainStepsAreExact(w: World, step: Step)
    requires Sound(w) && Plain(step)
    ensures Apply(w, step).Ok? <==> Accepts(w, step)
    ensures Apply(w, step).Ok? ==> Leaves(w, step, Apply(w, step).value)
  {
  }

  lemma DonationIsExact(w: World, step: Step)
    requires step.Donate?
    ensures Apply(w, step).Ok? <==> Accepts(w, step)
    ensures Apply(w, step).Ok? ==> Leaves(w, step, Apply(w, step).value)
  {
  }

  lemma SendingIsExact(w: World, step: Step)
    requires step.Send?
    ensures Apply(w, step).Ok? <==> Accepts(w, step)
    ensures Apply(w, step).Ok? ==> Leaves(w, step, Apply(w, step).value)
  {
  }

  lemma BurningIsExact(w: World, step: Step)
    requires step.Burn? && w.supply == Total(w.wallets, IndexMint)
    ensures Apply(w, step).Ok? <==> Accepts(w, step)
    ensures Apply(w, step).Ok? ==> Leaves(w, step, Apply(w, step).value)
  {
    BalanceWithinTotal(w.wallets, Account(step.holder, IndexMint));
  }

  lemma IssuingIsExact(w: World, step: Step)
    requires Sound(w) && step.DoIssue?
    ensures Apply(w, step).Ok? <==> Accepts(w, step)
    ensures Apply(w, step).Ok? ==> Leaves(w, step, Apply(w, step).value)
  {
    IssueSucceedsExactly(w, step.user, step.to, step.amount, step.maxIn);
    if Apply(w, step).Ok? {
      IssueLeavesIt(w, step.user, step.to, step.amount, step.maxIn, Apply(w, step).value);
    }
  }

  lemma RedeemingIsExact(w: World, step: Step)
    requires Sound(w) && step.DoRedeem?
    ensures Apply(w, step).Ok? <==> Accepts(w, step)
    ensures Apply(w, step).Ok? ==> Leaves(w, step, Apply(w, step).value)
  {
    RedeemSucceedsExactly(w, step.user, step.to, step.amount, step.minOut);
    if Apply(w, step).Ok? {
      RedeemLeavesIt(w, step.user, step.to, step.amount, step.minOut, Apply(w, step).value);
    }
  }

  lemma ProposingIsExact(w: World, step: Step)
    requires Sound(w) && step.DoPropose?
    ensures Apply(w, step).Ok? <==> Accepts(w, step)
    ensures Apply(w, step).Ok? ==> Leaves(w, step, Apply(w, step).value)
  {
    ProposalSucceedsExactly(w, step.caller, step.targets, step.prices, step.auction);
    if Apply(w, step).Ok? {
      ProposalOpensAuction(w, step.caller, step.targets, step.prices, step.auction, Apply(w, step).value);
    }
  }

  lemma BiddingIsExact(w: World, step: Step)
    requires Sound(w) && step.DoBid?
    ensures Apply(w, step).Ok? <==> Accepts(w, step)
    ensures Apply(w, step).Ok? ==> Leaves(w, step, Apply(w, step).value)
  {
    BidSucceedsExactly(w, step.bidder, step.to, step.sell, step.buy, step.sellAmount, step.maxBuyAmount);
    if Apply(w, step).Ok? {
      BidLeavesIt(w, step.bidder, step.to, step.sell, step.buy, step.sellAmount, step.maxBuyAmount,
                  Apply(w, step).value);
    }
  }

  /** In a sound world a step is accepted exactly when it meets what it needs, and then leaves exactly
      what is written down for it: every field of the record, every slot, the supply, the clock and every
      token account. */
  lemma StepsAreExact(w: World, step: Step)
    requires Sound(w)
    ensures Apply(w, step).Ok? <==> Accepts(w, step)
    ensures Apply(w, step).Ok? ==> Leaves(w, step, Apply(w, step).value)
  {
    match step
    case DoIssue(_, _, _, _) => IssuingIsExact(w, step);
    case DoRedeem(_, _, _, _) => RedeemingIsExact(w, step);
    case DoAccrue => AccrualIsExact(w);
    case DoPropose(_, _, _, _) => ProposingIsExact(w, step);
    case DoBid(_, _, _, _, _, _) => BiddingIsExact(w, step);
    case DoEnd(caller) => ClosingIsExact(w, caller);
    case Donate(_, _, _) => DonationIsExact(w, step);
    case Burn(_, _) => BurningIsExact(w, step);
    case Send(_, _, _) => SendingIsExact(w, step);
    case Wait(_) =>
    case _ => PlainStepsAreExact(w, step);
  }

  // ---------------------------------------------------------------------------------------------
  // Nothing is left open
  // ---------------------------------------------------------------------------------------------

  /** Two worlds that nothing read from them tells apart. */
  ghost predicate SameWorld(v: World, v': World) {
    && v.index == v'.index && v.vaults == v'.vaults && v.supply == v'.supply && v.clock == v'.clock
    && forall a :: Balance(v.wallets, a) == Balance(v'.wallets, a)
  }

  lemma IssuesAgree(w: World, user: Key, to: Key, amount: uint64, v: World, v': World)
    requires IssueLeaves(w, user, to, amount, v) && IssueLeaves(w, user, to, amount, v')
    ensures SameWorld(v, v')
  {
    forall i | 0 <= i < |w.vaults|
      ensures v.vaults[i] == v'.vaults[i] && v.index.components[i] == v'.index.components[i]
    {
      var gross := Gross(w, amount);
      SlotsAgree(w, v, v', i, w.vaults[i] + Cost(w, gross, i), UnitsAfterEntry(w, gross, i));
    }
    assert v.index.components == v'.index.components;
  }

  lemma SlotsAgree(w: World, v: World, v': World, i: nat, vault: int, units: int)
    requires SlotLeft(w, v, i, vault, units) && SlotLeft(w, v', i, vault, units)
    ensures v.vaults[i] == v'.vaults[i] && v.index.components[i] == v'.index.components[i]
  {
  }

  lemma RedemptionsAgree(w: World, user: Key, to: Key, amount: uint64, v: World, v': World)
    requires 0 <= Net(w, amount)
    requires RedeemLeaves(w, user, to, amount, v) && RedeemLeaves(w, user, to, amount, v')
    ensures SameWorld(v, v')
  {
    forall i | 0 <= i < |w.vaults|
      ensures v.vaults[i] == v'.vaults[i] && v.index.components[i] == v'.index.components[i]
    {
      var net := Net(w, amount);
      SlotsAgree(w, v, v', i, w.vaults[i] - Proceeds(w, net, i), UnitsLeft(w, net, i));
    }
    assert v.index.components == v'.index.components;
  }

  lemma AccrualsAgree(w: World, v: World, v': World)
    requires AccrualLeaves(w, v) && AccrualLeaves(w, v')
    ensures SameWorld(v, v')
  {
    forall i | 0 <= i < |w.vaults|
      ensures v.vaults[i] == v'.vaults[i] && v.index.components[i] == v'.index.components[i]
    {
      SlotsAgree(w, v, v', i, w.vaults[i], PricedUnits(w, i));
    }
    assert v.index.components == v'.index.components;
  }

  lemma BidsAgree(w: World, bidder: Key, to: Key, s: nat, b: nat, sold: nat, paid: nat, v: World, v': World)
    requires s < |w.vaults| && b < |w.vaults|
    requires BidLeaves(w, bidder, to, s, b, sold, paid, v) && BidLeaves(w, bidder, to, s, b, sold, paid, v')
    ensures SameWorld(v, v')
  {
    forall i | 0 <= i < |w.vaults|
      ensures v.vaults[i] == v'.vaults[i] && v.index.components[i] == v'.index.components[i]
    {
      var vault := VaultAfterFill(w, s, b, sold, paid, i);
      SlotsAgree(w, v, v', i, vault, DerivedUnits(0, v.vaults[i], w.supply));
    }
    assert v.index.components == v'.index.components;
  }

  lemma ClosingsAgree(w: World, v: World, v': World)
    requires ClosingLeaves(w, v) && ClosingLeaves(w, v')
    ensures SameWorld(v, v')
  {
    assert |v.vaults| == |v'.vaults| == |w.vaults|;
    forall i | 0 <= i < |w.vaults| ensures v.index.components[i] == v'.index.components[i] {
    }
    assert v.index.components == v'.index.components;
  }

  lemma PlainStepsAgree(w: World, step: Step, v: World, v': World)
    requires Plain(step) || step.DoPropose? || step.Wait?
    requires Accepts(w, step) && Leaves(w, step, v) && Leaves(w, step, v')
    ensures SameWorld(v, v')
  {
  }

  lemma TransfersAgree(w: World, step: Step, v: World, v': World)
    requires step.Donate? || step.Burn? || step.Send?
    requires Accepts(w, step) && Leaves(w, step, v) && Leaves(w, step, v')
    ensures SameWorld(v, v')
  {
  }

  lemma TradesAgree(w: World, step: Step, v: World, v': World)
    requires step.DoIssue? || step.DoRedeem?
    requires Accepts(w, step) && Leaves(w, step, v) && Leaves(w, step, v')
    ensures SameWorld(v, v')
  {
    if step.DoIssue? {
      IssuesAgree(w, step.user, step.to, step.amount, v, v');
    } else {
      RedemptionsAgree(w, step.user, step.to, step.amount, v, v');
    }
  }

  lemma AuctionStepsAgree(w: World, step: Step, v: World, v': World)
    requires step.DoBid? || step.DoEnd? || step.DoAccrue?
    requires Accepts(w, step) && Leaves(w, step, v) && Leaves(w, step, v')
    ensures SameWorld(v, v')
  {
    if step.DoBid? {
      BidsAgree(w, step.bidder, step.to, step.sell, step.buy, step.sellAmount,
                BidPrice(w, step.sell, step.buy, step.sellAmount), v, v');
    } else if step.DoEnd? {
      ClosingsAgree(w, v, v');
    } else {
      AccrualsAgree(w, v, v');
    }
  }

  /** Two worlds that are what a step leaves agree on everything that can be read from them. */
  lemma LeavesOneWorld(w: World, step: Step, v: World, v': World)
    requires Accepts(w, step) && Leaves(w, step, v) && Leaves(w, step, v')
    ensures SameWorld(v, v')
  {
    if step.DoIssue? || step.DoRedeem? {
      TradesAgree(w, step, v, v');
    } else if step.DoBid? || step.DoEnd? || step.DoAccrue? {
      AuctionStepsAgree(w, step, v, v');
    } else if step.Donate? || step.Burn? || step.Send? {
      TransfersAgree(w, step, v, v');
    } else {
      PlainStepsAgree(w, step, v, v');
    }
  }
}
