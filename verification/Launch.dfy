/** A fund of two components brought from nothing to a running auction: every world named here is one
    that a run reaches from before the index exists. */
module Launch {
  import opened Words
  import opened Division
  import opened FixedPoint
  import opened Shares
  import opened Accounts
  import opened Tokens
  import opened Handlers
  import opened Effects
  import opened Runs
  import opened Invariant

  const GOVERNOR: Key := 1
  const MANAGER: Key := 2
  const COLLECTOR: Key := 3
  const TRADER: Key := 9

  /** One component: how the table lists it, what the trader owns of it, and what is proposed for it. */
  datatype Leg = Leg(decimals: uint8, units: uint64, stock: uint64, target: uint64, price: uint64)

  /** A fund without fees that the trader enters first, with a whole number of index tokens. */
  datatype Plan = Plan(first: Leg, second: Leg, tokens: nat, maxPremiumBps: uint16, auction: AuctionParams) {
    function Parameters(): Params {
      Params(0, 0, 0, maxPremiumBps, 300)
    }
  }

  predicate FeasibleLeg(leg: Leg, tokens: nat) {
    0 < leg.units && 0 < leg.price && leg.units * tokens <= leg.stock
  }

  predicate Feasible(p: Plan) {
    && FeasibleLeg(p.first, p.tokens) && FeasibleLeg(p.second, p.tokens)
    && 0 < p.tokens * UNIT_SCALE <= U64_MAX
    && p.maxPremiumBps <= 1_000 && AuctionParamsAllowed(p.auction, p.maxPremiumBps)
    && 0 < p.auction.duration <= MAX_AUCTION_DURATION
  }

  function Supply(p: Plan): uint64
    requires Feasible(p)
  {
    p.tokens * UNIT_SCALE
  }

  function Held(leg: Leg, tokens: nat): uint64
    requires FeasibleLeg(leg, tokens)
  {
    leg.units * tokens
  }

  /** A component as it is listed, and as a proposal leaves it. */
  function Listed(mint: Key, leg: Leg): Component {
    Component(mint, leg.units, leg.units, 0, leg.decimals)
  }

  function Proposed(mint: Key, leg: Leg): Component {
    Component(mint, leg.units, leg.target, leg.price, leg.decimals)
  }

  // ---------------------------------------------------------------------------------------------
  // The worlds along the way
  // ---------------------------------------------------------------------------------------------

  function Purse(p: Plan): map<Account, uint64> {
    map[Account(TRADER, ComponentMint(1)) := p.first.stock, Account(TRADER, ComponentMint(2)) := p.second.stock]
  }

  function EmptyChain(p: Plan): World {
    World(NO_INDEX, [], 0, Purse(p), 0)
  }

  function SetUpFund(p: Plan, status: Status, cs: seq<Component>): World {
    World(Index(status, GOVERNOR, MANAGER, COLLECTOR, 0, 0, p.Parameters(), cs, NO_REBALANCE),
          seq(|cs|, _ => 0), 0, Purse(p), 0)
  }

  function Table(p: Plan): seq<Component> {
    [Listed(1, p.first), Listed(2, p.second)]
  }

  function EnteredPurse(p: Plan): map<Account, uint64>
    requires Feasible(p)
  {
    map[Account(TRADER, ComponentMint(1)) := p.first.stock - Held(p.first, p.tokens),
        Account(TRADER, ComponentMint(2)) := p.second.stock - Held(p.second, p.tokens),
        Account(TRADER, IndexMint) := Supply(p)]
  }

  function Balances(p: Plan): seq<uint64>
    requires Feasible(p)
  {
    [Held(p.first, p.tokens), Held(p.second, p.tokens)]
  }

  function FoundedFund(p: Plan): World
    requires Feasible(p)
  {
    World(Index(Live, GOVERNOR, MANAGER, COLLECTOR, 0, 0, p.Parameters(), Table(p), NO_REBALANCE),
          Balances(p), Supply(p), EnteredPurse(p), 0)
  }

  function ProposedTable(p: Plan): seq<Component> {
    [Proposed(1, p.first), Proposed(2, p.second)]
  }

  function Auction(p: Plan, navFloor: uint64): Rebalance
    requires Feasible(p)
  {
    Rebalance(true, MANAGER, 0, 300, 300 + p.auction.duration, navFloor,
              p.auction.startPremiumBps, p.auction.endPremiumBps, p.auction.maxNavLossBps)
  }

  /** The fund `now` seconds after a proposal with that NAV floor. */
  function OpenFund(p: Plan, navFloor: uint64, now: int64): World
    requires Feasible(p)
  {
    World(Index(Live, GOVERNOR, MANAGER, COLLECTOR, 0, 0, p.Parameters(), ProposedTable(p), Auction(p, navFloor)),
          Balances(p), Supply(p), EnteredPurse(p), now)
  }

  // ---------------------------------------------------------------------------------------------
  // The steps between them
  // ---------------------------------------------------------------------------------------------

  lemma SettingUp(p: Plan)
    requires Feasible(p)
    ensures InitIndex(EmptyChain(p), GOVERNOR, MANAGER, COLLECTOR, p.Parameters())
      == Ok(SetUpFund(p, Bootstrapping, []))
    ensures AddComponent(SetUpFund(p, Bootstrapping, []), MANAGER, 1, p.first.decimals, p.first.units)
         == Ok(SetUpFund(p, Bootstrapping, [Listed(1, p.first)]))
    ensures AddComponent(SetUpFund(p, Bootstrapping, [Listed(1, p.first)]), MANAGER, 2, p.second.decimals,
                         p.second.units)
         == Ok(SetUpFund(p, Bootstrapping, Table(p)))
    ensures SealIndex(SetUpFund(p, Bootstrapping, Table(p)), MANAGER) == Ok(SetUpFund(p, Live, Table(p)))
  {
    assert [] + [Listed(1, p.first)] == [Listed(1, p.first)];
    assert SetUpFund(p, Bootstrapping, []).vaults == [];
    assert SetUpFund(p, Bootstrapping, [Listed(1, p.first)]).vaults == [] + [0];
    assert FindComponent([Listed(1, p.first)], 2).None?;
    assert [Listed(1, p.first)] + [Listed(2, p.second)] == Table(p);
    assert SetUpFund(p, Bootstrapping, Table(p)).vaults
      == SetUpFund(p, Bootstrapping, [Listed(1, p.first)]).vaults + [0];
  }

  /** Whole tokens cost whole multiples of the units. */
  lemma WholeCharge(leg: Leg, tokens: nat)
    requires FeasibleLeg(leg, tokens) && 0 < tokens * UNIT_SCALE <= U64_MAX
    ensures UnitsIn(leg.units, tokens * UNIT_SCALE) == Ok(Held(leg, tokens))
    ensures Held(leg, tokens) * UNIT_SCALE / (tokens * UNIT_SCALE) == leg.units
  {
    var held, gross := leg.units * tokens, tokens * UNIT_SCALE;
    assert leg.units * gross == held * UNIT_SCALE;
    CeilAtMost(held, leg.units * gross, UNIT_SCALE);
    CeilAbove(held - 1, leg.units * gross, UNIT_SCALE);
    UnitsInValue(leg.units, gross);
    WholeUnits(leg.units, held * UNIT_SCALE, gross);
  }

  lemma WholeUnits(units: nat, n: nat, d: nat)
    requires d > 0 && units * d == n
    ensures n / d == units
  {
    FloorAtLeast(units, n, d);
    assert (units + 1) * d == n + d;
    FloorBelow(units + 1, n, d);
  }

  function PaidFund(p: Plan): World
    requires Feasible(p)
  {
    SetUpFund(p, Live, Table(p)).(vaults := Balances(p),
      wallets := map[Account(TRADER, ComponentMint(1)) := p.first.stock - Held(p.first, p.tokens),
                     Account(TRADER, ComponentMint(2)) := p.second.stock - Held(p.second, p.tokens)])
  }

  lemma FirstDelivery(p: Plan)
    requires Feasible(p)
    ensures DeliverFrom(SetUpFund(p, Live, Table(p)), TRADER, Balances(p), Supply(p), 0) == Ok(PaidFund(p))
  {
    var w := SetUpFund(p, Live, Table(p));
    WholeCharge(p.first, p.tokens);
    WholeCharge(p.second, p.tokens);
    assert p.first.units * p.tokens > 0 && p.second.units * p.tokens > 0;
    var one := TransferFromUser(w, TRADER, 0, Held(p.first, p.tokens)).value;
    assert one.vaults == [Held(p.first, p.tokens), 0];
    var two := TransferFromUser(one, TRADER, 1, Held(p.second, p.tokens)).value;
    assert two.vaults == Balances(p) && two.wallets == PaidFund(p).wallets;
    assert DeliverFrom(one, TRADER, Balances(p), Supply(p), 1) == Ok(two);
  }

  lemma Founding(p: Plan)
    requires Feasible(p)
    ensures Issue(SetUpFund(p, Live, Table(p)), TRADER, TRADER, Supply(p), Balances(p)) == Ok(FoundedFund(p))
  {
    var w, w' := SetUpFund(p, Live, Table(p)), FoundedFund(p);
    assert Accrue(w) == Ok(w) && SyncUnits(w) == Ok(w);
    assert FlatFee(Supply(p), 0) == Ok(0);
    FirstDelivery(p);
    FirstMints(p);
    WholeCharge(p.first, p.tokens);
    WholeCharge(p.second, p.tokens);
    StillInStep(w');
    IssueChargedByStages(w, TRADER, TRADER, Supply(p), 0, Balances(p), PaidFund(p), w', w', w');
    IssueByStages(w, TRADER, TRADER, Supply(p), Balances(p), w, 0, w');
  }

  lemma FirstMints(p: Plan)
    requires Feasible(p)
    ensures MintIndexTokens(PaidFund(p), TRADER, Supply(p)) == Ok(FoundedFund(p))
    ensures MintIndexTokens(FoundedFund(p), COLLECTOR, 0) == Ok(FoundedFund(p))
  {
    assert PaidFund(p).wallets[Account(TRADER, IndexMint) := Supply(p)] == FoundedFund(p).wallets;
  }

  /** A sync rewrites nothing where the units are in step. */
  lemma StillInStep(w: World)
    requires forall i :: 0 <= i < |w.vaults| ==>
      DerivedUnits(w.index.components[i].units, w.vaults[i], w.supply) == w.index.components[i].units
    ensures SyncUnits(w) == Ok(w)
  {
    SyncUnitsEffect(w);
    var synced := SyncUnits(w).value;
    forall i | 0 <= i < |w.vaults| ensures synced.index.components[i] == w.index.components[i] {
      assert Resynced(w.index.components[i], synced.index.components[i], w.vaults[i], w.supply);
    }
    assert synced.index.components == w.index.components;
  }

  lemma Proposing(p: Plan, nav: uint64, navFloor: uint64)
    requires Feasible(p) && NavE6(ProposedTable(p), Balances(p)) == Ok(nav)
    requires navFloor == nav * (BPS - p.auction.maxNavLossBps) / BPS
    ensures ProposeRebalance(FoundedFund(p), MANAGER, [p.first.target, p.second.target],
                             [p.first.price, p.second.price], p.auction)
         == Ok(OpenFund(p, navFloor, 0))
  {
    var w, prices := FoundedFund(p), [p.first.price, p.second.price];
    RetargetEffect(w.index.components, [p.first.target, p.second.target], prices, 0);
    assert RetargetFrom(w.index.components, [p.first.target, p.second.target], prices, 0) == ProposedTable(p);
    ProductFits(nav, BPS - p.auction.maxNavLossBps);
    assert MulDivFloor(nav, BPS - p.auction.maxNavLossBps, BPS) == Ok(navFloor);
  }

  function LaunchSteps(p: Plan, now: nat): seq<Step>
    requires Feasible(p)
  {
    [DoInit(GOVERNOR, MANAGER, COLLECTOR, p.Parameters()),
     DoAddComponent(MANAGER, 1, p.first.decimals, p.first.units),
     DoAddComponent(MANAGER, 2, p.second.decimals, p.second.units),
     DoSeal(MANAGER),
     DoIssue(TRADER, TRADER, Supply(p), Balances(p)),
     DoPropose(MANAGER, [p.first.target, p.second.target], [p.first.price, p.second.price], p.auction),
     Step.Wait(now)]
  }

  function LaunchWorlds(p: Plan, navFloor: uint64, now: int64): seq<World>
    requires Feasible(p)
  {
    [EmptyChain(p), SetUpFund(p, Bootstrapping, []), SetUpFund(p, Bootstrapping, [Listed(1, p.first)]),
     SetUpFund(p, Bootstrapping, Table(p)), SetUpFund(p, Live, Table(p)), FoundedFund(p),
     OpenFund(p, navFloor, 0), OpenFund(p, navFloor, now)]
  }

  lemma SettingUpFollows(p: Plan, navFloor: uint64, now: nat, k: nat)
    requires Feasible(p) && now <= I64_MAX && k < 4
    ensures Follows(LaunchWorlds(p, navFloor, now), LaunchSteps(p, now), k)
  {
    SettingUp(p);
    assert k == 0 || k == 1 || k == 2 || k == 3;
  }

  lemma AuctionFollows(p: Plan, nav: uint64, navFloor: uint64, now: nat, k: nat)
    requires Feasible(p) && NavE6(ProposedTable(p), Balances(p)) == Ok(nav) && now <= I64_MAX
    requires navFloor == nav * (BPS - p.auction.maxNavLossBps) / BPS && 4 <= k < 7
    ensures Follows(LaunchWorlds(p, navFloor, now), LaunchSteps(p, now), k)
  {
    var worlds, steps := LaunchWorlds(p, navFloor, now), LaunchSteps(p, now);
    if k == 4 {
      Founding(p);
    } else if k == 5 {
      Proposing(p, nav, navFloor);
    } else {
      assert Apply(worlds[6], steps[6]) == Ok(worlds[7]);
    }
  }

  /** The open fund is reached from before the index exists, so it is sound. */
  lemma OpenFundIsReachable(p: Plan, nav: uint64, navFloor: uint64, now: nat)
    returns (worlds: seq<World>, steps: seq<Step>)
    requires Feasible(p) && NavE6(ProposedTable(p), Balances(p)) == Ok(nav) && now <= I64_MAX
    requires navFloor == nav * (BPS - p.auction.maxNavLossBps) / BPS
    ensures Run(worlds, steps) && Genesis(worlds[0]) && worlds[|steps|] == OpenFund(p, navFloor, now)
    ensures Sound(OpenFund(p, navFloor, now))
  {
    worlds, steps := LaunchWorlds(p, navFloor, now), LaunchSteps(p, now);
    forall k | 0 <= k < |steps| ensures Follows(worlds, steps, k) {
      if k < 4 {
        SettingUpFollows(p, navFloor, now, k);
      } else {
        AuctionFollows(p, nav, navFloor, now, k);
      }
    }
    NoIndexTokens(p);
    ReachableIsSound(worlds, steps, |steps|);
  }

  lemma NoIndexTokens(p: Plan)
    ensures Genesis(EmptyChain(p))
  {
    var a, b := Account(TRADER, ComponentMint(1)), Account(TRADER, ComponentMint(2));
    TotalUpdate(map[], a, p.first.stock, IndexMint);
    TotalUpdate(map[a := p.first.stock], b, p.second.stock, IndexMint);
    assert Purse(p) == map[a := p.first.stock][b := p.second.stock];
  }
}
