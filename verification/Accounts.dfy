/** The index record, the token accounts around it, and the world a transaction runs in. */
module Accounts {
  import opened Words

  const MAX_COMPONENTS: nat := 16
  const MAX_STREAMING_FEE_BPS: nat := 500
  const MAX_MINT_REDEEM_FEE_BPS: nat := 100
  const MAX_PREMIUM_CEILING_BPS: int := 1_000
  const MIN_REBALANCE_DELAY: nat := 300
  const MAX_AUCTION_DURATION: nat := 7 * 86_400

  type Key = nat

  /** The index mint is not a component mint: an index holding its own token is outside the model. */
  datatype Mint = IndexMint | ComponentMint(id: Key)

  /** A token account outside the fund: whose it is and what it holds. */
  datatype Account = Account(holder: Key, mint: Mint)

  datatype Status = Absent | Bootstrapping | Live | Paused {
    predicate Sealed() { Live? || Paused? }
  }

  datatype Component = Component(
    mint: Key,
    units: uint64,         // last derived claim of 1e9 index base units on the vault
    targetUnits: uint64,   // what the last proposal asks `units` to become
    refPriceE9: uint64,    // price the last proposal put on a whole token, in 1e-9 USD
    decimals: uint8
  )

  datatype Rebalance = Rebalance(
    active: bool,
    proposer: Key,
    proposedAt: int64,
    startTs: int64,
    endTs: int64,
    navFloorE6: uint64,
    startPremiumBps: int16,
    endPremiumBps: int16,
    maxNavLossBps: uint16
  )

  datatype Params = Params(
    streamingFeeBps: uint16,
    issueFeeBps: uint16,
    redeemFeeBps: uint16,
    maxPremiumBps: uint16,
    rebalanceDelay: uint32
  )

  datatype AuctionParams = AuctionParams(
    duration: uint32,
    startPremiumBps: int16,
    endPremiumBps: int16,
    maxNavLossBps: uint16
  )

  datatype Index = Index(
    status: Status,
    governor: Key,
    manager: Key,
    feeRecipient: Key,
    lastFeeAccrual: int64,
    createdAt: int64,
    params: Params,
    components: seq<Component>,
    rebalance: Rebalance
  )

  /** Everything a handler reads or writes: the index, its vaults in table order, the supply of the
      index mint, the token accounts outside the fund, and the clock. */
  datatype RawWorld = World(
    index: Index,
    vaults: seq<uint64>,
    supply: uint64,
    wallets: map<Account, uint64>,
    clock: int64
  )

  const NO_REBALANCE := Rebalance(false, 0, 0, 0, 0, 0, 0, 0, 0)
  const NO_INDEX := Index(Absent, 0, 0, 0, 0, 0, Params(0, 0, 0, 0, 0), [], NO_REBALANCE)

  /** One vault per component. */
  type World = w: RawWorld | |w.vaults| == |w.index.components|
    witness World(NO_INDEX, [], 0, map[], 0)

  /** What an account holds; an account that was never opened holds nothing. */
  function Balance(wallets: map<Account, uint64>, a: Account): uint64 {
    if a in wallets then wallets[a] else 0
  }

  /** The account of `holder` for the component in slot `i`. */
  function ComponentAccount(w: World, holder: Key, i: nat): Account
    requires i < |w.vaults|
  {
    Account(holder, ComponentMint(w.index.components[i].mint))
  }

  /** Position of a mint in the table, as the first match. */
  function FindComponent(cs: seq<Component>, mint: Key): (r: Option<nat>)
    ensures r.Some? ==> r.value < |cs| && cs[r.value].mint == mint
    ensures r.None? <==> forall i :: 0 <= i < |cs| ==> cs[i].mint != mint
  {
    FindFrom(cs, mint, 0)
  }

  function FindFrom(cs: seq<Component>, mint: Key, i: nat): (r: Option<nat>)
    requires i <= |cs|
    ensures r.Some? ==> i <= r.value < |cs| && cs[r.value].mint == mint
    ensures r.Some? ==> forall j :: i <= j < r.value ==> cs[j].mint != mint
    ensures r.None? <==> forall j :: i <= j < |cs| ==> cs[j].mint != mint
    decreases |cs| - i
  {
    if i == |cs| then None
    else if cs[i].mint == mint then Some(i)
    else FindFrom(cs, mint, i + 1)
  }
}
