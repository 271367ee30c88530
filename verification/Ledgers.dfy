/** The accounts of one fund as one value, the environment an instruction runs in, and the
    instructions.

    Derived addresses are constructors, so two derivations give the same address only when
    they have the same kind and the same seeds.  `Env.rank` is the order of the addresses'
    bytes; nothing is assumed about it except that it is a function. */
module Ledgers {
  import opened Results
  import opened Ints
  import opened Oracle

  datatype OrderKind = LimitKind | DcaKind

  datatype Address =
    | Key(id: nat)
    | WhitelistOf(fund: Address, mint: Address)
    | TradingOf(fund: Address)
    | VaultOf(fund: Address)
    | Ata(owner: Address, mint: Address)
    | OrderOf(kind: OrderKind, fund: Address, orderId: nat)
    | AuthOf(order: Address)
    | SolVaultOf(order: Address)

  /** The wrapped-SOL mint and the all-zero address. */
  const NATIVE_MINT: Address := Key(0)
  const DEFAULT_ADDRESS: Address := Key(1)

  datatype FundType = TradingFund | StrategyFund

  datatype Listing = Listing(decimals: u8, feed: Address)

  datatype Side = Buy | Sell
  datatype Status = Open | Executed | Cancelled

  /** An order's side, mint and status with the balances of its two vaults.  For a BUY order
      the token vault holds wrapped SOL. */
  datatype Escrow = Escrow(side: Side, mint: Address, status: Status, sol: u64, token: u64)

  datatype LimitOrder = LimitOrder(
    escrow: Escrow,
    amountIn: u64,
    minOut: u64,
    limitPrice: i64,
    priceExpo: i32,
    feed: Address,
    expiry: i64)

  datatype DcaOrder = DcaOrder(
    escrow: Escrow,
    total: u64,
    slice: u64,
    remaining: u64,
    interval: i64,
    nextExec: i64,
    minOut: u64,
    feed: Address,
    expiry: i64)

  datatype Request = Request(shares: u64, ts: i64)

  datatype Trading = Trading(
    locked: bool,
    borrowed: u64,
    minOut: u64,
    snapshotSol: u64,
    snapshotOutput: u64,
    outputMint: Address)

  const UNLOCKED: Trading := Trading(false, 0, 0, 0, 0, DEFAULT_ADDRESS)

  datatype Allocation = Allocation(mint: Address, weightBps: u16)

  const MAX_STRATEGY_TOKENS: nat := 8
  const NO_ALLOCATION: Allocation := Allocation(DEFAULT_ADDRESS, 0)

  /** `allocations` is the whole fixed-size table; the first `count` entries are in use. */
  datatype Strategy = Strategy(
    count: u8,
    allocations: seq<Allocation>,
    thresholdBps: u16,
    cooldown: i64,
    lastRebalance: i64)

  type StrategyAccount = s: Strategy | s.count <= MAX_STRATEGY_TOKENS == |s.allocations|
    witness Strategy(0, seq(MAX_STRATEGY_TOKENS, _ => NO_ALLOCATION), 0, 0, 0)

  /** `loose` is what lies at the vault addresses of orders that have no record, because they are
      not created yet or because their record is gone. */
  datatype Ledger = Ledger(
    key: Address,
    config: Address,
    manager: Address,
    fundType: FundType,
    minDeposit: u64,
    timelock: i64,
    totalShares: u64,
    enabledCount: u16,
    limitCount: u16,
    dcaCount: u16,
    nextOrderId: u64,
    vaultSol: u64,
    tokens: map<Address, u64>,
    listings: map<Address, Listing>,
    shares: map<Address, u64>,
    shareSupply: u64,
    wallets: map<Address, u64>,
    limits: map<nat, LimitOrder>,
    dcas: map<nat, DcaOrder>,
    requests: map<Address, Request>,
    loose: map<Address, u64>,
    trading: Trading,
    strategy: Option<StrategyAccount>)

  /** What an instruction reads besides the fund: the clock, the global configuration, the
      oracle (a feed that is missing here is unavailable, stale or too uncertain), the rents
      that end up in vaults and the byte order of addresses. */
  datatype Env = Env(
    now: i64,
    oracle: map<Address, Price>,
    solFeed: Address,
    keeper: Address,
    treasury: Address,
    depositFeeBps: u16,
    withdrawFeeBps: u16,
    maxSlippageBps: u16,
    solVaultRent: u64,
    tokenRent: u64,
    orderRent: u64,
    rank: Address -> int)

  /** The outcome of a swap an order's vault authority signed: the order's token vault may end
      anywhere, the fund's vaults may only be credited. */
  datatype Swap = Swap(orderTokenAfter: u64, solCredit: u64, tokenCredit: u64)

  /** The outcome of a swap the fund signed: its token vaults may end anywhere. */
  datatype FundSwap = FundSwap(tokensAfter: map<Address, u64>, solCredit: u64)

  /** One instruction of a transaction as the instructions sysvar shows it: whether it is this
      program's settle instruction, and its accounts. */
  datatype Meta = Meta(isSettle: bool, accounts: seq<Address>)

  datatype Vault =
    | FundSolVault
    | FundTokenVault(mint: Address)
    | LimitSolVault(id: nat)
    | LimitTokenVault(id: nat)
    | DcaSolVault(id: nat)
    | DcaTokenVault(id: nat)
    | UnusedSolVault(kind: OrderKind, id: nat)
    | UnusedTokenVault(kind: OrderKind, id: nat, mint: Address)

  /** Program instructions, then what anyone may do without the program: move share tokens and
      credit a vault.  A side is the byte the caller sends.  `other` says that the caller passes
      another account than the derived one where the handler does not pin it: the wrapped-SOL
      account of the order's authority that cancelling a limit BUY closes, then an empty one, or
      the fund's token account that cancelling a SELL refunds and creating a DCA SELL draws on. */
  datatype Ix =
    | Deposit(investor: Address, amount: u64, accounts: seq<Address>)
    | RequestWithdraw(investor: Address, amount: u64)
    | CancelWithdraw(investor: Address)
    | ExecuteWithdraw(investor: Address, accounts: seq<Address>)
    | AddToken(signer: Address, mint: Address, listing: Listing)
    | RemoveToken(signer: Address, mint: Address)
    | CreateLimit(signer: Address, side: u8, mint: Address, amount: u64, minOut: u64,
                  limitPrice: i64, priceExpo: i32, expiry: i64)
    | ExecuteLimit(signer: Address, id: nat, swap: Swap)
    | CancelLimit(signer: Address, id: nat, other: bool)
    | CreateDca(signer: Address, side: u8, mint: Address, amount: u64, slice: u64,
                interval: i64, minOut: u64, expiry: i64, other: bool)
    | ExecuteDca(signer: Address, id: nat, swap: Swap, solVaultPassed: bool)
    | CancelDca(signer: Address, id: nat, other: bool)
    | Borrow(signer: Address, amount: u64, minOut: u64, mint: Address, later: seq<Meta>)
    | Settle(accounts: seq<Address>)
    | SetStrategy(signer: Address, allocations: seq<Allocation>, thresholdBps: u16,
                  cooldown: i64, accounts: seq<Address>)
    | Rebalance(signer: Address, mint: Address, minOut: u64, accounts: seq<Address>, fundSwap: FundSwap)
    | TransferShares(sender: Address, receiver: Address, amount: u64)
    | CreditVault(vault: Vault, amount: u64)

  // ---- the vaults of an order ----------------------------------------------------------------

  function SolVaultAt(fund: Address, kind: OrderKind, id: nat): Address {
    SolVaultOf(OrderOf(kind, fund, id))
  }

  function TokenVaultAt(fund: Address, kind: OrderKind, id: nat, mint: Address): Address {
    Ata(AuthOf(OrderOf(kind, fund, id)), mint)
  }

  /** The mint of an order's token vault. */
  function VaultMint(side: Side, mint: Address): Address {
    match side
    case Buy => NATIVE_MINT
    case Sell => mint
  }

  // ---- balances --------------------------------------------------------------------------

  function Balance(m: map<Address, u64>, who: Address): u64 {
    if who in m then m[who] else 0
  }

  function CreditTo(m: map<Address, u64>, who: Address, amount: u64): Result<map<Address, u64>> {
    var after :- AddU64(Balance(m, who), amount);
    Ok(m[who := after])
  }

  function DebitFrom(m: map<Address, u64>, who: Address, amount: u64): Result<map<Address, u64>> {
    if Balance(m, who) < amount then Err(InsufficientFunds) else
    Ok(m[who := Balance(m, who) - amount])
  }

  /** Lamports moved between two wallets; nothing is invoked for zero lamports. */
  function Move(m: map<Address, u64>, sender: Address, receiver: Address, amount: u64): Result<map<Address, u64>> {
    if amount == 0 then Ok(m)
    else
      var debited :- DebitFrom(m, sender, amount);
      CreditTo(debited, receiver, amount)
  }

  function LoadPrice(env: Env, feed: Address): Result<Price> {
    if feed !in env.oracle then Err(StaleOracle) else
    :- Need(env.oracle[feed].price > 0, InvalidOracle);
    Ok(env.oracle[feed])
  }

  // ---- order books -----------------------------------------------------------------------

  /** The escrows of a book of orders, whatever their status. */
  function LimitBook(s: Ledger): map<nat, Escrow> {
    map id | id in s.limits :: s.limits[id].escrow
  }

  function DcaBook(s: Ledger): map<nat, Escrow> {
    map id | id in s.dcas :: s.dcas[id].escrow
  }

  function OpenIds(book: map<nat, Escrow>): set<nat> {
    set id | id in book && book[id].status.Open?
  }
}
