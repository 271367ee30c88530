/** The handlers, in the form they have in the program: a fund's accounts are fields that each
    handler checks and updates in place.  Every handler is proved to do exactly what its step
    function says, and to change nothing when it fails: it checks before it writes, where the
    program relies on the runtime to undo a failed instruction. */
module FundProgram {
  import opened Results
  import opened Ints
  import opened Ledgers
  import opened Navs
  import opened Steps
  import opened Handlers

  /** The counters of the fund state account. */
  datatype Counters = Counters(enabled: u16, limits: u16, dcas: u16, nextOrderId: u64)

  /** The balances of the fund's vaults, and of the order vaults without a record. */
  datatype Vaults = Vaults(sol: u64, tokens: map<Address, u64>, loose: map<Address, u64>)

  class Fund {
    // the fund state account
    const key: Address
    const config: Address
    const manager: Address
    const fundType: FundType
    const minDeposit: u64
    const timelock: i64
    var counters: Counters

    // balances and the other accounts
    var vaults: Vaults
    var listings: map<Address, Listing>
    var book: ShareBook
    var wallets: map<Address, u64>
    var limits: map<nat, LimitOrder>
    var dcas: map<nat, DcaOrder>
    var requests: map<Address, Request>
    var trading: Trading
    var strategy: Option<StrategyAccount>

    /** The accounts as one value. */
    function State(): Ledger
      reads this
    {
      Ledger(key, config, manager, fundType, minDeposit, timelock, book.total, counters.enabled, counters.limits,
             counters.dcas, counters.nextOrderId, vaults.sol, vaults.tokens, listings, book.shares, book.supply,
             wallets, limits, dcas, requests, vaults.loose, trading, strategy)
    }

    /** The handler that started with `before` ended as its step function says: with the new
        ledger, or with its error and nothing changed. */
    ghost predicate Does(r: Result<()>, before: Ledger, step: Result<Ledger>)
      reads this
    {
      match step
      case Ok(after) => r == Ok(()) && State() == after
      case Err(e) => r == Err(e) && State() == before
    }

    /** A new fund with `net` lamports paid for as many shares. */
    constructor (charter: Charter, net: u64, vault: u64, paid: map<Address, u64>)
      ensures State() == FirstLedger(charter, net, vault, paid)
    {
      key, config, manager, fundType := charter.key, charter.config, charter.manager, charter.fundType;
      minDeposit, timelock := charter.minDeposit, charter.timelock;
      counters := Counters(0, 0, 0, 0);
      vaults, wallets := Vaults(vault, map[], map[]), paid;
      book := ShareBook(map[charter.manager := net], net, net);
      listings, limits, dcas, requests := map[], map[], map[], map[];
      trading, strategy := UNLOCKED, None;
    }

    // ---- shares --------------------------------------------------------------------------

    method Deposit(env: Env, investor: Address, amount: u64, accounts: seq<Address>) returns (r: Result<()>)
      modifies this
      ensures Does(r, old(State()), DepositStep(env, old(State()), investor, amount, accounts))
    {
      hide DepositPaid;
      var paid :- CollectDeposit(env, State(), investor, amount, accounts);
      wallets := paid.wallets;
      vaults := vaults.(sol := paid.vaultSol);
      book := paid.book;
      return Ok(());
    }

    method RequestWithdraw(env: Env, investor: Address, amount: u64) returns (r: Result<()>)
      modifies this
      ensures Does(r, old(State()), RequestWithdrawStep(env, old(State()), investor, amount))
    {
      if amount == 0 {
        return Err(InvalidWithdrawal);
      }
      :- Need(Balance(book.shares, investor) >= amount, InsufficientShares);
      requests := requests[investor := Request(amount, env.now)];
      return Ok(());
    }

    method CancelWithdraw(investor: Address) returns (r: Result<()>)
      modifies this
      ensures Does(r, old(State()), CancelWithdrawStep(old(State()), investor))
    {
      if investor !in requests {
        return Err(AccountError);
      }
      requests := requests - {investor};
      return Ok(());
    }

    method ExecuteWithdraw(env: Env, investor: Address, accounts: seq<Address>) returns (r: Result<()>)
      modifies this
      ensures Does(r, old(State()), ExecuteWithdrawStep(env, old(State()), investor, accounts))
    {
      hide WithdrawPaid;
      var paid :- PreparePayout(env, State(), investor, accounts);
      book := paid.book;
      vaults := vaults.(sol := paid.vaultSol);
      wallets := paid.wallets;
      requests := requests - {investor};
      return Ok(());
    }

    method TransferShares(sender: Address, receiver: Address, amount: u64) returns (r: Result<()>)
      modifies this
      ensures Does(r, old(State()), TransferSharesStep(old(State()), sender, receiver, amount))
    {
      var debited :- DebitFrom(book.shares, sender, amount);
      var credited :- CreditTo(debited, receiver, amount);
      book := book.(shares := credited);
      return Ok(());
    }

    // ---- whitelist -----------------------------------------------------------------------

    method AddToken(signer: Address, mint: Address, listing: Listing) returns (r: Result<()>)
      modifies this
      ensures Does(r, old(State()), AddTokenStep(old(State()), signer, mint, listing))
    {
      if signer != manager {
        return Err(Unauthorized);
      }
      :- Need(mint !in listings, AlreadyInitialized);
      var count :- AddU16(counters.enabled, 1);
      listings := listings[mint := listing];
      vaults := vaults.(tokens := vaults.tokens[mint := Balance(vaults.tokens, mint)]);
      counters := counters.(enabled := count);
      return Ok(());
    }

    method RemoveToken(signer: Address, mint: Address) returns (r: Result<()>)
      modifies this
      ensures Does(r, old(State()), RemoveTokenStep(old(State()), signer, mint))
    {
      if signer != manager {
        return Err(Unauthorized);
      }
      :- Need(mint in vaults.tokens, AccountError);
      :- Need(vaults.tokens[mint] == 0, TokenVaultNotEmpty);
      var count :- SubU16(counters.enabled, 1);
      listings := listings - {mint};
      counters := counters.(enabled := count);
      return Ok(());
    }

    // ---- orders --------------------------------------------------------------------------

    method CreateLimit(env: Env, signer: Address, side: u8, mint: Address, amount: u64, minOut: u64,
                       limitPrice: i64, priceExpo: i32, expiry: i64)
    returns (r: Result<()>)
      modifies this
      ensures Does(r, old(State()), CreateLimitStep(env, old(State()), signer, side, mint, amount, minOut,
                                                    limitPrice, priceExpo, expiry))
    {
      hide OpenLimit;
      var made :- TryOpenLimit(env, State(), signer, side, mint, amount, minOut, limitPrice, priceExpo, expiry);
      limits := limits[counters.nextOrderId := made.order];
      counters := counters.(nextOrderId := made.nextOrderId, limits := made.count);
      vaults := Vaults(made.vaultSol, made.tokens, made.loose);
      return Ok(());
    }

    method CreateDca(env: Env, signer: Address, side: u8, mint: Address, amount: u64, slice: u64,
                     interval: i64, minOut: u64, expiry: i64, other: bool)
    returns (r: Result<()>)
      modifies this
      ensures Does(r, old(State()), CreateDcaStep(env, old(State()), signer, side, mint, amount, slice,
                                                  interval, minOut, expiry, other))
    {
      hide OpenDca;
      var made :- TryOpenDca(env, State(), signer, side, mint, amount, slice, interval, minOut, expiry, other);
      dcas := dcas[counters.nextOrderId := made.order];
      counters := counters.(nextOrderId := made.nextOrderId, dcas := made.count);
      vaults := Vaults(made.vaultSol, made.tokens, made.loose);
      return Ok(());
    }

    method ExecuteLimit(env: Env, signer: Address, id: nat, swap: Swap) returns (r: Result<()>)
      modifies this
      ensures Does(r, old(State()), ExecuteLimitStep(env, old(State()), signer, id, swap))
    {
      hide FillLimit;
      if id !in limits {
        return Err(AccountError);
      }
      var filled :- TryLimit(env, State(), signer, limits[id], swap);
      limits := limits[id := filled.order];
      counters := counters.(limits := filled.count);
      vaults := vaults.(sol := filled.vaultSol, tokens := filled.tokens);
      return Ok(());
    }

    method ExecuteDca(env: Env, signer: Address, id: nat, swap: Swap, solVaultPassed: bool) returns (r: Result<()>)
      modifies this
      ensures Does(r, old(State()), ExecuteDcaStep(env, old(State()), signer, id, swap, solVaultPassed))
    {
      hide FillSlice;
      if id !in dcas {
        return Err(AccountError);
      }
      var filled :- TrySlice(env, State(), signer, dcas[id], swap, solVaultPassed);
      dcas := dcas[id := filled.order];
      counters := counters.(dcas := filled.count);
      vaults := vaults.(sol := filled.vaultSol, tokens := filled.tokens);
      return Ok(());
    }

    method CancelLimit(env: Env, signer: Address, id: nat, other: bool) returns (r: Result<()>)
      modifies this
      ensures Does(r, old(State()), CancelLimitStep(env, old(State()), signer, id, other))
    {
      hide CloseLimit;
      if id !in limits {
        return Err(AccountError);
      }
      var closed :- TryCloseLimit(env, State(), signer, id, limits[id].escrow, other);
      limits := limits - {id};
      counters := counters.(limits := closed.count);
      vaults := Vaults(closed.vaultSol, closed.tokens, closed.loose);
      return Ok(());
    }

    method CancelDca(env: Env, signer: Address, id: nat, other: bool) returns (r: Result<()>)
      modifies this
      ensures Does(r, old(State()), CancelDcaStep(env, old(State()), signer, id, other))
    {
      hide CloseDca;
      if id !in dcas {
        return Err(AccountError);
      }
      var closed :- TryCloseDca(env, State(), signer, dcas[id], other);
      dcas := dcas[id := closed.order];
      counters := counters.(dcas := closed.count);
      vaults := vaults.(sol := closed.vaultSol, tokens := closed.tokens);
      return Ok(());
    }

    // ---- borrow and settle ---------------------------------------------------------------

    method Borrow(signer: Address, amount: u64, minOut: u64, mint: Address, later: seq<Meta>) returns (r: Result<()>)
      modifies this
      ensures Does(r, old(State()), BorrowStep(old(State()), signer, amount, minOut, mint, later))
    {
      hide CreditTo, ScanForSettle, ExpectedSettle;
      var may :- MayBorrow(State(), signer, amount, minOut, mint);
      var found :- FindSettle(later, ExpectedSettle(State(), mint));
      var paid :- CreditTo(wallets, manager, amount);
      trading := trading.(locked := true, borrowed := amount, minOut := minOut);
      trading := trading.(snapshotSol := vaults.sol, snapshotOutput := vaults.tokens[mint], outputMint := mint);
      vaults := vaults.(sol := vaults.sol - amount);
      wallets := paid;
      return Ok(());
    }

    method Settle(accounts: seq<Address>) returns (r: Result<()>)
      modifies this
      ensures Does(r, old(State()), SettleStep(old(State()), accounts))
    {
      hide ListedMint;
      :- Need(|accounts| >= 7 && accounts[1..5] == [config, key, TradingOf(key), VaultOf(key)], AccountError);
      :- Need(trading.locked, FundNotLocked);
      :- Need(fundType.TradingFund?, InvalidFundType);
      :- Need(accounts[0] == manager, Unauthorized);
      var mint :- ListedMint(State(), accounts[5]);
      :- Need(trading.outputMint == mint, InvalidTokenVault);
      :- Need(accounts[6] == Ata(key, mint) && mint in vaults.tokens, InvalidTokenVault);
      var expectedSol :- SubU64(trading.snapshotSol, trading.borrowed);
      :- Need(vaults.sol == expectedSol, InvalidTokenVault);
      var delta :- SubU64(vaults.tokens[mint], trading.snapshotOutput);
      :- Need(delta >= trading.minOut, InvalidTokenVault);
      trading := trading.(locked := false, borrowed := 0, minOut := 0);
      trading := trading.(snapshotSol := 0, snapshotOutput := 0, outputMint := DEFAULT_ADDRESS);
      return Ok(());
    }

    // ---- strategy ------------------------------------------------------------------------

    method SetStrategy(env: Env, signer: Address, chosen: seq<Allocation>, thresholdBps: u16, cooldown: i64,
                       accounts: seq<Address>)
    returns (r: Result<()>)
      modifies this
      ensures Does(r, old(State()), SetStrategyStep(env, old(State()), signer, chosen, thresholdBps, cooldown,
                                                    accounts))
    {
      hide CheckAllocations, CheckListed, WeightSum, StrategyTerms;
      var terms :- StrategyTerms(State(), signer, chosen, thresholdBps, cooldown);
      var sum :- CheckWeights(chosen);
      :- Need(sum == 10_000, InvalidStrategy);
      :- Need(|accounts| == |chosen|, InvalidRemainingAccounts);
      var listed :- CheckWhitelisted(State(), chosen, accounts);
      var table := FillTable(chosen);
      assert table[..] == Padded(chosen);
      var written: StrategyAccount := Strategy(|chosen|, table[..], thresholdBps, cooldown, env.now);
      strategy := Some(written);
      return Ok(());
    }

    method Rebalance(env: Env, signer: Address, mint: Address, minOut: u64, accounts: seq<Address>,
                     fundSwap: FundSwap)
    returns (r: Result<()>)
      modifies this
      ensures Does(r, old(State()), RebalanceStep(env, old(State()), signer, mint, minOut, accounts, fundSwap))
    {
      hide RebalanceTrade;
      var traded :- TryRebalance(env, State(), signer, mint, minOut, accounts, fundSwap);
      vaults := vaults.(sol := traded.vaultSol, tokens := traded.tokens);
      strategy := Some(strategy.value.(lastRebalance := env.now));
      return Ok(());
    }

    // ---- without the program ---------------------------------------------------------------

    method CreditVault(vault: Vault, amount: u64) returns (r: Result<()>)
      modifies this
      ensures Does(r, old(State()), CreditVaultStep(old(State()), vault, amount))
    {
      var after :- CreditVaultStep(State(), vault, amount);
      vaults := Vaults(after.vaultSol, after.tokens, after.loose);
      limits, dcas := after.limits, after.dcas;
      return Ok(());
    }

    // ---- every instruction -------------------------------------------------------------------

    method Execute(env: Env, ix: Ix) returns (r: Result<()>)
      modifies this
      ensures Does(r, old(State()), Step(env, old(State()), ix))
    {
      hide Does, State, DepositStep, RequestWithdrawStep, CancelWithdrawStep, ExecuteWithdrawStep, AddTokenStep,
           RemoveTokenStep, CreateLimitStep, ExecuteLimitStep, CancelLimitStep, CreateDcaStep, ExecuteDcaStep,
           CancelDcaStep, BorrowStep, SettleStep, SetStrategyStep, RebalanceStep, TransferSharesStep, CreditVaultStep;
      match ix {
        case Deposit(investor, amount, accounts) => r := Deposit(env, investor, amount, accounts);
        case RequestWithdraw(investor, amount) => r := RequestWithdraw(env, investor, amount);
        case CancelWithdraw(investor) => r := CancelWithdraw(investor);
        case ExecuteWithdraw(investor, accounts) => r := ExecuteWithdraw(env, investor, accounts);
        case AddToken(signer, mint, listing) => r := AddToken(signer, mint, listing);
        case RemoveToken(signer, mint) => r := RemoveToken(signer, mint);
        case CreateLimit(signer, side, mint, amount, minOut, limitPrice, priceExpo, expiry) =>
          r := CreateLimit(env, signer, side, mint, amount, minOut, limitPrice, priceExpo, expiry);
        case ExecuteLimit(signer, id, swap) => r := ExecuteLimit(env, signer, id, swap);
        case CancelLimit(signer, id, other) => r := CancelLimit(env, signer, id, other);
        case CreateDca(signer, side, mint, amount, slice, interval, minOut, expiry, other) =>
          r := CreateDca(env, signer, side, mint, amount, slice, interval, minOut, expiry, other);
        case ExecuteDca(signer, id, swap, solVaultPassed) => r := ExecuteDca(env, signer, id, swap, solVaultPassed);
        case CancelDca(signer, id, other) => r := CancelDca(env, signer, id, other);
        case Borrow(signer, amount, minOut, mint, later) => r := Borrow(signer, amount, minOut, mint, later);
        case Settle(accounts) => r := Settle(accounts);
        case SetStrategy(signer, chosen, thresholdBps, cooldown, accounts) =>
          r := SetStrategy(env, signer, chosen, thresholdBps, cooldown, accounts);
        case Rebalance(signer, mint, minOut, accounts, fundSwap) =>
          r := Rebalance(env, signer, mint, minOut, accounts, fundSwap);
        case TransferShares(sender, receiver, amount) => r := TransferShares(sender, receiver, amount);
        case CreditVault(vault, amount) => r := CreditVault(vault, amount);
      }
    }
  }

  /** `initialize_fund` and `initialize_strategy_fund`. */
  method InitializeFund(env: Env, bounds: Bounds, charter: Charter, wallets: map<Address, u64>)
    returns (r: Result<Fund>)
    ensures match InitialLedger(env, bounds, charter, wallets)
            case Ok(initial) => r.Ok? && fresh(r.value) && r.value.State() == initial
            case Err(e) => r == Err(e)
  {
    hide BpsOf, Move, DebitFrom, FirstLedger;
    :- Need(charter.timelock >= bounds.minTimelock, InvalidTimelock);
    :- Need(charter.timelock <= bounds.maxTimelock, InvalidTimelock);
    :- Need(charter.managerFeeBps <= bounds.maxManagerFeeBps, InvalidFeeBps);
    :- Need(charter.deposit >= bounds.minManagerDeposit, DepositTooSmall);
    var fee := AsU64(BpsOf(charter.deposit, env.depositFeeBps));
    var net :- SubU64(charter.deposit, fee);
    :- Need(net > 0, ZeroShares);
    var paidFee :- Move(wallets, charter.manager, env.treasury, fee);
    var paid :- DebitFrom(paidFee, charter.manager, net);
    var vault :- AddU64(charter.vaultRent, net);
    var fund := new Fund(charter, net, vault, paid);
    return Ok(fund);
  }
}
