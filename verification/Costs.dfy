/** What a whole run can cost the fund at fixed prices.

    Every instruction but a few keeps the exact value or raises it; this module adds up what the
    others may cost, over any run. */
module Costs {
  import opened Ints
  import opened Oracle
  import opened MapSums
  import opened Ledgers
  import opened ExactNavs
  import opened Steps
  import opened Runs
  import opened Frames
  import opened ShareAccounting
  import opened Valuation
  import opened Escrows
  import opened Slippage
  import opened Rebalancing

  // ---- listing and delisting -------------------------------------------------------------------

  /** The open SELL orders of a book that hold a mint. */
  ghost function HeldFor(env: Env, listings: map<Address, Listing>, book: map<nat, Escrow>,
                         mint: Address): map<nat, int> {
    map id | id in OpenIds(book) && book[id].side.Sell? && book[id].mint == mint ::
      ExactWorth(env, listings, mint, book[id].token)
  }

  ghost function EscrowedWorth(env: Env, s: Ledger, mint: Address): nat {
    SumNonNegative(HeldFor(env, s.listings, LimitBook(s), mint));
    SumNonNegative(HeldFor(env, s.listings, DcaBook(s), mint));
    Sum(HeldFor(env, s.listings, LimitBook(s), mint)) + Sum(HeldFor(env, s.listings, DcaBook(s), mint))
  }

  lemma ListedElsewhere(env: Env, more: map<Address, Listing>, less: map<Address, Listing>, mint: Address,
                        m: Address, amount: nat)
    requires less == more - {mint}
    ensures ExactWorth(env, less, m, amount) == if m == mint then 0 else ExactWorth(env, more, m, amount)
  {
    hide Floor, TokenRate;
  }

  lemma BookListed(env: Env, more: map<Address, Listing>, less: map<Address, Listing>, book: map<nat, Escrow>,
                   mint: Address)
    requires less == more - {mint}
    ensures Sum(ExactBook(env, more, book)) == Sum(ExactBook(env, less, book)) + Sum(HeldFor(env, more, book, mint))
  {
    hide Sum, ExactWorth;
    forall id <- OpenIds(book) {
      ListedElsewhere(env, more, less, mint, book[id].mint, book[id].token);
    }
    SumAdds(ExactBook(env, more, book), ExactBook(env, less, book), HeldFor(env, more, book, mint));
  }

  lemma TokensListed(env: Env, more: map<Address, Listing>, less: map<Address, Listing>, tokens: map<Address, u64>,
                     mint: Address)
    requires mint in more && less == more - {mint}
    ensures Sum(ExactTokens(env, more, tokens))
         == Sum(ExactTokens(env, less, tokens)) + ExactWorth(env, more, mint, Balance(tokens, mint))
  {
    hide Sum, ExactWorth;
    forall m <- less {
      ListedElsewhere(env, more, less, mint, m, Balance(tokens, m));
    }
    assert ExactTokens(env, more, tokens) - {mint} == ExactTokens(env, less, tokens);
    SumRemove(ExactTokens(env, more, tokens), mint);
  }

  /** A listing adds exactly the worth of the mint's vault and of the open SELL orders that hold it. */
  lemma ListingNav(env: Env, listed: Ledger, unlisted: Ledger, mint: Address)
    requires mint in listed.listings && unlisted.listings == listed.listings - {mint}
    requires forall m :: Balance(unlisted.tokens, m) == Balance(listed.tokens, m)
    requires unlisted.limits == listed.limits && unlisted.dcas == listed.dcas && unlisted.vaultSol == listed.vaultSol
    ensures ExactNav(env, listed) == ExactNav(env, unlisted)
                                     + ExactWorth(env, listed.listings, mint, Balance(listed.tokens, mint))
                                     + EscrowedWorth(env, listed, mint)
  {
    hide Sum, ExactWorth, ExactBook, HeldFor;
    assert LimitBook(unlisted) == LimitBook(listed) && DcaBook(unlisted) == DcaBook(listed);
    BookListed(env, listed.listings, unlisted.listings, LimitBook(listed), mint);
    BookListed(env, listed.listings, unlisted.listings, DcaBook(listed), mint);
    TokensListed(env, listed.listings, unlisted.listings, listed.tokens, mint);
    assert ExactTokens(env, unlisted.listings, unlisted.tokens) == ExactTokens(env, unlisted.listings, listed.tokens);
  }

  // ---- credits -----------------------------------------------------------------------------------

  /** What a credit is worth at least: an order's vault counts only where the NAV counts it. */
  ghost function CreditWorth(env: Env, s: Ledger, vault: Vault, amount: u64): nat {
    match vault
    case FundSolVault => amount
    case FundTokenVault(mint) => ExactWorth(env, s.listings, mint, amount)
    case LimitSolVault(id) => SolCreditWorth(LimitBook(s), id, amount)
    case LimitTokenVault(id) => TokenCreditWorth(env, s.listings, LimitBook(s), id, amount)
    case DcaSolVault(id) => SolCreditWorth(DcaBook(s), id, amount)
    case DcaTokenVault(id) => TokenCreditWorth(env, s.listings, DcaBook(s), id, amount)
    case UnusedSolVault(_, _) => 0
    case UnusedTokenVault(_, _, _) => 0
  }

  ghost function SolCreditWorth(book: map<nat, Escrow>, id: nat, amount: u64): nat {
    if id in OpenIds(book) && book[id].side.Buy? then amount else 0
  }

  ghost function TokenCreditWorth(env: Env, listings: map<Address, Listing>, book: map<nat, Escrow>, id: nat,
                                  amount: u64): nat {
    if id in OpenIds(book) && book[id].side.Sell? then ExactWorth(env, listings, book[id].mint, amount) else 0
  }

  /** One escrow credited, everything else the same. */
  lemma EscrowCredit(env: Env, s: Ledger, after: Ledger, kind: OrderKind, id: nat, sol: u64, token: u64)
    requires id in BookOf(s, kind) && id in BookOf(after, kind)
    requires var e := BookOf(s, kind)[id];
             e.sol + sol <= U64_MAX && e.token + token <= U64_MAX
             && BookOf(after, kind)[id] == e.(sol := e.sol + sol, token := e.token + token)
    requires LocalChange(s, after, BookOf(s, kind)[id].mint, kind, id)
    requires after.vaultSol == s.vaultSol && after.tokens == s.tokens
    ensures ExactNav(env, after) >= ExactNav(env, s) + SolCreditWorth(BookOf(s, kind), id, sol)
                                    + TokenCreditWorth(env, s.listings, BookOf(s, kind), id, token)
  {
    hide ExactNav, ExactWorth, LimitBook, DcaBook;
    var e := BookOf(s, kind)[id];
    NavChange(env, s, after, e.mint, kind, id);
    WorthSplits(env, s.listings, e.mint, e.token, token);
  }

  lemma FundCredit(env: Env, s: Ledger, vault: Vault, amount: u64)
    requires (vault.FundSolVault? || vault.FundTokenVault?) && CreditVaultStep(s, vault, amount).Ok?
    ensures ExactNav(env, CreditVaultStep(s, vault, amount).value)
         >= ExactNav(env, s) + CreditWorth(env, s, vault, amount)
  {
    hide ExactNav, ExactWorth;
    var after := CreditVaultStep(s, vault, amount).value;
    match vault {
      case FundSolVault => OnlyVaultChanged(env, s, after);
      case FundTokenVault(mint) =>
        assert LimitBook(after) == LimitBook(s);
        NavChange(env, s, after, mint, LimitKind, 0);
        WorthSplits(env, s.listings, mint, Balance(s.tokens, mint), amount);
    }
  }

  lemma LimitCredit(env: Env, s: Ledger, vault: Vault, amount: u64)
    requires (vault.LimitSolVault? || vault.LimitTokenVault?) && CreditVaultStep(s, vault, amount).Ok?
    ensures ExactNav(env, CreditVaultStep(s, vault, amount).value)
         >= ExactNav(env, s) + CreditWorth(env, s, vault, amount)
  {
    hide ExactNav, ExactWorth;
    var after := CreditVaultStep(s, vault, amount).value;
    assert after.limits - {vault.id} == s.limits - {vault.id};
    if vault.LimitSolVault? {
      EscrowCredit(env, s, after, LimitKind, vault.id, amount, 0);
    } else {
      EscrowCredit(env, s, after, LimitKind, vault.id, 0, amount);
    }
  }

  lemma DcaCredit(env: Env, s: Ledger, vault: Vault, amount: u64)
    requires (vault.DcaSolVault? || vault.DcaTokenVault?) && CreditVaultStep(s, vault, amount).Ok?
    ensures ExactNav(env, CreditVaultStep(s, vault, amount).value)
         >= ExactNav(env, s) + CreditWorth(env, s, vault, amount)
  {
    hide ExactNav, ExactWorth;
    var after := CreditVaultStep(s, vault, amount).value;
    assert after.dcas - {vault.id} == s.dcas - {vault.id};
    if vault.DcaSolVault? {
      EscrowCredit(env, s, after, DcaKind, vault.id, amount, 0);
    } else {
      EscrowCredit(env, s, after, DcaKind, vault.id, 0, amount);
    }
  }

  lemma UnusedCredit(env: Env, s: Ledger, vault: Vault, amount: u64)
    requires (vault.UnusedSolVault? || vault.UnusedTokenVault?) && CreditVaultStep(s, vault, amount).Ok?
    ensures ExactNav(env, CreditVaultStep(s, vault, amount).value)
         >= ExactNav(env, s) + CreditWorth(env, s, vault, amount)
  {
    hide ExactNav, CreditTo;
    OnlyVaultChanged(env, s, CreditVaultStep(s, vault, amount).value);
  }

  // ---- one step ----------------------------------------------------------------------------------

  ghost function LimitCost(env: Env, s: Ledger, order: LimitOrder): nat {
    match order.escrow.side
    case Buy => BuyCost(env, s, order.escrow.mint, order.amountIn) + Above(order.escrow.sol, order.amountIn)
    case Sell => SellCost(env, ExactWorth(env, s.listings, order.escrow.mint, order.escrow.token))
  }

  ghost function SliceCost(env: Env, s: Ledger, order: DcaOrder): nat {
    var mint, slice := order.escrow.mint, SliceOf(order);
    match order.escrow.side
    case Buy => BuyCost(env, s, mint, slice)
    case Sell =>
      SellCost(env, ExactWorth(env, s.listings, mint, slice)) + 1
      + if Completes(order) then ExactWorth(env, s.listings, mint, Above(order.escrow.token, slice)) else 0
  }

  /** The tokens of a SELL order, which a cancel may send where no NAV counts them. */
  ghost function RefundWorth(env: Env, s: Ledger, book: map<nat, Escrow>, id: nat): nat {
    if id in book && book[id].side.Sell? then ExactEscrowWorth(env, s.listings, book[id]) else 0
  }

  /** What one instruction may cost: rounding when a SELL order is opened, slippage and what is
      stranded when an order executes or a strategy is rebalanced, what is in escrow when a mint
      is delisted or a SELL order is cancelled to an account outside the ledger.  Nothing else
      costs anything. */
  ghost function Cost(e: Event, s: Ledger, after: Ledger): nat {
    match e.ix
    case CreateLimit(_, side, _, _, _, _, _, _) => if side == 0 then 0 else 1
    case CreateDca(_, side, _, _, _, _, _, _, other) => if side == 0 || other then 0 else 1
    case CancelLimit(_, id, other) => if other then RefundWorth(e.env, s, LimitBook(s), id) else 0
    case CancelDca(_, id, other) => if other then RefundWorth(e.env, s, DcaBook(s), id) else 0
    case ExecuteLimit(_, id, _) => if id in s.limits then LimitCost(e.env, s, s.limits[id]) else 0
    case ExecuteDca(_, id, _, _) => if id in s.dcas then SliceCost(e.env, s, s.dcas[id]) else 0
    case RemoveToken(_, mint) => EscrowedWorth(e.env, s, mint)
    case Rebalance(_, mint, _, _, fundSwap) =>
      TradeCost(e.env, s, after, mint, fundSwap) + OtherVaultsLost(e.env, s, after, mint)
    case _ => 0
  }

  /** What flows into the vaults from outside: deposits net of the fee, credits and tokens a
      DCA SELL draws on from outside the ledger, less payouts and loans. */
  ghost function Flow(e: Event, s: Ledger, after: Ledger): int {
    match e.ix
    case Deposit(_, _, _) => after.vaultSol - s.vaultSol
    case ExecuteWithdraw(_, _) => after.vaultSol - s.vaultSol
    case Borrow(_, amount, _, _, _) => -(amount as int)
    case CreateDca(_, side, mint, amount, _, _, _, _, other) =>
      if side != 0 && other then ExactWorth(e.env, s.listings, mint, amount) else 0
    case CreditVault(vault, amount) => CreditWorth(e.env, s, vault, amount)
    case _ => 0
  }

  ghost predicate Covered(e: Event, s: Ledger, after: Ledger) {
    ExactNav(e.env, after) + Cost(e, s, after) >= ExactNav(e.env, s) + Flow(e, s, after)
  }

  lemma AddTokenCovered(e: Event, s: Ledger)
    requires e.ix.AddToken? && AddTokenStep(s, e.ix.signer, e.ix.mint, e.ix.listing).Ok?
    ensures Covered(e, s, AddTokenStep(s, e.ix.signer, e.ix.mint, e.ix.listing).value)
  {
    hide ExactNav, ExactWorth, EscrowedWorth;
    var after := AddTokenStep(s, e.ix.signer, e.ix.mint, e.ix.listing).value;
    assert after.listings - {e.ix.mint} == s.listings;
    ListingNav(e.env, after, s, e.ix.mint);
  }

  lemma RemoveTokenCovered(e: Event, s: Ledger)
    requires e.ix.RemoveToken? && RemoveTokenStep(s, e.ix.signer, e.ix.mint).Ok?
    ensures Covered(e, s, RemoveTokenStep(s, e.ix.signer, e.ix.mint).value)
  {
    hide ExactNav, ExactWorth, EscrowedWorth;
    var after := RemoveTokenStep(s, e.ix.signer, e.ix.mint).value;
    if e.ix.mint in s.listings {
      ListingNav(e.env, s, after, e.ix.mint);
      NoTokensNoWorth(e.env, s.listings, e.ix.mint);
    } else {
      assert s.listings - {e.ix.mint} == s.listings;
      SameHoldings(e.env, s, after);
    }
  }

  lemma SameHoldings(env: Env, s: Ledger, after: Ledger)
    requires after == s.(enabledCount := after.enabledCount)
    ensures ExactNav(env, after) == ExactNav(env, s)
  {
    hide Sum, ExactTokens, ExactBook;
    assert LimitBook(after) == LimitBook(s) && DcaBook(after) == DcaBook(s);
  }

  lemma NoTokensNoWorth(env: Env, listings: map<Address, Listing>, mint: Address)
    ensures ExactWorth(env, listings, mint, 0) == 0
  {
    hide Floor;
    if Priced(env, listings, mint) {
      FloorBounds(0, MintRate(env, listings, mint));
      WorthSplits(env, listings, mint, 0, 0);
    }
  }

  lemma OrderCovered(e: Event, s: Ledger)
    requires (e.ix.CreateLimit? || e.ix.CreateDca? || e.ix.CancelLimit? || e.ix.CancelDca?)
    requires Step(e.env, s, e.ix).Ok?
    ensures Covered(e, s, Step(e.env, s, e.ix).value)
  {
    hide ExactNav, CreateLimitStep, CreateDcaStep, CancelLimitStep, CancelDcaStep, InitialSol, WaitingSol,
         ExactEscrowWorth, ExactWorth;
    match e.ix {
      case CreateLimit(signer, side, mint, amount, minOut, limitPrice, priceExpo, expiry) =>
        CreateLimitNav(e.env, e.env, s, signer, side, mint, amount, minOut, limitPrice, priceExpo, expiry);
      case CreateDca(signer, side, mint, amount, slice, interval, minOut, expiry, other) =>
        CreateDcaNav(e.env, e.env, s, signer, side, mint, amount, slice, interval, minOut, expiry, other);
      case CancelLimit(signer, id, other) => CancelLimitNav(e.env, e.env, s, signer, id, other);
      case CancelDca(signer, id, other) => CancelDcaNav(e.env, e.env, s, signer, id, other);
    }
  }

  lemma LimitCovered(e: Event, s: Ledger)
    requires e.ix.ExecuteLimit? && Step(e.env, s, e.ix).Ok?
    ensures Covered(e, s, Step(e.env, s, e.ix).value)
  {
    hide ExactNav, FillLimit, BuyCost, SellCost, ExactWorth;
    if s.limits[e.ix.id].escrow.side.Buy? {
      LimitBuyLoss(e.env, s, e.ix.signer, e.ix.id, e.ix.swap);
    } else {
      LimitSellLoss(e.env, s, e.ix.signer, e.ix.id, e.ix.swap);
    }
  }

  lemma SliceCovered(e: Event, s: Ledger)
    requires e.ix.ExecuteDca? && Step(e.env, s, e.ix).Ok?
    ensures Covered(e, s, Step(e.env, s, e.ix).value)
  {
    hide ExactNav, FillSlice, BuyCost, SellCost, ExactWorth;
    if s.dcas[e.ix.id].escrow.side.Buy? {
      DcaBuyLoss(e.env, s, e.ix.signer, e.ix.id, e.ix.swap, e.ix.solVaultPassed);
    } else {
      DcaSellLoss(e.env, s, e.ix.signer, e.ix.id, e.ix.swap, e.ix.solVaultPassed);
    }
  }

  predicate OnVaults(ix: Ix) {
    ix.AddToken? || ix.RemoveToken? || OnOrder(ix) || ix.Rebalance? || ix.CreditVault?
  }

  lemma FrameOfOthers(s: Ledger, ix: Ix, after: Ledger)
    requires !OnVaults(ix) && Frame(s, ix, after)
    ensures SameTokensAndOrders(s, after)
    ensures !ix.Deposit? && !ix.ExecuteWithdraw? && !ix.Borrow? ==> after.vaultSol == s.vaultSol
  {
  }

  lemma OthersCovered(e: Event, s: Ledger)
    requires !OnVaults(e.ix) && Step(e.env, s, e.ix).Ok?
    ensures Covered(e, s, Step(e.env, s, e.ix).value)
  {
    hide Step, ExactNav, Frame, SameTokensAndOrders;
    StepFrame(e.env, s, e.ix);
    FrameOfOthers(s, e.ix, Step(e.env, s, e.ix).value);
    if e.ix.Borrow? {
      LentLamports(e.env, s, e.ix);
    }
    OnlyVaultChanged(e.env, s, Step(e.env, s, e.ix).value);
  }

  lemma LentLamports(env: Env, s: Ledger, ix: Ix)
    requires ix.Borrow? && Step(env, s, ix).Ok?
    ensures Step(env, s, ix).value.vaultSol == s.vaultSol - ix.amount
  {
    hide ScanForSettle, CreditTo;
  }

  lemma StepCovered(e: Event, s: Ledger)
    requires Step(e.env, s, e.ix).Ok?
    ensures Covered(e, s, Step(e.env, s, e.ix).value)
  {
    hide Covered, AddTokenStep, RemoveTokenStep, CreateLimitStep, ExecuteLimitStep, CancelLimitStep, CreateDcaStep,
         ExecuteDcaStep, CancelDcaStep, CreditVaultStep, RebalanceStep, DepositStep, ExecuteWithdrawStep, BorrowStep,
         SettleStep, SetStrategyStep, TransferSharesStep, RequestWithdrawStep, CancelWithdrawStep;
    match e.ix {
      case AddToken(_, _, _) => AddTokenCovered(e, s);
      case RemoveToken(_, _) => RemoveTokenCovered(e, s);
      case CreateLimit(_, _, _, _, _, _, _, _) => OrderCovered(e, s);
      case CreateDca(_, _, _, _, _, _, _, _, _) => OrderCovered(e, s);
      case CancelLimit(_, _, _) => OrderCovered(e, s);
      case CancelDca(_, _, _) => OrderCovered(e, s);
      case ExecuteLimit(_, _, _) => LimitCovered(e, s);
      case ExecuteDca(_, _, _, _) => SliceCovered(e, s);
      case Rebalance(_, _, _, _, _) => RebalanceCovered(e, s);
      case CreditVault(_, _) => CreditCovered(e, s);
      case _ => OthersCovered(e, s);
    }
  }

  lemma RebalanceCovered(e: Event, s: Ledger)
    requires e.ix.Rebalance? && Step(e.env, s, e.ix).Ok?
    ensures Covered(e, s, Step(e.env, s, e.ix).value)
  {
    hide ExactNav, RebalanceStep, TradeCost, OtherVaultsLost;
    RebalanceLoss(e.env, s, e.ix.signer, e.ix.mint, e.ix.minOut, e.ix.accounts, e.ix.fundSwap);
  }

  lemma CreditCovered(e: Event, s: Ledger)
    requires e.ix.CreditVault? && Step(e.env, s, e.ix).Ok?
    ensures Covered(e, s, Step(e.env, s, e.ix).value)
  {
    hide ExactNav, CreditVaultStep, CreditWorth;
    match e.ix.vault {
      case FundSolVault => FundCredit(e.env, s, e.ix.vault, e.ix.amount);
      case FundTokenVault(_) => FundCredit(e.env, s, e.ix.vault, e.ix.amount);
      case LimitSolVault(_) => LimitCredit(e.env, s, e.ix.vault, e.ix.amount);
      case LimitTokenVault(_) => LimitCredit(e.env, s, e.ix.vault, e.ix.amount);
      case DcaSolVault(_) => DcaCredit(e.env, s, e.ix.vault, e.ix.amount);
      case DcaTokenVault(_) => DcaCredit(e.env, s, e.ix.vault, e.ix.amount);
      case UnusedSolVault(_, _) => UnusedCredit(e.env, s, e.ix.vault, e.ix.amount);
      case UnusedTokenVault(_, _, _) => UnusedCredit(e.env, s, e.ix.vault, e.ix.amount);
    }
  }

  // ---- whole runs --------------------------------------------------------------------------------

  ghost function CostOfRun(s: Ledger, run: seq<Event>): nat
    requires Exec(s, run).Ok?
  {
    if run == [] then 0
    else
      var init, last := run[..|run| - 1], run[|run| - 1];
      CostOfRun(s, init) + Cost(last, Exec(s, init).value, Exec(s, run).value)
  }

  ghost function FlowOfRun(s: Ledger, run: seq<Event>): int
    requires Exec(s, run).Ok?
  {
    if run == [] then 0
    else
      var init, last := run[..|run| - 1], run[|run| - 1];
      FlowOfRun(s, init) + Flow(last, Exec(s, init).value, Exec(s, run).value)
  }

  /** Over any run of any instructions at fixed prices the fund loses at most what the costs of
      its instructions add up to, beside what was paid out or lent. */
  lemma {:induction false} RunLosesAtMostCosts(env: Env, s: Ledger, run: seq<Event>)
    requires Exec(s, run).Ok? && forall e <- run :: SamePrices(env, e.env)
    ensures ExactNav(env, Exec(s, run).value) + CostOfRun(s, run) >= ExactNav(env, s) + FlowOfRun(s, run)
  {
    hide Step, ExactNav, Cost, Flow, SamePrices;
    if run != [] {
      var before, last := ExecLast(s, run);
      RunLosesAtMostCosts(env, s, run[..|run| - 1]);
      StepCovered(last, before);
      ExactNavAtSamePrices(env, last.env, before);
      ExactNavAtSamePrices(env, last.env, Exec(s, run).value);
    }
  }
}
