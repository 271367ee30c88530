/** What a borrow and its settle allow in between.

    A settle wants the SOL vault exactly at the snapshot less the loan and the output vault
    higher than before.  So a deposit priced while lamports are on loan can only be committed if
    something else takes its lamports out of the vault again. */
module Loans {
  import opened Results
  import opened Ints
  import opened Oracle
  import opened Ledgers
  import opened Navs
  import opened ExactNavs
  import opened Steps
  import opened Runs
  import opened Frames
  import opened Invariants
  import opened Counters
  import opened ShareAccounting
  import opened Costs
  import opened Transactions

  /** The instructions that take lamports out of the vault of a locked fund: payouts and new BUY
      orders. */
  predicate TakesLamports(ix: Ix) {
    ix.ExecuteWithdraw? || (ix.CreateLimit? && ix.side == 0) || (ix.CreateDca? && ix.side == 0)
  }

  // ---- one step --------------------------------------------------------------------------------

  lemma DepositRaisesVault(env: Env, s: Ledger, ix: Ix)
    requires ix.Deposit? && Step(env, s, ix).Ok?
    ensures Step(env, s, ix).value.vaultSol > s.vaultSol
  {
    hide Nav, PayDeposit, MintShares, BpsOf, Mul;
    MulUnits(s.totalShares);
    assert SplitDeposit(env, s, ix.amount).value.net > 0;
  }

  lemma NewOrderVault(s: Ledger, mint: Address, amount: u64, token: u64, sol: u64, other: bool)
    requires FundOrder(s, Sell, mint, amount, token, sol, other).Ok?
    ensures FundOrder(s, Sell, mint, amount, token, sol, other).value.vaultSol == s.vaultSol
  {
  }

  lemma CreateRaisesVault(env: Env, s: Ledger, ix: Ix)
    requires (ix.CreateLimit? || ix.CreateDca?) && !TakesLamports(ix) && Step(env, s, ix).Ok?
    ensures Step(env, s, ix).value.vaultSol == s.vaultSol
  {
    hide FundOrder, InitialSol, AddU64, AddU16, AddI64;
    if ix.CreateLimit? {
      NewOrderVault(s, ix.mint, ix.amount, WaitingTokens(s, LimitKind, Sell, ix.mint), WaitingSol(s, LimitKind), false);
    } else {
      NewOrderVault(s, ix.mint, ix.amount, WaitingTokens(s, DcaKind, Sell, ix.mint),
                    InitialSol(env, WaitingSol(s, DcaKind)), ix.other);
    }
  }

  lemma SwapRaisesVault(env: Env, s: Ledger, e: Escrow, amount: u64, minOut: u64, whole: bool, quote: Quote,
                        swap: Swap)
    requires SwapOut(env, s, e, amount, minOut, whole, quote, swap).Ok?
    ensures SwapOut(env, s, e, amount, minOut, whole, quote, swap).value.vaultSol >= s.vaultSol
  {
    hide ExpectedOut, ApplyMaxSlippage, CreditTo;
  }

  lemma ExecuteRaisesVault(env: Env, s: Ledger, ix: Ix)
    requires (ix.ExecuteLimit? || ix.ExecuteDca?) && Step(env, s, ix).Ok?
    ensures Step(env, s, ix).value.vaultSol >= s.vaultSol
  {
    hide SwapOut, QuoteFor, Executable, ScalePrice;
    if ix.ExecuteLimit? {
      var order := s.limits[ix.id];
      SwapRaisesVault(env, s, order.escrow, order.amountIn, order.minOut, true,
                      QuoteFor(env, s, order.escrow, order.feed).value, ix.swap);
    } else {
      var order := s.dcas[ix.id];
      SwapRaisesVault(env, s, order.escrow, SliceOf(order), order.minOut, false,
                      QuoteFor(env, s, order.escrow, order.feed).value, ix.swap);
    }
  }

  lemma CancelRaisesVault(env: Env, s: Ledger, ix: Ix)
    requires (ix.CancelLimit? || ix.CancelDca?) && Step(env, s, ix).Ok?
    ensures Step(env, s, ix).value.vaultSol >= s.vaultSol
  {
    hide MayCancel, CreditTo;
  }

  lemma CreditedVault(s: Ledger, vault: Vault, amount: u64)
    requires CreditVaultStep(s, vault, amount).Ok?
    ensures CreditVaultStep(s, vault, amount).value.vaultSol >= s.vaultSol
  {
    hide CreditTo, Richer;
    CreditVaultFrame(s, vault, amount);
    if !vault.FundSolVault? {
      hide CreditVaultStep;
      CreditFrameVault(s, CreditVaultStep(s, vault, amount).value, vault);
    }
  }

  lemma CreditRaisesVault(env: Env, s: Ledger, ix: Ix)
    requires ix.CreditVault? && Step(env, s, ix).Ok?
    ensures Step(env, s, ix).value.vaultSol >= s.vaultSol
  {
    hide CreditVaultStep;
    CreditedVault(s, ix.vault, ix.amount);
  }

  lemma CreditFrameVault(s: Ledger, after: Ledger, vault: Vault)
    requires CreditFrame(s, after, vault) && !vault.FundSolVault?
    ensures after.vaultSol == s.vaultSol
  {
  }

  lemma RefusedWhileLocked(env: Env, s: Ledger, ix: Ix)
    requires s.trading.locked && s.fundType.TradingFund? && Step(env, s, ix).Ok?
    ensures !ix.Borrow? && !ix.Rebalance?
  {
    hide ScanForSettle, SurveyFrom, OffTarget, BuyTarget, SellTarget, CreditTo, DepositStep, RequestWithdrawStep,
         CancelWithdrawStep, ExecuteWithdrawStep, AddTokenStep, RemoveTokenStep, CreateLimitStep, ExecuteLimitStep,
         CancelLimitStep, CreateDcaStep, ExecuteDcaStep, CancelDcaStep, SettleStep, SetStrategyStep,
         TransferSharesStep, CreditVaultStep;
  }

  /** The instructions that do not touch the vault. */
  lemma FrameKeepsVault(s: Ledger, ix: Ix, after: Ledger)
    requires Frame(s, ix, after) && !OnOrder(ix) && !ix.CreditVault? && !ix.Borrow? && !ix.Rebalance?
    requires !ix.Deposit? && !ix.ExecuteWithdraw?
    ensures after.vaultSol == s.vaultSol
  {
  }

  lemma VaultRises(env: Env, s: Ledger, ix: Ix)
    requires s.trading.locked && s.fundType.TradingFund? && Step(env, s, ix).Ok? && !TakesLamports(ix)
    ensures Step(env, s, ix).value.vaultSol >= s.vaultSol + if ix.Deposit? then 1 else 0
  {
    hide Step, Frame;
    RefusedWhileLocked(env, s, ix);
    if ix.Deposit? {
      DepositRaisesVault(env, s, ix);
    } else if ix.CreateLimit? || ix.CreateDca? {
      CreateRaisesVault(env, s, ix);
    } else if ix.ExecuteLimit? || ix.ExecuteDca? {
      ExecuteRaisesVault(env, s, ix);
    } else if ix.CancelLimit? || ix.CancelDca? {
      CancelRaisesVault(env, s, ix);
    } else if ix.CreditVault? {
      CreditRaisesVault(env, s, ix);
    } else {
      StepFrame(env, s, ix);
      FrameKeepsVault(s, ix, Step(env, s, ix).value);
    }
  }

  // ---- between a borrow and its settle -----------------------------------------------------------

  ghost predicate TakesNothing(run: seq<Event>) {
    forall e <- run :: !e.ix.Settle? && !TakesLamports(e.ix)
  }

  lemma LockedStepKeeps(env: Env, s: Ledger, ix: Ix)
    requires s.trading.locked && s.fundType.TradingFund? && Step(env, s, ix).Ok? && !ix.Settle?
    ensures var after := Step(env, s, ix).value;
            && after.trading == s.trading && after.fundType == s.fundType
            && (!ix.Deposit? && !ix.ExecuteWithdraw? ==> after.totalShares == s.totalShares)
  {
    hide Step, Frame;
    LockedStep(env, s, ix);
    StepFrame(env, s, ix);
    FrameKeeps(s, ix, Step(env, s, ix).value);
  }

  /** Where nothing is taken out, the vault of a locked fund only rises, and strictly if anyone
      deposits. */
  lemma {:induction false} LockedRun(s: Ledger, run: seq<Event>)
    requires s.trading.locked && s.fundType.TradingFund? && Exec(s, run).Ok? && TakesNothing(run)
    ensures var after := Exec(s, run).value;
            && after.trading == s.trading && after.fundType == s.fundType && after.vaultSol >= s.vaultSol
            && (if NoDeposits(run) then after.totalShares == s.totalShares else after.vaultSol > s.vaultSol)
  {
    hide Step;
    if run != [] {
      var before, last := ExecLast(s, run);
      var init := run[..|run| - 1];
      assert run == init + [last];
      LockedRun(s, init);
      VaultRises(last.env, before, last.ix);
      LockedStepKeeps(last.env, before, last.ix);
    }
  }

  lemma {:induction false} FundTypeKept(s: Ledger, run: seq<Event>)
    requires Exec(s, run).Ok?
    ensures Exec(s, run).value.fundType == s.fundType
  {
    hide Step, Frame;
    if run != [] {
      var before, last := ExecLast(s, run);
      FundTypeKept(s, run[..|run| - 1]);
      StepFrame(last.env, before, last.ix);
      FrameKeeps(before, last.ix, Step(last.env, before, last.ix).value);
    }
  }

  /** The ledger a borrow leaves, and what its settle finds. */
  lemma PairParts(s: Ledger, borrow: Event, mid: seq<Event>, settle: Event) returns (locked: Ledger, found: Ledger)
    requires borrow.ix.Borrow? && settle.ix.Settle? && forall e <- mid :: !e.ix.Settle?
    requires Exec(s, [borrow] + mid + [settle]).Ok?
    ensures locked.trading.locked && locked.trading.borrowed == borrow.ix.amount > 0
    ensures locked.trading.outputMint == borrow.ix.mint && locked.trading.minOut == borrow.ix.minOut > 0
    ensures locked.trading.snapshotOutput == Balance(s.tokens, borrow.ix.mint)
    ensures locked.fundType.TradingFund? && locked.vaultSol == s.vaultSol - borrow.ix.amount
    ensures Exec(s, [borrow]) == Ok(locked)
    ensures locked == s.(trading := locked.trading, vaultSol := locked.vaultSol, wallets := locked.wallets)
    ensures Exec(locked, mid) == Ok(found) && found.trading == locked.trading
    ensures found.vaultSol == locked.vaultSol
    ensures Balance(found.tokens, borrow.ix.mint) >= Balance(s.tokens, borrow.ix.mint) + borrow.ix.minOut
    ensures Exec(s, [borrow] + mid + [settle]) == Ok(found.(trading := UNLOCKED))
  {
    hide Step, Exec;
    var whole := [borrow] + mid + [settle];
    assert whole[..|whole| - 1] == [borrow] + mid;
    var last;
    found, last := ExecLast(s, whole);
    ExecConcat(s, [borrow], mid);
    ExecOne(s, borrow);
    locked := Step(borrow.env, s, borrow.ix).value;
    BorrowLocks(borrow.env, s, borrow.ix);
    BorrowRecordKept(locked, mid);
    SettleUnlocks(settle.env, found, settle.ix);
  }

  lemma BorrowLocks(env: Env, s: Ledger, ix: Ix)
    requires ix.Borrow? && Step(env, s, ix).Ok?
    ensures s.fundType.TradingFund? && ix.amount > 0 && ix.minOut > 0 && ix.mint in s.tokens
    ensures var after := Step(env, s, ix).value;
            && after == s.(trading := after.trading, vaultSol := after.vaultSol, wallets := after.wallets)
            && after.trading == Trading(true, ix.amount, ix.minOut, s.vaultSol, s.tokens[ix.mint], ix.mint)
            && after.vaultSol == s.vaultSol - ix.amount
  {
    hide ScanForSettle, CreditTo;
  }

  lemma SettleUnlocks(env: Env, s: Ledger, ix: Ix)
    requires ix.Settle? && Step(env, s, ix).Ok?
    ensures Step(env, s, ix) == Ok(s.(trading := UNLOCKED))
    ensures var t := s.trading;
            s.vaultSol == t.snapshotSol - t.borrowed && Balance(s.tokens, t.outputMint) >= t.snapshotOutput + t.minOut
  {
  }

  /** A deposit between a borrow and its settle needs a payout or a new BUY order in between as
      well: without one, whatever else ran in whatever environments, nobody deposited and the
      number of shares is what it was. */
  lemma DepositNeedsOutflow(s: Ledger, borrow: Event, mid: seq<Event>, settle: Event)
    requires borrow.ix.Borrow? && settle.ix.Settle? && TakesNothing(mid)
    requires Exec(s, [borrow] + mid + [settle]).Ok?
    ensures NoDeposits(mid)
    ensures Exec(s, [borrow] + mid + [settle]).value.totalShares == s.totalShares
  {
    hide Exec, NoDeposits, TakesLamports;
    var locked, found := PairParts(s, borrow, mid, settle);
    LockedRun(locked, mid);
  }

  lemma {:induction false} ShareRunKeepsTokens(s: Ledger, run: seq<Event>)
    requires Exec(s, run).Ok? && forall e <- run :: OnShares(e.ix)
    ensures Exec(s, run).value.tokens == s.tokens
  {
    hide Step;
    if run != [] {
      var before, last := ExecLast(s, run);
      ShareRunKeepsTokens(s, run[..|run| - 1]);
      StepFrame(last.env, before, last.ix);
    }
  }

  /** Investors alone cannot bring about a settle: somebody must deliver the tokens. */
  lemma InvestorsCannotSettle(s: Ledger, borrow: Event, mid: seq<Event>, settle: Event)
    requires borrow.ix.Borrow? && settle.ix.Settle? && forall e <- mid :: OnShares(e.ix)
    ensures Exec(s, [borrow] + mid + [settle]).Err?
  {
    hide Exec;
    if Exec(s, [borrow] + mid + [settle]).Ok? {
      var locked, found := PairParts(s, borrow, mid, settle);
      ShareRunKeepsTokens(locked, mid);
      assert false;
    }
  }

  /** Investors' instructions in one stretch between a borrow and its settle, with the tokens
      delivered before or after it, never leave more shares than there were. */
  lemma SharesDoNotGrow(env: Env, s: Ledger, borrow: Event, before: seq<Event>, stretch: seq<Event>,
                        rest: seq<Event>, settle: Event)
    requires borrow.ix.Borrow? && settle.ix.Settle?
    requires TakesNothing(before) && TakesNothing(rest) && NoDeposits(before) && NoDeposits(rest)
    requires ShareRun(env, stretch)
    requires Exec(s, [borrow] + (before + stretch + rest) + [settle]).Ok?
    requires Exec(s, [borrow] + before).Ok?
    requires CountersExact(Exec(s, [borrow] + before).value)
          && NavFits(env, Exec(s, [borrow] + before).value, stretch)
    ensures Exec(s, [borrow] + (before + stretch + rest) + [settle]).value.totalShares <= s.totalShares
  {
    hide Exec, ExactNav, NoDeposits, TakesLamports, CountersExact, NavFits, Mul, Step;
    var mid := before + stretch + rest;
    var locked, found := PairParts(s, borrow, mid, settle);
    ExecConcat(locked, before + stretch, rest);
    ExecConcat(locked, before, stretch);
    LockedRun(locked, before);
    var start := Exec(locked, before).value;
    var end := Exec(start, stretch).value;
    ExecConcat(s, [borrow], before);
    KeptOverRun(env, 0, start, stretch);
    FundTypeKept(start, stretch);
    LockedRun(end, rest);
    OnlyVaultChanged(env, start, end);
    FewerShares(ExactNav(env, start), start.totalShares, ExactNav(env, end), end.totalShares);
  }

  lemma FewerShares(v: nat, shares: nat, v': nat, shares': nat)
    requires Mul(v', shares) >= Mul(v, shares') && v' <= v
    requires v == 0 ==> shares' == shares
    ensures shares' <= shares
  {
    if v > 0 {
      MulLe(v', v, shares);
      assert v * shares == shares * v && v * shares' == shares' * v;
      CancelLe(shares', shares, v);
    }
  }

  // ---- how far the price can fall ----------------------------------------------------------------

  /** What investors and others can do without costing the fund anything: beside instructions on
      shares, credits, new BUY orders, listings, and cancels, unless a SELL order is refunded to
      another account. */
  predicate CostsNothing(s: Ledger, ix: Ix) {
    && MayCostNothing(ix)
    && (ix.CancelLimit? && ix.other && ix.id in s.limits ==> s.limits[ix.id].escrow.side.Buy?)
  }

  predicate MayCostNothing(ix: Ix) {
    || OnShares(ix) || ix.CreditVault? || ix.AddToken? || ix.CancelLimit? || (ix.CancelDca? && !ix.other)
    || (ix.CreateLimit? && ix.side == 0) || (ix.CreateDca? && ix.side == 0)
  }

  ghost predicate FreeRun(env: Env, s: Ledger, run: seq<Event>) {
    && (forall e <- run :: MayCostNothing(e.ix) && SamePrices(env, e.env))
    && forall k :: 0 <= k < |run| && Exec(s, run[..k]).Ok? ==> CostsNothing(Exec(s, run[..k]).value, run[k].ix)
  }

  lemma CountersStayExact(env: Env, s: Ledger, ix: Ix)
    requires Sound(s) && CountersExact(s) && CostsNothing(s, ix) && Step(env, s, ix).Ok?
    ensures Sound(Step(env, s, ix).value) && CountersExact(Step(env, s, ix).value)
  {
    hide Step, SharesSound, TradingSound, KindSound, StrategySound, RequestsSound, OpenIds, LimitBook, DcaBook;
    StepKeepsSound(env, s, ix);
    StepCounts(env, s, ix);
  }

  /** A step that costs nothing does not lower the price of a share, the loan not counted. */
  lemma FreeStep(env: Env, e: Event, s: Ledger)
    requires CostsNothing(s, e.ix) && SamePrices(env, e.env) && CountersExact(s) && Step(e.env, s, e.ix).Ok?
    requires e.ix.Deposit? ==> ExactNav(env, s) <= U64_MAX
    ensures KeptWith(env, 0, s, Step(e.env, s, e.ix).value)
  {
    hide Step, ExactNav, CountersExact, SamePrices, Mul, Frame, CreditWorth;
    if OnShares(e.ix) {
      ShareStep(env, 0, e, s);
    } else {
      var after := Step(e.env, s, e.ix).value;
      StepCovered(e, s);
      StepFrame(e.env, s, e.ix);
      FrameKeeps(s, e.ix, after);
      ExactNavAtSamePrices(env, e.env, s);
      ExactNavAtSamePrices(env, e.env, after);
      MulMono(ExactNav(env, s), ExactNav(env, after), s.totalShares);
    }
  }

  lemma {:induction false} FreeRunKeepsPrice(env: Env, s: Ledger, run: seq<Event>)
    requires Sound(s) && CountersExact(s) && FreeRun(env, s, run) && NavFits(env, s, run) && Exec(s, run).Ok?
    ensures var after := Exec(s, run).value; Sound(after) && CountersExact(after) && KeptWith(env, 0, s, after)
  {
    hide Step, ExactNav, Sound, CountersExact, Mul, CostsNothing, SamePrices;
    if run != [] {
      var before, last := ExecLast(s, run);
      var init := run[..|run| - 1];
      assert forall k :: 0 <= k < |init| ==> init[..k] == run[..k];
      assert NavFits(env, s, init);
      assert FreeRun(env, s, init);
      FreeRunKeepsPrice(env, s, init);
      FreeStep(env, last, before);
      CountersStayExact(last.env, before, last.ix);
      var after := Exec(s, run).value;
      if before.totalShares == 0 {
        NoSharesStep(last.env, before, last.ix);
      }
      PriceTransitive(ExactNav(env, s), s.totalShares, ExactNav(env, before), before.totalShares,
                      ExactNav(env, after), after.totalShares);
    }
  }

  /** Whatever investors do between a borrow and its settle at fixed prices, in any interleaving
      with deliveries, new BUY orders, cancels and listings: the value per share ends no lower
      than what the holdings without the loan were worth per share. */
  lemma LoanBoundsDilution(env: Env, s: Ledger, borrow: Event, mid: seq<Event>, settle: Event)
    requires Sound(s) && CountersExact(s) && borrow.ix.Borrow? && settle.ix.Settle?
    requires Exec(s, [borrow]).Ok?
    requires FreeRun(env, Exec(s, [borrow]).value, mid) && NavFits(env, Exec(s, [borrow]).value, mid)
    requires Exec(s, [borrow] + mid + [settle]).Ok?
    ensures ExactNav(env, s) >= borrow.ix.amount
    ensures var end := Exec(s, [borrow] + mid + [settle]).value;
            Mul(ExactNav(env, end), s.totalShares) >= Mul(ExactNav(env, s) - borrow.ix.amount, end.totalShares)
  {
    hide Exec, ExactNav, Sound, CountersExact, Mul, SamePrices, CostsNothing, NavFits;
    var locked, found := PairParts(s, borrow, mid, settle);
    LockedIsSound(s, borrow);
    OnlyVaultChanged(env, s, locked);
    FreeRunKeepsPrice(env, locked, mid);
    OnlyVaultChanged(env, found, found.(trading := UNLOCKED));
  }

  lemma LockedIsSound(s: Ledger, borrow: Event)
    requires Sound(s) && borrow.ix.Borrow? && Exec(s, [borrow]).Ok?
    ensures Sound(Exec(s, [borrow]).value)
  {
    hide Step, Exec, Sound;
    ExecOne(s, borrow);
    StepKeepsSound(borrow.env, s, borrow.ix);
  }
}
