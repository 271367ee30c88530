/** Which parts of the ledger each instruction can change. */
module Frames {
  import opened Ints
  import opened Ledgers
  import opened Steps

  /** `after` differs from `s` only in the fields instruction `ix` may write. */
  ghost predicate Frame(s: Ledger, ix: Ix, after: Ledger) {
    match ix
    case Deposit(_, _, _) => SharesFrame(s, after) && after.requests == s.requests
    case ExecuteWithdraw(investor, _) => SharesFrame(s, after) && after.requests == s.requests - {investor}
    case RequestWithdraw(investor, amount) => after == s.(requests := after.requests)
    case CancelWithdraw(investor) => after == s.(requests := s.requests - {investor})
    case AddToken(_, mint, listing) => WhitelistFrame(s, after) && after.listings == s.listings[mint := listing]
    case RemoveToken(_, mint) => WhitelistFrame(s, after) && after.listings == s.listings - {mint}
    case CreateLimit(_, _, _, _, _, _, _, _) => LimitFrame(s, after, s.nextOrderId)
    case ExecuteLimit(_, id, _) => LimitFrame(s, after, id) && after.nextOrderId == s.nextOrderId
    case CancelLimit(_, id, _) => LimitFrame(s, after, id) && after.nextOrderId == s.nextOrderId
    case CreateDca(_, _, _, _, _, _, _, _, _) => DcaFrame(s, after, s.nextOrderId)
    case ExecuteDca(_, id, _, _) => DcaFrame(s, after, id) && after.nextOrderId == s.nextOrderId
    case CancelDca(_, id, _) => DcaFrame(s, after, id) && after.nextOrderId == s.nextOrderId
    case Borrow(_, _, _, _, _) =>
      after == s.(trading := after.trading, vaultSol := after.vaultSol, wallets := after.wallets)
    case Settle(_) => after == s.(trading := UNLOCKED)
    case SetStrategy(_, _, _, _, _) => after == s.(strategy := after.strategy)
    case Rebalance(_, _, _, _, _) =>
      after == s.(vaultSol := after.vaultSol, tokens := after.tokens, strategy := after.strategy)
    case TransferShares(_, _, _) => after == s.(shares := after.shares)
    case CreditVault(vault, _) => CreditFrame(s, after, vault)
  }

  ghost predicate SharesFrame(s: Ledger, after: Ledger) {
    after == s.(wallets := after.wallets, vaultSol := after.vaultSol, shares := after.shares,
                shareSupply := after.shareSupply, totalShares := after.totalShares, requests := after.requests)
  }

  ghost predicate WhitelistFrame(s: Ledger, after: Ledger) {
    after == s.(listings := after.listings, tokens := after.tokens, enabledCount := after.enabledCount)
  }

  ghost predicate LimitFrame(s: Ledger, after: Ledger, id: nat) {
    && after == s.(limits := after.limits, limitCount := after.limitCount, nextOrderId := after.nextOrderId,
                   vaultSol := after.vaultSol, tokens := after.tokens, loose := after.loose)
    && after.limits - {id} == s.limits - {id}
  }

  ghost predicate DcaFrame(s: Ledger, after: Ledger, id: nat) {
    && after == s.(dcas := after.dcas, dcaCount := after.dcaCount, nextOrderId := after.nextOrderId,
                   vaultSol := after.vaultSol, tokens := after.tokens, loose := after.loose)
    && after.dcas - {id} == s.dcas - {id}
  }

  /** A credit touches one balance of one vault. */
  ghost predicate CreditFrame(s: Ledger, after: Ledger, vault: Vault) {
    match vault
    case FundSolVault => after == s.(vaultSol := after.vaultSol)
    case FundTokenVault(_) => after == s.(tokens := after.tokens)
    case LimitSolVault(id) => CreditedLimit(s, after, id)
    case LimitTokenVault(id) => CreditedLimit(s, after, id)
    case DcaSolVault(id) => CreditedDca(s, after, id)
    case DcaTokenVault(id) => CreditedDca(s, after, id)
    case UnusedSolVault(_, _) => after == s.(loose := after.loose)
    case UnusedTokenVault(_, _, _) => after == s.(loose := after.loose)
  }

  ghost predicate CreditedLimit(s: Ledger, after: Ledger, id: nat) {
    && id in s.limits && id in after.limits
    && after == s.(limits := s.limits[id := s.limits[id].(escrow := after.limits[id].escrow)])
    && Richer(s.limits[id].escrow, after.limits[id].escrow)
  }

  ghost predicate CreditedDca(s: Ledger, after: Ledger, id: nat) {
    && id in s.dcas && id in after.dcas
    && after == s.(dcas := s.dcas[id := s.dcas[id].(escrow := after.dcas[id].escrow)])
    && Richer(s.dcas[id].escrow, after.dcas[id].escrow)
  }

  ghost predicate Richer(e: Escrow, after: Escrow) {
    after == e.(sol := after.sol, token := after.token) && after.sol >= e.sol && after.token >= e.token
  }

  lemma CreditVaultFrame(s: Ledger, vault: Vault, amount: u64)
    requires CreditVaultStep(s, vault, amount).Ok?
    ensures CreditFrame(s, CreditVaultStep(s, vault, amount).value, vault)
  {
    hide CreditTo;
  }

  predicate OnOrder(ix: Ix) {
    ix.CreateLimit? || ix.ExecuteLimit? || ix.CancelLimit? || ix.CreateDca? || ix.ExecuteDca? || ix.CancelDca?
  }

  lemma OrderFrame(env: Env, s: Ledger, ix: Ix)
    requires OnOrder(ix) && Step(env, s, ix).Ok?
    ensures Frame(s, ix, Step(env, s, ix).value)
  {
    hide OpenLimit, OpenDca, FillLimit, FillSlice, MayCancel, Refund, DepositStep, RequestWithdrawStep,
         CancelWithdrawStep, ExecuteWithdrawStep, AddTokenStep, RemoveTokenStep, BorrowStep, SettleStep,
         SetStrategyStep, RebalanceStep, TransferSharesStep, CreditVaultStep, SubU16, AddU64,
         CreditFrame, SharesFrame, WhitelistFrame;
  }

  lemma StepFrame(env: Env, s: Ledger, ix: Ix)
    requires Step(env, s, ix).Ok?
    ensures Frame(s, ix, Step(env, s, ix).value)
  {
    hide DepositPaid, WithdrawPaid, CreateLimitStep, ExecuteLimitStep, CancelLimitStep, CreateDcaStep, ExecuteDcaStep,
         CancelDcaStep, MayBorrow, ScanForSettle, MaySettle, StrategyTerms, CheckAllocations, CheckListed,
         RebalanceTrade, DebitFrom, CreditTo, CreditVaultStep, AddU16, SubU16, AddU64, Balance,
         CreditFrame, LimitFrame, DcaFrame;
    if OnOrder(ix) {
      OrderFrame(env, s, ix);
    } else if ix.CreditVault? {
      CreditVaultFrame(s, ix.vault, ix.amount);
    }
  }

  /** An order other than the one an instruction names. */
  lemma OtherLimit(s: Ledger, after: Ledger, changed: nat, id: nat)
    requires LimitFrame(s, after, changed) && id != changed
    ensures id in after.limits <==> id in s.limits
    ensures id in s.limits ==> after.limits[id] == s.limits[id]
    ensures after.dcas == s.dcas
  {
    assert id in s.limits ==> id in s.limits - {changed} && s.limits[id] == (s.limits - {changed})[id];
    assert id in after.limits ==> id in after.limits - {changed};
  }

  lemma OtherDca(s: Ledger, after: Ledger, changed: nat, id: nat)
    requires DcaFrame(s, after, changed) && id != changed
    ensures id in after.dcas <==> id in s.dcas
    ensures id in s.dcas ==> after.dcas[id] == s.dcas[id]
    ensures after.limits == s.limits
  {
    assert id in s.dcas ==> id in s.dcas - {changed} && s.dcas[id] == (s.dcas - {changed})[id];
    assert id in after.dcas ==> id in after.dcas - {changed};
  }

  lemma SameOrders(s: Ledger, ix: Ix, after: Ledger)
    requires Frame(s, ix, after) && !OnOrder(ix) && !ix.CreditVault?
    ensures after.limits == s.limits && after.dcas == s.dcas
  {
  }

  // ---- what follows from a frame ---------------------------------------------------------------

  /** The terms of the fund itself. */
  ghost predicate SameFund(s: Ledger, after: Ledger) {
    && after.key == s.key && after.config == s.config && after.manager == s.manager
    && after.fundType == s.fundType && after.minDeposit == s.minDeposit && after.timelock == s.timelock
  }

  ghost predicate SameClaims(s: Ledger, after: Ledger) {
    && SameFund(s, after) && after.requests == s.requests && after.trading == s.trading
    && after.totalShares == s.totalShares && after.strategy == s.strategy
  }

  ghost predicate SameWhitelist(s: Ledger, after: Ledger) {
    after.listings == s.listings && after.enabledCount == s.enabledCount
  }

  lemma SharesFrameKeeps(s: Ledger, after: Ledger)
    requires SharesFrame(s, after)
    ensures SameFund(s, after) && SameWhitelist(s, after) && after.nextOrderId == s.nextOrderId
    ensures after.trading == s.trading && after.strategy == s.strategy
  {
  }

  lemma WhitelistFrameKeeps(s: Ledger, after: Ledger)
    requires WhitelistFrame(s, after)
    ensures SameClaims(s, after) && after.nextOrderId == s.nextOrderId
  {
  }

  lemma LimitFrameKeeps(s: Ledger, after: Ledger, id: nat)
    requires LimitFrame(s, after, id)
    ensures SameClaims(s, after) && SameWhitelist(s, after)
  {
  }

  lemma DcaFrameKeeps(s: Ledger, after: Ledger, id: nat)
    requires DcaFrame(s, after, id)
    ensures SameClaims(s, after) && SameWhitelist(s, after)
  {
  }

  lemma CreditFrameKeeps(s: Ledger, after: Ledger, vault: Vault)
    requires CreditFrame(s, after, vault)
    ensures SameClaims(s, after) && SameWhitelist(s, after) && after.nextOrderId == s.nextOrderId
  {
    hide Richer, CreditedLimit, CreditedDca;
    match vault {
      case LimitSolVault(id) => CreditedLimitKeeps(s, after, id);
      case LimitTokenVault(id) => CreditedLimitKeeps(s, after, id);
      case DcaSolVault(id) => CreditedDcaKeeps(s, after, id);
      case DcaTokenVault(id) => CreditedDcaKeeps(s, after, id);
      case _ =>
    }
  }

  lemma CreditedLimitKeeps(s: Ledger, after: Ledger, id: nat)
    requires CreditedLimit(s, after, id)
    ensures SameClaims(s, after) && SameWhitelist(s, after) && after.nextOrderId == s.nextOrderId
  {
  }

  lemma CreditedDcaKeeps(s: Ledger, after: Ledger, id: nat)
    requires CreditedDca(s, after, id)
    ensures SameClaims(s, after) && SameWhitelist(s, after) && after.nextOrderId == s.nextOrderId
  {
  }

  lemma FrameKeeps(s: Ledger, ix: Ix, after: Ledger)
    requires Frame(s, ix, after)
    ensures SameFund(s, after)
    ensures !ix.Borrow? && !ix.Settle? ==> after.trading == s.trading
    ensures !ix.Deposit? && !ix.RequestWithdraw? && !ix.CancelWithdraw? && !ix.ExecuteWithdraw? ==>
              after.requests == s.requests
    ensures ix.Deposit? ==> after.requests == s.requests
    ensures !ix.Deposit? && !ix.ExecuteWithdraw? ==> after.totalShares == s.totalShares
    ensures !ix.SetStrategy? && !ix.Rebalance? ==> after.strategy == s.strategy
    ensures !ix.AddToken? && !ix.RemoveToken? ==> SameWhitelist(s, after)
    ensures !ix.CreateLimit? && !ix.CreateDca? ==> after.nextOrderId == s.nextOrderId
    ensures ix.CancelWithdraw? || ix.ExecuteWithdraw? ==> after.requests == s.requests - {ix.investor}
  {
    hide SharesFrame, WhitelistFrame, LimitFrame, DcaFrame, CreditFrame;
    match ix {
      case Deposit(_, _, _) => SharesFrameKeeps(s, after);
      case ExecuteWithdraw(_, _) => SharesFrameKeeps(s, after);
      case AddToken(_, _, _) => WhitelistFrameKeeps(s, after);
      case RemoveToken(_, _) => WhitelistFrameKeeps(s, after);
      case CreateLimit(_, _, _, _, _, _, _, _) => LimitFrameKeeps(s, after, s.nextOrderId);
      case ExecuteLimit(_, id, _) => LimitFrameKeeps(s, after, id);
      case CancelLimit(_, id, _) => LimitFrameKeeps(s, after, id);
      case CreateDca(_, _, _, _, _, _, _, _, _) => DcaFrameKeeps(s, after, s.nextOrderId);
      case ExecuteDca(_, id, _, _) => DcaFrameKeeps(s, after, id);
      case CancelDca(_, id, _) => DcaFrameKeeps(s, after, id);
      case CreditVault(vault, _) => CreditFrameKeeps(s, after, vault);
      case _ =>
    }
  }
}
