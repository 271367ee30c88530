/** The whitelist, the loan, the strategy and credits from outside, written out: exactly when each
    instruction is accepted and the whole ledger after it, in plain arithmetic on the balances. */
module FundTerms {
  import opened Results
  import opened Ints
  import opened Ledgers
  import opened Steps
  import opened Transactions
  import opened Ranges

  // ---- the whitelist -----------------------------------------------------------------------------

  lemma AddTokenIff(s: Ledger, signer: Address, mint: Address, listing: Listing)
    ensures var step := AddTokenStep(s, signer, mint, listing);
            && (step.Ok? <==> signer == s.manager && mint !in s.listings && s.enabledCount < 0xFFFF)
            && (step.Ok? ==>
                  step.value == s.(listings := s.listings[mint := listing], enabledCount := s.enabledCount + 1,
                                   tokens := s.tokens[mint := if mint in s.tokens then s.tokens[mint] else 0]))
  {
  }

  /** The record need not be there: the counter falls either way. */
  lemma RemoveTokenIff(s: Ledger, signer: Address, mint: Address)
    ensures var step := RemoveTokenStep(s, signer, mint);
            && (step.Ok? <==> signer == s.manager && mint in s.tokens && s.tokens[mint] == 0 && s.enabledCount > 0)
            && (step.Ok? ==> step.value == s.(listings := s.listings - {mint}, enabledCount := s.enabledCount - 1))
  {
  }

  // ---- the loan ----------------------------------------------------------------------------------

  /** The first settle instruction after the borrow is for the fund's own accounts. */
  ghost predicate SettlesNext(s: Ledger, mint: Address, later: seq<Meta>) {
    var own := [s.manager, s.config, s.key, TradingOf(s.key), VaultOf(s.key), WhitelistOf(s.key, mint),
                Ata(s.key, mint)];
    exists i :: 0 <= i < |later| && later[i].isSettle && own <= later[i].accounts
                && forall j :: 0 <= j < i ==> !later[j].isSettle
  }

  lemma BorrowIff(s: Ledger, signer: Address, amount: u64, minOut: u64, mint: Address, later: seq<Meta>)
    ensures var step := BorrowStep(s, signer, amount, minOut, mint, later);
            && (step.Ok? <==> && !s.trading.locked && signer == s.manager && s.fundType.TradingFund?
                              && amount > 0 && minOut > 0 && mint in s.listings && mint in s.tokens
                              && s.vaultSol >= amount && Fits64(Balance(s.wallets, signer) + amount)
                              && SettlesNext(s, mint, later))
            && (step.Ok? ==>
                  step.value == s.(vaultSol := s.vaultSol - amount,
                                   wallets := s.wallets[signer := Balance(s.wallets, signer) + amount],
                                   trading := Trading(true, amount, minOut, s.vaultSol, s.tokens[mint], mint)))
  {
    hide ScanForSettle;
    ScanFindsFirstSettle(later, ExpectedSettle(s, mint));
  }

  lemma SettleIff(s: Ledger, accounts: seq<Address>)
    ensures var step, t := SettleStep(s, accounts), s.trading;
            && (step.Ok? <==> && |accounts| >= 7
                              && accounts[0] == s.manager && accounts[1] == s.config && accounts[2] == s.key
                              && accounts[3] == TradingOf(s.key) && accounts[4] == VaultOf(s.key)
                              && accounts[5] == WhitelistOf(s.key, t.outputMint)
                              && accounts[6] == Ata(s.key, t.outputMint)
                              && t.locked && s.fundType.TradingFund?
                              && t.outputMint in s.listings && t.outputMint in s.tokens
                              && s.vaultSol == t.snapshotSol - t.borrowed
                              && s.tokens[t.outputMint] >= t.snapshotOutput + t.minOut)
            && (step.Ok? ==> step.value == s.(trading := Trading(false, 0, 0, 0, 0, Key(1))))
  {
    if |accounts| >= 7 {
      assert accounts[1..5] == [accounts[1], accounts[2], accounts[3], accounts[4]];
    }
  }

  // ---- the strategy ------------------------------------------------------------------------------

  ghost function TotalWeight(allocations: seq<Allocation>): nat {
    if allocations == [] then 0 else allocations[0].weightBps + TotalWeight(allocations[1..])
  }

  lemma {:induction false} WeightSumIsTotal(allocations: seq<Allocation>)
    ensures WeightSum(allocations) == TotalWeight(allocations)
  {
    if |allocations| > 1 {
      var n := |allocations| - 1;
      WeightSumIsTotal(allocations[..n]);
      WeightSumIsTotal(allocations[1..]);
      WeightSumIsTotal(allocations[1..][..n - 1]);
      assert allocations[..n][1..] == allocations[1..][..n - 1];
    } else if |allocations| == 1 {
      assert allocations[..0] == [] && allocations[1..] == [];
    }
  }

  lemma CheckAllocationsIff(allocations: seq<Allocation>, i: nat)
    requires i <= |allocations|
    ensures CheckAllocations(allocations, i).Ok?
       <==> && (forall k :: i <= k < |allocations| ==> allocations[k].weightBps > 0)
            && (forall j, k :: 0 <= j < k < |allocations| && i <= k ==> allocations[j].mint != allocations[k].mint)
    decreases |allocations| - i
  {
    if i < |allocations| {
      CheckAllocationsIff(allocations, i + 1);
    }
  }

  lemma CheckListedIff(s: Ledger, allocations: seq<Allocation>, accounts: seq<Address>, i: nat)
    requires i <= |allocations| == |accounts|
    ensures CheckListed(s, allocations, accounts, i).Ok?
       <==> forall k :: i <= k < |allocations| ==>
              accounts[k] == WhitelistOf(s.key, allocations[k].mint) && allocations[k].mint in s.listings
    decreases |allocations| - i
  {
    if i < |allocations| {
      CheckListedIff(s, allocations, accounts, i + 1);
    }
  }

  /** Exactly when a strategy is accepted. */
  ghost predicate StrategyAccepted(s: Ledger, signer: Address, allocations: seq<Allocation>, thresholdBps: u16,
                                   cooldown: i64, accounts: seq<Address>) {
    && s.strategy.None? && signer == s.manager && s.fundType.StrategyFund?
    && 1 <= |allocations| == |accounts| == s.enabledCount <= 8 && thresholdBps <= 10_000 && cooldown > 0
    && TotalWeight(allocations) == 10_000
    && (forall k :: 0 <= k < |allocations| ==> allocations[k].weightBps > 0)
    && (forall j, k :: 0 <= j < k < |allocations| ==> allocations[j].mint != allocations[k].mint)
    && (forall k :: 0 <= k < |allocations| ==>
          accounts[k] == WhitelistOf(s.key, allocations[k].mint) && allocations[k].mint in s.listings)
  }

  /** The table holds the allocations in their order, and nothing after them. */
  ghost predicate Holds(table: seq<Allocation>, allocations: seq<Allocation>) {
    && |table| == 8 >= |allocations|
    && (forall k :: 0 <= k < |allocations| ==> table[k] == allocations[k])
    && (forall k :: |allocations| <= k < 8 ==> table[k] == Allocation(Key(1), 0))
  }

  /** The ledger after it: each mint has the weight the manager gave for it. */
  lemma SetStrategyIff(env: Env, s: Ledger, signer: Address, allocations: seq<Allocation>, thresholdBps: u16,
                       cooldown: i64, accounts: seq<Address>)
    ensures var step := SetStrategyStep(env, s, signer, allocations, thresholdBps, cooldown, accounts);
            && (step.Ok? <==> StrategyAccepted(s, signer, allocations, thresholdBps, cooldown, accounts))
            && (step.Ok? ==>
                  && step.value.strategy.Some?
                  && var table := step.value.strategy.value.allocations;
                  && Holds(table, allocations)
                  && step.value
                     == s.(strategy := Some(Strategy(|allocations|, table, thresholdBps, cooldown, env.now))))
  {
    hide WeightSum, CheckAllocations, CheckListed, TotalWeight;
    WeightSumIsTotal(allocations);
    CheckAllocationsIff(allocations, 0);
    if |allocations| == |accounts| {
      CheckListedIff(s, allocations, accounts, 0);
    }
  }

  // ---- credits from outside ----------------------------------------------------------------------

  /** The vault is one of a recorded order, or the address of an unrecorded one, as it says. */
  ghost predicate IsThere(s: Ledger, vault: Vault) {
    match vault
    case FundSolVault => true
    case FundTokenVault(_) => true
    case LimitSolVault(id) => id in s.limits
    case LimitTokenVault(id) => id in s.limits
    case DcaSolVault(id) => id in s.dcas
    case DcaTokenVault(id) => id in s.dcas
    case UnusedSolVault(kind, id) => if kind.LimitKind? then id !in s.limits else id !in s.dcas
    case UnusedTokenVault(kind, id, _) => if kind.LimitKind? then id !in s.limits else id !in s.dcas
  }

  ghost function Held(s: Ledger, vault: Vault): u64 {
    match vault
    case FundSolVault => s.vaultSol
    case FundTokenVault(mint) => Balance(s.tokens, mint)
    case LimitSolVault(id) => if id in s.limits then s.limits[id].escrow.sol else 0
    case LimitTokenVault(id) => if id in s.limits then s.limits[id].escrow.token else 0
    case DcaSolVault(id) => if id in s.dcas then s.dcas[id].escrow.sol else 0
    case DcaTokenVault(id) => if id in s.dcas then s.dcas[id].escrow.token else 0
    case UnusedSolVault(kind, id) => Balance(s.loose, SolVaultOf(OrderOf(kind, s.key, id)))
    case UnusedTokenVault(kind, id, mint) => Balance(s.loose, Ata(AuthOf(OrderOf(kind, s.key, id)), mint))
  }

  /** The orders but for the balances of their vaults. */
  ghost function LimitsWithout(s: Ledger): map<nat, LimitOrder> {
    map id | id in s.limits :: s.limits[id].(escrow := s.limits[id].escrow.(sol := 0, token := 0))
  }

  ghost function DcasWithout(s: Ledger): map<nat, DcaOrder> {
    map id | id in s.dcas :: s.dcas[id].(escrow := s.dcas[id].escrow.(sol := 0, token := 0))
  }

  lemma CreditAccepted(s: Ledger, vault: Vault, amount: u64)
    ensures CreditVaultStep(s, vault, amount).Ok? <==> IsThere(s, vault) && Fits64(Held(s, vault) + amount)
    ensures CreditVaultStep(s, vault, amount).Ok? ==>
              Held(CreditVaultStep(s, vault, amount).value, vault) == Held(s, vault) + amount
  {
  }

  lemma CreditLeavesOthers(s: Ledger, vault: Vault, amount: u64, other: Vault)
    requires CreditVaultStep(s, vault, amount).Ok? && other != vault
    ensures Held(CreditVaultStep(s, vault, amount).value, other) == Held(s, other)
  {
  }

  lemma CreditLeavesRest(s: Ledger, vault: Vault, amount: u64)
    requires CreditVaultStep(s, vault, amount).Ok?
    ensures var after := CreditVaultStep(s, vault, amount).value;
            && after == s.(vaultSol := after.vaultSol, tokens := after.tokens, limits := after.limits,
                           dcas := after.dcas, loose := after.loose)
            && LimitsWithout(after) == LimitsWithout(s) && DcasWithout(after) == DcasWithout(s)
  {
  }

  /** A credit raises that vault by the amount and leaves every other one as it was, and all that
      is not a vault. */
  lemma CreditVaultIff(s: Ledger, vault: Vault, amount: u64)
    ensures var step := CreditVaultStep(s, vault, amount);
            && (step.Ok? <==> IsThere(s, vault) && Fits64(Held(s, vault) + amount))
            && (step.Ok? ==>
                  && Held(step.value, vault) == Held(s, vault) + amount
                  && (forall other :: other != vault ==> Held(step.value, other) == Held(s, other))
                  && step.value == s.(vaultSol := step.value.vaultSol, tokens := step.value.tokens,
                                      limits := step.value.limits, dcas := step.value.dcas, loose := step.value.loose)
                  && LimitsWithout(step.value) == LimitsWithout(s) && DcasWithout(step.value) == DcasWithout(s))
  {
    hide CreditVaultStep, Held, LimitsWithout, DcasWithout;
    CreditAccepted(s, vault, amount);
    if CreditVaultStep(s, vault, amount).Ok? {
      CreditLeavesRest(s, vault, amount);
      forall other | other != vault
        ensures Held(CreditVaultStep(s, vault, amount).value, other) == Held(s, other)
      {
        CreditLeavesOthers(s, vault, amount, other);
      }
    }
  }
}
