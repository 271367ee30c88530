/** What a group of investors can take out against what they put in, and where the lamports of
    deposits and payouts go. */
module Coalitions {
  import opened Ints
  import opened MapSums
  import opened Ledgers
  import opened Navs
  import opened ExactNavs
  import opened Steps
  import opened Ranges
  import opened ShareTerms
  import opened Runs
  import opened Invariants
  import opened ShareAccounting

  // ---- lamports ----------------------------------------------------------------------------

  lemma DebitSum(m: map<Address, u64>, who: Address, amount: u64)
    requires DebitFrom(m, who, amount).Ok?
    ensures Sum(DebitFrom(m, who, amount).value) == Sum(m) - amount
  {
    hide Sum;
    if who !in m {
      assert amount == 0;
    }
    SumUpdate(m, who, Balance(m, who) - amount);
  }

  lemma CreditSum(m: map<Address, u64>, who: Address, amount: u64)
    requires CreditTo(m, who, amount).Ok?
    ensures Sum(CreditTo(m, who, amount).value) == Sum(m) + amount
  {
    hide Sum;
    SumUpdate(m, who, Balance(m, who) + amount);
  }

  lemma MoveSum(m: map<Address, u64>, sender: Address, receiver: Address, amount: u64)
    requires Move(m, sender, receiver, amount).Ok?
    ensures Sum(Move(m, sender, receiver, amount).value) == Sum(m)
  {
    hide Sum, DebitFrom, CreditTo;
    if amount != 0 {
      DebitSum(m, sender, amount);
      CreditSum(DebitFrom(m, sender, amount).value, receiver, amount);
    }
  }

  /** Lamports in all wallets and the fund's vault. */
  ghost function Lamports(s: Ledger): int {
    Sum(s.wallets) + s.vaultSol
  }

  /** A deposit creates and destroys no lamports: the investor pays the amount, the treasury
      receives the fee, the fee rate of it rounded down, and the vault the rest. */
  lemma DepositConserves(env: Env, s: Ledger, investor: Address, amount: u64, accounts: seq<Address>)
    returns (fee: nat)
    requires DepositStep(env, s, investor, amount, accounts).Ok?
    ensures var after := DepositStep(env, s, investor, amount, accounts).value;
            && 10_000 * fee <= amount * env.depositFeeBps < 10_000 * fee + 10_000
            && Lamports(after) == Lamports(s)
            && s.minDeposit <= amount && fee <= amount && after.vaultSol == s.vaultSol + amount - fee
            && (investor != env.treasury ==>
                  Balance(after.wallets, investor) == Balance(s.wallets, investor) - amount
                  && Balance(after.wallets, env.treasury) == Balance(s.wallets, env.treasury) + fee)
  {
    hide Sum, Nav, SharesFor, MintShares, BpsOf;
    var split := SplitDeposit(env, s, amount).value;
    fee := split.fee;
    BpsPart(amount, env.depositFeeBps);
    MoveSum(s.wallets, investor, env.treasury, split.fee);
    if split.net > 0 {
      DebitSum(Move(s.wallets, investor, env.treasury, split.fee).value, investor, split.net);
    }
  }

  /** A payout likewise: the vault pays the gross, split between the investor and the treasury, which
      receives the low 64 bits of the fee rate of the gross rounded down. */
  lemma WithdrawConserves(env: Env, s: Ledger, investor: Address, accounts: seq<Address>) returns (exactFee: nat)
    requires ExecuteWithdrawStep(env, s, investor, accounts).Ok?
    ensures var after := ExecuteWithdrawStep(env, s, investor, accounts).value;
            && Lamports(after) == Lamports(s)
            && after.vaultSol <= s.vaultSol && investor != env.treasury
            && Balance(after.wallets, investor) - Balance(s.wallets, investor)
               + Balance(after.wallets, env.treasury) - Balance(s.wallets, env.treasury)
               == s.vaultSol - after.vaultSol
            && Balance(after.wallets, env.treasury) - Balance(s.wallets, env.treasury)
               == Low64(exactFee) <= s.vaultSol - after.vaultSol
            && var gross := s.vaultSol - after.vaultSol;
            && 10_000 * exactFee <= gross * env.withdrawFeeBps < 10_000 * exactFee + 10_000
  {
    hide Sum, Nav, DueRequest, BurnShares, ProRata, BpsOf, AsU64, Low64;
    var shares := DueRequest(env, s, investor).value.shares;
    var payout := PayoutFor(env, s, shares, Nav(env, s, accounts).value).value;
    exactFee := BpsOf(payout.gross, env.withdrawFeeBps);
    BpsPart(payout.gross, env.withdrawFeeBps);
    LowBits(exactFee);
    CreditSum(s.wallets, investor, payout.net);
    if payout.fee != 0 {
      CreditSum(CreditTo(s.wallets, investor, payout.net).value, env.treasury, payout.fee);
    }
  }

  /** A borrow moves exactly the amount from the vault to the manager. */
  lemma BorrowConserves(s: Ledger, signer: Address, amount: u64, minOut: u64, mint: Address, later: seq<Meta>)
    requires BorrowStep(s, signer, amount, minOut, mint, later).Ok?
    ensures var after := BorrowStep(s, signer, amount, minOut, mint, later).value;
            && Lamports(after) == Lamports(s) && signer == s.manager
            && Balance(after.wallets, s.manager) == Balance(s.wallets, s.manager) + amount
            && after.vaultSol == s.vaultSol - amount
  {
    hide Sum, ScanForSettle;
    CreditSum(s.wallets, s.manager, amount);
  }

  /** A new fund holds the manager's deposit net of the fee, and one share for each lamport of
      it; the only lamports from elsewhere are the vault's rent.  The fee is the low 64 bits of the
      fee rate of the deposit rounded down. */
  lemma InitialConserves(env: Env, bounds: Bounds, charter: Charter, wallets: map<Address, u64>)
    returns (exactFee: nat)
    requires InitialLedger(env, bounds, charter, wallets).Ok?
    ensures var s := InitialLedger(env, bounds, charter, wallets).value;
            && Lamports(s) == Sum(wallets) + charter.vaultRent
            && 10_000 * exactFee <= charter.deposit * env.depositFeeBps < 10_000 * exactFee + 10_000
            && s.totalShares == charter.deposit - Low64(exactFee) && s.vaultSol == charter.vaultRent + s.totalShares
            && Balance(s.shares, charter.manager) == s.totalShares > 0
            && (charter.manager != env.treasury ==>
                  Balance(s.wallets, charter.manager) == Balance(wallets, charter.manager) - charter.deposit
                  && Balance(s.wallets, env.treasury)
                     == Balance(wallets, env.treasury) + charter.deposit - s.totalShares)
  {
    hide Sum, BpsOf, AsU64, Low64;
    exactFee := BpsOf(charter.deposit, env.depositFeeBps);
    BpsPart(charter.deposit, env.depositFeeBps);
    LowBits(exactFee);
    var fee := AsU64(exactFee);
    MoveSum(wallets, charter.manager, env.treasury, fee);
    DebitSum(Move(wallets, charter.manager, env.treasury, fee).value, charter.manager, charter.deposit - fee);
  }

  // ---- flows over a run ----------------------------------------------------------------------

  /** What the deposits of a run put into the vault: the amounts net of the entry fee. */
  ghost function Deposited(s: Ledger, run: seq<Event>): int
    requires Exec(s, run).Ok?
  {
    if run == [] then 0
    else
      var before := Exec(s, run[..|run| - 1]).value;
      Deposited(s, run[..|run| - 1])
      + if run[|run| - 1].ix.Deposit? then Exec(s, run).value.vaultSol - before.vaultSol else 0
  }

  /** What the payouts of a run took out of the vault: the amounts before the exit fee. */
  ghost function Withdrawn(s: Ledger, run: seq<Event>): int
    requires Exec(s, run).Ok?
  {
    if run == [] then 0
    else
      var before := Exec(s, run[..|run| - 1]).value;
      Withdrawn(s, run[..|run| - 1])
      + if run[|run| - 1].ix.ExecuteWithdraw? then before.vaultSol - Exec(s, run).value.vaultSol else 0
  }

  /** Only deposits and payouts move the vault in a run on shares. */
  lemma VaultStep(e: Event, s: Ledger)
    requires OnShares(e.ix) && Step(e.env, s, e.ix).Ok?
    ensures e.ix.Deposit? || e.ix.ExecuteWithdraw? || Step(e.env, s, e.ix).value.vaultSol == s.vaultSol
  {
    hide DepositStep, ExecuteWithdrawStep, AddTokenStep, RemoveTokenStep, CreateLimitStep, ExecuteLimitStep,
         CancelLimitStep, CreateDcaStep, ExecuteDcaStep, CancelDcaStep, BorrowStep, SettleStep, SetStrategyStep,
         RebalanceStep, CreditVaultStep, CreditTo, DebitFrom;
  }

  lemma {:induction false} FlowsAreVaultChange(s: Ledger, run: seq<Event>)
    requires Exec(s, run).Ok? && forall e <- run :: OnShares(e.ix)
    ensures Exec(s, run).value.vaultSol - s.vaultSol == Deposited(s, run) - Withdrawn(s, run)
  {
    hide Step;
    if run != [] {
      var before, last := ExecLast(s, run);
      FlowsAreVaultChange(s, run[..|run| - 1]);
      VaultStep(last, before);
    }
  }

  // ---- a coalition ---------------------------------------------------------------------------

  /** Every instruction of the run is by members of the group, and shares move within it. */
  ghost predicate By(group: set<Address>, run: seq<Event>) {
    forall e <- run :: OnShares(e.ix) &&
      if e.ix.TransferShares? then e.ix.sender in group && e.ix.receiver in group else e.ix.investor in group
  }

  ghost predicate OthersKept(group: set<Address>, before: map<Address, u64>, after: map<Address, u64>) {
    forall who :: who !in group ==> Balance(after, who) == Balance(before, who)
  }

  lemma DepositShares(env: Env, s: Ledger, investor: Address, amount: u64, accounts: seq<Address>, group: set<Address>)
    requires DepositStep(env, s, investor, amount, accounts).Ok? && investor in group
    ensures OthersKept(group, s.shares, DepositStep(env, s, investor, amount, accounts).value.shares)
  {
    hide Nav, SplitDeposit, SharesFor, PayDeposit, AddU64;
  }

  lemma WithdrawShares(env: Env, s: Ledger, investor: Address, accounts: seq<Address>, group: set<Address>)
    requires ExecuteWithdrawStep(env, s, investor, accounts).Ok? && investor in group
    ensures OthersKept(group, s.shares, ExecuteWithdrawStep(env, s, investor, accounts).value.shares)
  {
    hide Nav, DueRequest, PayoutFor, PayInvestor, SubU64;
  }

  lemma TransferredShares(s: Ledger, sender: Address, receiver: Address, amount: u64, group: set<Address>)
    requires TransferSharesStep(s, sender, receiver, amount).Ok? && sender in group && receiver in group
    ensures OthersKept(group, s.shares, TransferSharesStep(s, sender, receiver, amount).value.shares)
  {
  }

  lemma OthersKeptByStep(group: set<Address>, e: Event, s: Ledger)
    requires By(group, [e]) && Step(e.env, s, e.ix).Ok?
    ensures OthersKept(group, s.shares, Step(e.env, s, e.ix).value.shares)
  {
    hide AddTokenStep, RemoveTokenStep, CreateLimitStep, ExecuteLimitStep, CancelLimitStep, CreateDcaStep,
         ExecuteDcaStep, CancelDcaStep, BorrowStep, SettleStep, SetStrategyStep, RebalanceStep, CreditVaultStep,
         DepositStep, ExecuteWithdrawStep, TransferSharesStep;
    assert e in [e];
    match e.ix {
      case Deposit(investor, amount, accounts) => DepositShares(e.env, s, investor, amount, accounts, group);
      case ExecuteWithdraw(investor, accounts) => WithdrawShares(e.env, s, investor, accounts, group);
      case TransferShares(sender, receiver, amount) => TransferredShares(s, sender, receiver, amount, group);
      case _ =>
    }
  }

  lemma {:induction false} OthersKeptByRun(group: set<Address>, s: Ledger, run: seq<Event>)
    requires By(group, run) && Exec(s, run).Ok?
    ensures OthersKept(group, s.shares, Exec(s, run).value.shares)
  {
    hide Step;
    if run != [] {
      var before, last := ExecLast(s, run);
      OthersKeptByRun(group, s, run[..|run| - 1]);
      OthersKeptByStep(group, last, before);
    }
  }

  /** A group that began without shares can only have added to the supply. */
  lemma SupplyGrows(group: set<Address>, s: Ledger, after: Ledger)
    requires SharesSound(s) && SharesSound(after) && OthersKept(group, s.shares, after.shares)
    requires forall who <- group :: Balance(s.shares, who) == 0
    ensures after.totalShares >= s.totalShares
  {
    hide Sum;
    forall who <- s.shares
      ensures s.shares[who] == 0 || (who in after.shares && after.shares[who] == s.shares[who])
    {
      assert who !in group ==> Balance(after.shares, who) == Balance(s.shares, who);
      assert who in group ==> Balance(s.shares, who) == 0;
    }
    SumDominates(s.shares, after.shares);
  }

  lemma NoProfit(v: nat, shares: nat, v': nat, shares': nat)
    requires Mul(v', shares) >= Mul(v, shares') && shares' >= shares
    requires shares == 0 ==> v' == v
    ensures v' >= v
    ensures Mul(shares' - shares, v') <= (v' - v) * shares'
  {
    if shares > 0 {
      MulLe(shares, shares', v);
      assert v * shares <= v' * shares;
      CancelLe(v, v', shares);
    }
    assert (shares' - shares) * v' == shares' * v' - shares * v';
    assert (v' - v) * shares' == v' * shares' - v * shares';
  }

  /** A group never profits.  Investors who start without shares, while everyone else is idle
      and prices are fixed, never withdraw more than they deposited, in any sequence of
      deposits, payouts and transfers among themselves; nor do they when the pro-rata value of
      the shares they still hold, (S' - S) / S' of the equity, is added to what they withdrew. */
  lemma CoalitionNeverProfits(env: Env, s: Ledger, run: seq<Event>, group: set<Address>)
    requires Sound(s) && CountersExact(s)
    requires ShareRun(env, run) && By(group, run) && NavFits(env, s, run) && Exec(s, run).Ok?
    requires Loan(s) == 0 || NoDeposits(run)
    requires forall who <- group :: Balance(s.shares, who) == 0
    ensures Withdrawn(s, run) <= Deposited(s, run)
    ensures var end := Exec(s, run).value;
            && end.totalShares >= s.totalShares
            && Mul(end.totalShares - s.totalShares, Equity(env, end))
               <= (Deposited(s, run) - Withdrawn(s, run)) * end.totalShares
  {
    hide Step, Exec, ExactNav, CountersExact, Mul, SharesSound, TradingSound, LimitsSound, DcasSound, KindSound,
         StrategySound, RequestsSound, Deposited, Withdrawn;
    var end := Exec(s, run).value;
    SharePriceNeverFalls(env, s, run);
    FlowsAreVaultChange(s, run);
    OnlyVaultChanged(env, s, end);
    RunKeepsSound(s, run);
    OthersKeptByRun(group, s, run);
    SupplyGrows(group, s, end);
    NoProfit(Equity(env, s), s.totalShares, Equity(env, end), end.totalShares);
  }
}
