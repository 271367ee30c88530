/** What lies at the vault addresses of orders that have no record: before an order is created,
    where it can refuse the creation, and after its record is gone, where it stays. */
module UnusedVaults {
  import opened Ints
  import opened Ledgers
  import opened Steps
  import opened OrderTerms
  import opened Runs
  import opened Frames
  import opened Invariants
  import opened Lifecycles
  import opened Valuation
  import opened Escrows
  import opened LimitOrders
  import opened DcaOrders

  /** An address of one of the vaults of order `id`. */
  predicate AtOrder(a: Address, fund: Address, kind: OrderKind, id: nat) {
    a == SolVaultAt(fund, kind, id) || (a.Ata? && a.owner == AuthOf(OrderOf(kind, fund, id)))
  }

  /** The instructions that create order `id` or close its record. */
  predicate Records(s: Ledger, ix: Ix, kind: OrderKind, id: nat) {
    match kind
    case LimitKind => (ix.CreateLimit? && s.nextOrderId == id) || (ix.CancelLimit? && ix.id == id)
    case DcaKind => ix.CreateDca? && s.nextOrderId == id
  }

  predicate CreditsAt(ix: Ix, kind: OrderKind, id: nat) {
    ix.CreditVault? && (ix.vault.UnusedSolVault? || ix.vault.UnusedTokenVault?)
    && ix.vault.kind == kind && ix.vault.id == id
  }

  predicate CreatesOrder(ix: Ix) {
    ix.CreateLimit? || ix.CreateDca?
  }

  // ---- one step --------------------------------------------------------------------------------

  lemma OpenedLoose(env: Env, s: Ledger, ix: Ix)
    requires CreatesOrder(ix) && Step(env, s, ix).Ok?
    ensures var kind := if ix.CreateLimit? then LimitKind else DcaKind;
            Step(env, s, ix).value.loose == s.loose - {SolVaultAt(s.key, kind, s.nextOrderId)}
    ensures Step(env, s, ix).value.nextOrderId == s.nextOrderId + 1
  {
    hide FundOrder, LimitTerms, DcaTerms, InitialSol, WaitingSol, WaitingTokens, SolVaultAt, DepositStep,
         RequestWithdrawStep, CancelWithdrawStep, ExecuteWithdrawStep, AddTokenStep, RemoveTokenStep, ExecuteLimitStep,
         CancelLimitStep, ExecuteDcaStep, CancelDcaStep, BorrowStep, SettleStep, SetStrategyStep, RebalanceStep,
         TransferSharesStep, CreditVaultStep;
  }

  lemma ClosedLoose(env: Env, s: Ledger, ix: Ix, a: Address)
    requires ix.CancelLimit? && Step(env, s, ix).Ok?
    requires a != SolVaultAt(s.key, LimitKind, ix.id) && a != TokenVaultAt(s.key, LimitKind, ix.id, NATIVE_MINT)
    ensures Balance(Step(env, s, ix).value.loose, a) == Balance(s.loose, a)
  {
    hide MayCancel, Refund, SolVaultAt, TokenVaultAt;
  }

  lemma OtherOrderLoose(env: Env, s: Ledger, ix: Ix)
    requires (ix.ExecuteLimit? || ix.ExecuteDca? || ix.CancelDca?) && Step(env, s, ix).Ok?
    ensures Step(env, s, ix).value.loose == s.loose
  {
    hide FillLimit, FillSlice, CloseDca;
  }

  /** An instruction on an order moves only what lies at that order's addresses. */
  lemma OrderLoose(env: Env, s: Ledger, ix: Ix, a: Address, kind: OrderKind, id: nat)
    requires OnOrder(ix) && Step(env, s, ix).Ok? && AtOrder(a, s.key, kind, id) && !Records(s, ix, kind, id)
    ensures Balance(Step(env, s, ix).value.loose, a) == Balance(s.loose, a)
  {
    hide Step;
    if CreatesOrder(ix) {
      OpenedLoose(env, s, ix);
    } else if ix.CancelLimit? {
      ClosedLoose(env, s, ix, a);
    } else {
      OtherOrderLoose(env, s, ix);
    }
  }

  lemma CreditLoose(s: Ledger, vault: Vault, amount: u64, a: Address, kind: OrderKind, id: nat)
    requires CreditVaultStep(s, vault, amount).Ok? && AtOrder(a, s.key, kind, id)
    ensures Balance(CreditVaultStep(s, vault, amount).value.loose, a) >= Balance(s.loose, a)
    ensures HasRecord(s, kind, id) ==>
              Balance(CreditVaultStep(s, vault, amount).value.loose, a) == Balance(s.loose, a)
  {
  }

  lemma StepLoose(env: Env, s: Ledger, ix: Ix, a: Address, kind: OrderKind, id: nat)
    requires Step(env, s, ix).Ok? && AtOrder(a, s.key, kind, id) && !Records(s, ix, kind, id)
    ensures var after := Step(env, s, ix).value;
            && after.key == s.key && Balance(after.loose, a) >= Balance(s.loose, a)
            && (HasRecord(s, kind, id) || !ix.CreditVault? ==> Balance(after.loose, a) == Balance(s.loose, a))
  {
    hide Step, AtOrder, Records, HasRecord, Balance, Frame, CreditVaultStep;
    var after := Step(env, s, ix).value;
    StepFrame(env, s, ix);
    FrameKeeps(s, ix, after);
    if OnOrder(ix) {
      OrderLoose(env, s, ix, a, kind, id);
    } else if ix.CreditVault? {
      CreditIsStep(env, s, ix);
      CreditLoose(s, ix.vault, ix.amount, a, kind, id);
    } else {
      FrameLoose(s, ix, after);
    }
  }

  lemma CreditIsStep(env: Env, s: Ledger, ix: Ix)
    requires ix.CreditVault?
    ensures Step(env, s, ix) == CreditVaultStep(s, ix.vault, ix.amount)
  {
    hide CreditVaultStep;
  }

  lemma FrameLoose(s: Ledger, ix: Ix, after: Ledger)
    requires Frame(s, ix, after) && !OnOrder(ix) && !ix.CreditVault?
    ensures after.loose == s.loose
  {
  }

  lemma CreditRecord(s: Ledger, after: Ledger, vault: Vault, kind: OrderKind, id: nat)
    requires CreditFrame(s, after, vault)
    ensures HasRecord(after, kind, id) <==> HasRecord(s, kind, id)
  {
    hide CreditedLimit, CreditedDca;
    match vault {
      case LimitSolVault(other) => CreditedLimitRecord(s, after, other, kind, id);
      case LimitTokenVault(other) => CreditedLimitRecord(s, after, other, kind, id);
      case DcaSolVault(other) => CreditedDcaRecord(s, after, other, kind, id);
      case DcaTokenVault(other) => CreditedDcaRecord(s, after, other, kind, id);
      case _ =>
    }
  }

  lemma CreditedLimitRecord(s: Ledger, after: Ledger, other: nat, kind: OrderKind, id: nat)
    requires CreditedLimit(s, after, other)
    ensures HasRecord(after, kind, id) <==> HasRecord(s, kind, id)
  {
    hide Richer;
  }

  lemma CreditedDcaRecord(s: Ledger, after: Ledger, other: nat, kind: OrderKind, id: nat)
    requires CreditedDca(s, after, other)
    ensures HasRecord(after, kind, id) <==> HasRecord(s, kind, id)
  {
    hide Richer;
  }

  lemma FrameRecord(s: Ledger, ix: Ix, after: Ledger, kind: OrderKind, id: nat)
    requires Frame(s, ix, after) && !OnOrder(ix)
    ensures HasRecord(after, kind, id) <==> HasRecord(s, kind, id)
  {
    hide SharesFrame, WhitelistFrame, LimitFrame, DcaFrame, CreditFrame;
    if ix.CreditVault? {
      CreditRecord(s, after, ix.vault, kind, id);
    } else {
      SameOrders(s, ix, after);
    }
  }

  lemma OrderRecord(env: Env, s: Ledger, ix: Ix, kind: OrderKind, id: nat)
    requires OnOrder(ix) && Step(env, s, ix).Ok? && !Records(s, ix, kind, id)
    ensures HasRecord(Step(env, s, ix).value, kind, id) <==> HasRecord(s, kind, id)
  {
    hide OpenLimit, OpenDca, FillLimit, FillSlice, MayCancel, Refund, DepositStep, RequestWithdrawStep,
         CancelWithdrawStep, ExecuteWithdrawStep, AddTokenStep, RemoveTokenStep, BorrowStep, SettleStep,
         SetStrategyStep, RebalanceStep, TransferSharesStep, CreditVaultStep, SubU16, AddU64, LeftBehind;
  }

  /** A record appears and disappears only with the instructions that say so. */
  lemma StepRecord(env: Env, s: Ledger, ix: Ix, kind: OrderKind, id: nat)
    requires Step(env, s, ix).Ok? && !Records(s, ix, kind, id)
    ensures HasRecord(Step(env, s, ix).value, kind, id) <==> HasRecord(s, kind, id)
  {
    hide Step, Frame, HasRecord, Records;
    if OnOrder(ix) {
      OrderRecord(env, s, ix, kind, id);
    } else {
      StepFrame(env, s, ix);
      FrameRecord(s, ix, Step(env, s, ix).value, kind, id);
    }
  }

  // ---- orders with a record ----------------------------------------------------------------------

  /** Whatever is in the vaults of an order with a record is in its escrow. */
  ghost predicate AllInEscrow(s: Ledger, kind: OrderKind, id: nat) {
    id in BookOf(s, kind) ==>
      && Balance(s.loose, SolVaultAt(s.key, kind, id)) == 0
      && var e := BookOf(s, kind)[id];
      Balance(s.loose, TokenVaultAt(s.key, kind, id, VaultMint(e.side, e.mint))) == 0
  }

  lemma CreatedInEscrow(env: Env, s: Ledger, ix: Ix)
    requires CreatesOrder(ix) && Step(env, s, ix).Ok?
    ensures AllInEscrow(Step(env, s, ix).value, if ix.CreateLimit? then LimitKind else DcaKind, s.nextOrderId)
  {
    hide CreateLimitStep, CreateDcaStep, InitialSol;
    OpenedLoose(env, s, ix);
    SameKey(env, s, ix);
    match ix {
      case CreateLimit(signer, side, mint, amount, minOut, limitPrice, priceExpo, expiry) =>
        CreateLimitOpens(env, s, signer, side, mint, amount, minOut, limitPrice, priceExpo, expiry);
      case CreateDca(signer, side, mint, amount, slice, interval, minOut, expiry, other) =>
        CreateDcaOpens(env, s, signer, side, mint, amount, slice, interval, minOut, expiry, other);
    }
  }

  lemma SameKey(env: Env, s: Ledger, ix: Ix)
    requires Step(env, s, ix).Ok?
    ensures Step(env, s, ix).value.key == s.key
  {
    hide Step, Frame;
    StepFrame(env, s, ix);
    FrameKeeps(s, ix, Step(env, s, ix).value);
  }

  lemma SameSideAndMint(env: Env, s: Ledger, ix: Ix, kind: OrderKind, id: nat)
    requires Sound(s) && Step(env, s, ix).Ok? && id in BookOf(s, kind) && id in BookOf(Step(env, s, ix).value, kind)
    ensures var e, after := BookOf(s, kind)[id], BookOf(Step(env, s, ix).value, kind)[id];
            after.side == e.side && after.mint == e.mint
  {
    hide Step, SharesSound, TradingSound, KindSound, StrategySound, RequestsSound, LimitSound, DcaSound, OpenIds;
    if kind.LimitKind? {
      LimitStepOf(env, s, ix, id);
    } else {
      DcaStepOf(env, s, ix, id);
    }
  }

  lemma StepAllInEscrow(env: Env, s: Ledger, ix: Ix, kind: OrderKind, id: nat)
    requires Sound(s) && Step(env, s, ix).Ok? && AllInEscrow(s, kind, id)
    ensures AllInEscrow(Step(env, s, ix).value, kind, id)
  {
    hide Step, Sound, Balance, SolVaultAt;
    var after := Step(env, s, ix).value;
    if Records(s, ix, kind, id) {
      if CreatesOrder(ix) {
        CreatedInEscrow(env, s, ix);
      } else {
        CancelledLimitIsGone(env, s, ix);
      }
    } else if id in BookOf(after, kind) {
      StepRecord(env, s, ix, kind, id);
      SameSideAndMint(env, s, ix, kind, id);
      var e := BookOf(s, kind)[id];
      AtItsOrder(s.key, kind, id, VaultMint(e.side, e.mint));
      StepLoose(env, s, ix, SolVaultAt(s.key, kind, id), kind, id);
      StepLoose(env, s, ix, TokenVaultAt(s.key, kind, id, VaultMint(e.side, e.mint)), kind, id);
    }
  }

  lemma {:induction false} RunAllInEscrow(s: Ledger, run: seq<Event>, kind: OrderKind, id: nat)
    requires Sound(s) && Exec(s, run).Ok? && AllInEscrow(s, kind, id)
    ensures AllInEscrow(Exec(s, run).value, kind, id) && Sound(Exec(s, run).value)
  {
    hide Step, Sound, AllInEscrow;
    if run != [] {
      var before, last := ExecLast(s, run);
      RunAllInEscrow(s, run[..|run| - 1], kind, id);
      StepAllInEscrow(last.env, before, last.ix, kind, id);
      StepKeepsSound(last.env, before, last.ix);
    }
  }

  /** In every reachable ledger an order with a record has everything in its escrow, so a closed
      record leaves behind all that its vaults still hold. */
  lemma ReachableAllInEscrow(s: Ledger, kind: OrderKind, id: nat)
    requires Reachable(s)
    ensures AllInEscrow(s, kind, id)
  {
    hide Exec, Sound, InitialLedger;
    var env: Env, bounds: Bounds, charter: Charter, wallets: map<Address, u64>, run: seq<Event>
      :| Starts(env, bounds, charter, wallets, run, s);
    InitialSound(env, bounds, charter, wallets);
    NoOrdersYet(env, bounds, charter, wallets);
    RunAllInEscrow(InitialLedger(env, bounds, charter, wallets).value, run, kind, id);
  }

  lemma NoOrdersYet(env: Env, bounds: Bounds, charter: Charter, wallets: map<Address, u64>)
    requires InitialLedger(env, bounds, charter, wallets).Ok?
    ensures InitialLedger(env, bounds, charter, wallets).value.limits == map[]
    ensures InitialLedger(env, bounds, charter, wallets).value.dcas == map[]
  {
    hide Move, DebitFrom, BpsOf, AsU64;
  }

  // ---- what stays --------------------------------------------------------------------------------

  /** What lies at a vault address of an issued id without a record stays there over any run: no
      instruction moves it, and the id is never given again. */
  lemma {:induction false} LooseStays(s: Ledger, run: seq<Event>, a: Address, kind: OrderKind, id: nat)
    requires Exec(s, run).Ok? && AtOrder(a, s.key, kind, id) && id < s.nextOrderId && !HasRecord(s, kind, id)
    ensures var end := Exec(s, run).value;
            && end.key == s.key && s.nextOrderId <= end.nextOrderId && !HasRecord(end, kind, id)
            && Balance(end.loose, a) >= Balance(s.loose, a)
  {
    hide Step, AtOrder, HasRecord, Balance;
    if run != [] {
      var before, last := ExecLast(s, run);
      LooseStays(s, run[..|run| - 1], a, kind, id);
      NoRecordNoCancel(last.env, before, last.ix, kind, id);
      StepLoose(last.env, before, last.ix, a, kind, id);
      StepRecord(last.env, before, last.ix, kind, id);
      IdsGrow(last.env, before, last.ix);
    }
  }

  lemma NoRecordNoCancel(env: Env, s: Ledger, ix: Ix, kind: OrderKind, id: nat)
    requires Step(env, s, ix).Ok? && !HasRecord(s, kind, id)
    ensures !(kind.LimitKind? && ix.CancelLimit? && ix.id == id)
  {
    hide DepositStep, RequestWithdrawStep, CancelWithdrawStep, ExecuteWithdrawStep, AddTokenStep, RemoveTokenStep,
         CreateLimitStep, ExecuteLimitStep, CreateDcaStep, ExecuteDcaStep, CancelDcaStep, BorrowStep, SettleStep,
         SetStrategyStep, RebalanceStep, TransferSharesStep, CreditVaultStep, Refund;
  }

  // ---- what refuses a creation -------------------------------------------------------------------

  /** A creation of this kind whose token vault is of this mint: every BUY has a wrapped-SOL vault,
      whatever it buys. */
  predicate CreatesAt(ix: Ix, kind: OrderKind, mint: Address) {
    && (if kind.LimitKind? then ix.CreateLimit? else ix.CreateDca?)
    && SideOf(ix.side).Ok? && VaultMint(SideOf(ix.side).value, ix.mint) == mint
  }

  /** Some of the mint lies at the token vault address of the next order of this kind. */
  ghost predicate Blocked(s: Ledger, kind: OrderKind, mint: Address) {
    Balance(s.loose, TokenVaultAt(s.key, kind, s.nextOrderId, mint)) > 0
  }

  lemma BlockedRefuses(env: Env, s: Ledger, ix: Ix, kind: OrderKind, mint: Address)
    requires Blocked(s, kind, mint) && CreatesAt(ix, kind, mint)
    ensures Step(env, s, ix).Err?
  {
    hide CreateLimitStep, CreateDcaStep, LimitTermsRight, DcaTermsRight;
    match ix {
      case CreateLimit(signer, side, m, amount, minOut, limitPrice, priceExpo, expiry) =>
        CreateLimitIff(env, s, signer, side, m, amount, minOut, limitPrice, priceExpo, expiry);
      case CreateDca(signer, side, m, amount, slice, interval, minOut, expiry, other) =>
        CreateDcaIff(env, s, signer, side, m, amount, slice, interval, minOut, expiry, other);
    }
  }

  /** One unit of the mint at the token vault address of the next order refuses every creation that
      would use that vault, on every attempt, after any run in which no order of either kind was
      created: a failed creation does not move the id on. */
  lemma {:induction false} BlockedUntilAnother(s: Ledger, run: seq<Event>, e: Event, kind: OrderKind, mint: Address)
    requires Sound(s) && Blocked(s, kind, mint) && Exec(s, run).Ok? && forall x <- run :: !CreatesOrder(x.ix)
    requires CreatesAt(e.ix, kind, mint)
    ensures Step(e.env, Exec(s, run).value, e.ix).Err?
  {
    hide Exec, Step, Blocked, Sound;
    StaysBlocked(s, run, kind, mint);
    BlockedRefuses(e.env, Exec(s, run).value, e.ix, kind, mint);
  }

  lemma {:induction false} StaysBlocked(s: Ledger, run: seq<Event>, kind: OrderKind, mint: Address)
    requires Sound(s) && Blocked(s, kind, mint) && Exec(s, run).Ok? && forall x <- run :: !CreatesOrder(x.ix)
    ensures var end := Exec(s, run).value;
            Blocked(end, kind, mint) && Sound(end) && end.nextOrderId == s.nextOrderId && end.key == s.key
  {
    hide Step, Sound, TokenVaultAt, Balance;
    if run != [] {
      var before, last := ExecLast(s, run);
      StaysBlocked(s, run[..|run| - 1], kind, mint);
      StepKeepsSound(last.env, before, last.ix);
      NextHasNoRecord(before, kind);
      NoRecordNoCancel(last.env, before, last.ix, kind, before.nextOrderId);
      AtItsOrder(before.key, kind, before.nextOrderId, mint);
      StepLoose(last.env, before, last.ix, TokenVaultAt(before.key, kind, before.nextOrderId, mint), kind,
                before.nextOrderId);
      StepKeepsId(last.env, before, last.ix);
    }
  }

  lemma AtItsOrder(fund: Address, kind: OrderKind, id: nat, mint: Address)
    ensures AtOrder(TokenVaultAt(fund, kind, id, mint), fund, kind, id)
  {
  }

  lemma NextHasNoRecord(s: Ledger, kind: OrderKind)
    requires Sound(s)
    ensures !HasRecord(s, kind, s.nextOrderId)
  {
    hide SharesSound, TradingSound, KindSound, StrategySound, RequestsSound, LimitSound, DcaSound, OpenIds;
  }

  lemma StepKeepsId(env: Env, s: Ledger, ix: Ix)
    requires Step(env, s, ix).Ok? && !CreatesOrder(ix)
    ensures Step(env, s, ix).value.nextOrderId == s.nextOrderId
  {
    hide Step, Frame;
    StepFrame(env, s, ix);
    FrameKeeps(s, ix, Step(env, s, ix).value);
  }

  /** Anyone can do it: a credit of one unit succeeds unless the vault is full. */
  lemma OneUnitBlocks(s: Ledger, kind: OrderKind, mint: Address)
    requires Sound(s) && Balance(s.loose, TokenVaultAt(s.key, kind, s.nextOrderId, mint)) < U64_MAX
    ensures var after := CreditVaultStep(s, UnusedTokenVault(kind, s.nextOrderId, mint), 1);
            after.Ok? && Blocked(after.value, kind, mint)
  {
    hide Sound, TokenVaultAt;
    NextHasNoRecord(s, kind);
  }

  /** A creation of another kind, side or mint that succeeds moves the id on and frees the blocked
      one: the next order has another address, where only what already lay there lies. */
  lemma AnotherFrees(env: Env, s: Ledger, ix: Ix, kind: OrderKind, mint: Address)
    requires CreatesOrder(ix) && Step(env, s, ix).Ok?
    ensures var after := Step(env, s, ix).value;
            && after.nextOrderId == s.nextOrderId + 1 && after.key == s.key
            && (Blocked(after, kind, mint)
                <==> Balance(s.loose, TokenVaultAt(s.key, kind, s.nextOrderId + 1, mint)) > 0)
  {
    hide Step, Frame;
    OpenedLoose(env, s, ix);
    StepFrame(env, s, ix);
    FrameKeeps(s, ix, Step(env, s, ix).value);
  }
}
