/** The NAV sees through escrow: moving assets into an order's vaults and back changes it only
    by rents and by rounding. */
module Escrows {
  import opened Results
  import opened Ints
  import opened Ledgers
  import opened ExactNavs
  import opened Steps
  import opened Valuation

  // ---- opening and cancelling ----------------------------------------------------------------

  lemma FundingBalances(s: Ledger, side: Side, mint: Address, amount: u64, token: u64, sol: u64, other: bool)
    requires FundOrder(s, side, mint, amount, token, sol, other).Ok?
    ensures token == 0
    ensures var funded := FundOrder(s, side, mint, amount, token, sol, other).value;
            match side
            case Buy =>
              funded.escrow == Escrow(Buy, mint, Open, sol + amount, 0)
              && funded.vaultSol == s.vaultSol - amount && funded.tokens == s.tokens
            case Sell =>
              funded.escrow == Escrow(Sell, mint, Open, sol, amount) && funded.vaultSol == s.vaultSol
              && if other then funded.tokens == s.tokens
                 else amount <= Balance(s.tokens, mint)
                      && funded.tokens == s.tokens[mint := Balance(s.tokens, mint) - amount]
  {
  }

  /** `after` is `s` with a new order, just funded. */
  ghost predicate OpensOrder(s: Ledger, after: Ledger, kind: OrderKind, id: nat, side: Side, mint: Address,
                             amount: u64, sol: u64, other: bool) {
    && LocalChange(s, after, mint, kind, id)
    && id !in BookOf(s, kind) && id in BookOf(after, kind)
    && match side
       case Buy =>
         sol + amount <= U64_MAX && BookOf(after, kind)[id] == Escrow(Buy, mint, Open, sol + amount, 0)
         && after.vaultSol == s.vaultSol - amount && after.tokens == s.tokens
       case Sell =>
         BookOf(after, kind)[id] == Escrow(Sell, mint, Open, sol, amount) && after.vaultSol == s.vaultSol
         && if other then after.tokens == s.tokens
            else amount <= Balance(s.tokens, mint)
                 && after.tokens == s.tokens[mint := Balance(s.tokens, mint) - amount]
  }

  /** Opening a BUY order adds exactly the lamports it did not take from the fund; opening a SELL
      order never raises the NAV and lowers it by at most one lamport, unless its tokens come from
      outside the ledger and are counted from then on. */
  lemma OpeningOrderNav(env: Env, s: Ledger, after: Ledger, kind: OrderKind, id: nat, side: Side, mint: Address,
                        amount: u64, sol: u64, other: bool)
    requires OpensOrder(s, after, kind, id, side, mint, amount, sol, other)
    ensures match side
            case Buy => ExactNav(env, after) == ExactNav(env, s) + sol
            case Sell =>
              if other then ExactNav(env, after) == ExactNav(env, s) + ExactWorth(env, s.listings, mint, amount)
              else ExactNav(env, s) - 1 <= ExactNav(env, after) <= ExactNav(env, s)
  {
    hide ExactNav, ExactWorth, LimitBook, DcaBook;
    NavChange(env, s, after, mint, kind, id);
    if side.Sell? && !other {
      WorthSplits(env, s.listings, mint, Balance(s.tokens, mint) - amount, amount);
    }
  }

  /** The lamports a new order's SOL vault starts with. */
  function FirstSol(env: Env, s: Ledger, kind: OrderKind, side: u8): u64 {
    var waiting := WaitingSol(s, kind);
    if kind.LimitKind? && side != 0 then waiting else InitialSol(env, waiting)
  }

  lemma CreateLimitOpens(env: Env, s: Ledger, signer: Address, side: u8, mint: Address, amount: u64, minOut: u64,
                         limitPrice: i64, priceExpo: i32, expiry: i64)
    requires CreateLimitStep(env, s, signer, side, mint, amount, minOut, limitPrice, priceExpo, expiry).Ok?
    ensures SideOf(side).Ok? && WaitingTokens(s, LimitKind, SideOf(side).value, mint) == 0
    ensures var after := CreateLimitStep(env, s, signer, side, mint, amount, minOut, limitPrice, priceExpo,
                                         expiry).value;
            OpensOrder(s, after, LimitKind, s.nextOrderId, SideOf(side).value, mint, amount,
                       FirstSol(env, s, LimitKind, side), false)
  {
    hide FundOrder, InitialSol, WaitingSol, WaitingTokens, SolVaultAt;
    var after := CreateLimitStep(env, s, signer, side, mint, amount, minOut, limitPrice, priceExpo, expiry).value;
    FundingBalances(s, SideOf(side).value, mint, amount, WaitingTokens(s, LimitKind, SideOf(side).value, mint),
                    FirstSol(env, s, LimitKind, side), false);
    assert after.limits - {s.nextOrderId} == s.limits - {s.nextOrderId};
  }

  lemma CreateDcaOpens(env: Env, s: Ledger, signer: Address, side: u8, mint: Address, amount: u64, slice: u64,
                       interval: i64, minOut: u64, expiry: i64, other: bool)
    requires CreateDcaStep(env, s, signer, side, mint, amount, slice, interval, minOut, expiry, other).Ok?
    ensures SideOf(side).Ok? && WaitingTokens(s, DcaKind, SideOf(side).value, mint) == 0
    ensures var after := CreateDcaStep(env, s, signer, side, mint, amount, slice, interval, minOut, expiry,
                                       other).value;
            OpensOrder(s, after, DcaKind, s.nextOrderId, SideOf(side).value, mint, amount,
                       FirstSol(env, s, DcaKind, side), other)
  {
    hide FundOrder, InitialSol, WaitingSol, WaitingTokens, SolVaultAt;
    var after := CreateDcaStep(env, s, signer, side, mint, amount, slice, interval, minOut, expiry, other).value;
    FundingBalances(s, SideOf(side).value, mint, amount, WaitingTokens(s, DcaKind, SideOf(side).value, mint),
                    FirstSol(env, s, DcaKind, side), other);
    assert after.dcas - {s.nextOrderId} == s.dcas - {s.nextOrderId};
  }

  /** `at` may be any environment: the statement holds at every price. */
  lemma CreateLimitNav(at: Env, env: Env, s: Ledger, signer: Address, side: u8, mint: Address, amount: u64, minOut: u64,
                       limitPrice: i64, priceExpo: i32, expiry: i64)
    requires CreateLimitStep(env, s, signer, side, mint, amount, minOut, limitPrice, priceExpo, expiry).Ok?
    ensures var after := CreateLimitStep(env, s, signer, side, mint, amount, minOut, limitPrice, priceExpo,
                                         expiry).value;
            if side == 0 then ExactNav(at, after) == ExactNav(at, s) + InitialSol(env, WaitingSol(s, LimitKind))
            else ExactNav(at, s) - 1 <= ExactNav(at, after) <= ExactNav(at, s)
  {
    hide CreateLimitStep, ExactNav, OpensOrder, InitialSol, WaitingSol, WaitingTokens;
    CreateLimitOpens(env, s, signer, side, mint, amount, minOut, limitPrice, priceExpo, expiry);
    OpeningOrderNav(at, s, CreateLimitStep(env, s, signer, side, mint, amount, minOut, limitPrice, priceExpo,
                                           expiry).value,
                    LimitKind, s.nextOrderId, SideOf(side).value, mint, amount, FirstSol(env, s, LimitKind, side),
                    false);
  }

  lemma CreateDcaNav(at: Env, env: Env, s: Ledger, signer: Address, side: u8, mint: Address, amount: u64, slice: u64,
                     interval: i64, minOut: u64, expiry: i64, other: bool)
    requires CreateDcaStep(env, s, signer, side, mint, amount, slice, interval, minOut, expiry, other).Ok?
    ensures var after := CreateDcaStep(env, s, signer, side, mint, amount, slice, interval, minOut, expiry,
                                       other).value;
            if side == 0 then ExactNav(at, after) == ExactNav(at, s) + InitialSol(env, WaitingSol(s, DcaKind))
            else if other then ExactNav(at, after) == ExactNav(at, s) + ExactWorth(at, s.listings, mint, amount)
            else ExactNav(at, s) - 1 <= ExactNav(at, after) <= ExactNav(at, s)
  {
    hide CreateDcaStep, ExactNav, OpensOrder, InitialSol, WaitingSol, WaitingTokens, ExactWorth;
    CreateDcaOpens(env, s, signer, side, mint, amount, slice, interval, minOut, expiry, other);
    OpeningOrderNav(at, s, CreateDcaStep(env, s, signer, side, mint, amount, slice, interval, minOut, expiry,
                                         other).value,
                    DcaKind, s.nextOrderId, SideOf(side).value, mint, amount, FirstSol(env, s, DcaKind, side), other);
  }

  lemma RefundBalances(env: Env, s: Ledger, e: Escrow, other: bool)
    requires Refund(env, s, e, other).Ok?
    ensures var refund := Refund(env, s, e, other).value;
            match e.side
            case Buy => (other || e.token == 0) && refund.vaultSol == s.vaultSol + e.sol + env.tokenRent
                && refund.tokens == s.tokens && refund.escrow == e.(status := Cancelled, sol := 0)
            case Sell =>
              refund.vaultSol == s.vaultSol + env.tokenRent && refund.escrow == e.(status := Cancelled, token := 0)
              && if other then refund.tokens == s.tokens
                 else Balance(s.tokens, e.mint) + e.token <= U64_MAX
                      && refund.tokens == s.tokens[e.mint := Balance(s.tokens, e.mint) + e.token]
  {
  }

  /** `after` is `s` with order `id` closed, its escrow back in the fund's vaults and `rents`
      lamports on top; with `other` a SELL order's tokens are gone. */
  ghost predicate ClosesOrder(s: Ledger, after: Ledger, kind: OrderKind, id: nat, rents: nat, other: bool) {
    && id in OpenIds(BookOf(s, kind)) && id !in OpenIds(BookOf(after, kind))
    && var e := BookOf(s, kind)[id];
    && LocalChange(s, after, e.mint, kind, id)
    && match e.side
       case Buy => after.vaultSol == s.vaultSol + e.sol + rents && after.tokens == s.tokens
       case Sell =>
         after.vaultSol == s.vaultSol + rents
         && if other then after.tokens == s.tokens
            else Balance(s.tokens, e.mint) + e.token <= U64_MAX
                 && after.tokens == s.tokens[e.mint := Balance(s.tokens, e.mint) + e.token]
  }

  /** Closing a BUY order adds exactly the rents; closing a SELL order the rents and at most one
      lamport, unless its tokens leave the ledger with what they are worth. */
  lemma ClosingOrderNav(env: Env, s: Ledger, after: Ledger, kind: OrderKind, id: nat, rents: nat, other: bool)
    requires ClosesOrder(s, after, kind, id, rents, other)
    ensures match BookOf(s, kind)[id].side
            case Buy => ExactNav(env, after) == ExactNav(env, s) + rents
            case Sell =>
              if other
              then ExactNav(env, after) + ExactEscrowWorth(env, s.listings, BookOf(s, kind)[id])
                   == ExactNav(env, s) + rents
              else ExactNav(env, s) + rents <= ExactNav(env, after) <= ExactNav(env, s) + rents + 1
  {
    hide ExactNav, ExactWorth, LimitBook, DcaBook;
    var e := BookOf(s, kind)[id];
    NavChange(env, s, after, e.mint, kind, id);
    if e.side.Sell? && !other {
      WorthSplits(env, s.listings, e.mint, Balance(s.tokens, e.mint), e.token);
    }
  }

  lemma CancelLimitCloses(env: Env, s: Ledger, signer: Address, id: nat, other: bool)
    requires CancelLimitStep(env, s, signer, id, other).Ok?
    ensures ClosesOrder(s, CancelLimitStep(env, s, signer, id, other).value, LimitKind, id,
                        env.tokenRent + env.orderRent, other)
  {
    hide Refund, LeftBehind;
    RefundBalances(env, s, s.limits[id].escrow, other);
  }

  lemma CancelDcaCloses(env: Env, s: Ledger, signer: Address, id: nat, other: bool)
    requires CancelDcaStep(env, s, signer, id, other).Ok?
    ensures ClosesOrder(s, CancelDcaStep(env, s, signer, id, other).value, DcaKind, id, env.tokenRent, other)
  {
    hide Refund;
    RefundBalances(env, s, s.dcas[id].escrow, other);
    var after := CancelDcaStep(env, s, signer, id, other).value;
    assert after.dcas - {id} == s.dcas - {id};
  }

  /** The refund, and what else reaches the vaults with it, fits them, and the account a BUY order
      closes is empty: its token vault, or another one. */
  ghost predicate RefundFits(s: Ledger, e: Escrow, rents: nat, other: bool) {
    match e.side
    case Buy => (other || e.token == 0) && s.vaultSol + e.sol + rents <= U64_MAX
    case Sell => (other || Balance(s.tokens, e.mint) + e.token <= U64_MAX) && s.vaultSol + rents <= U64_MAX
  }

  lemma RefundIff(env: Env, s: Ledger, e: Escrow, other: bool)
    ensures Refund(env, s, e, other).Ok? <==> RefundFits(s, e, env.tokenRent, other)
  {
  }

  /** A cancel is accepted exactly from the manager of a trading fund, for an open order whose
      refund fits; wrapped SOL in a BUY order's token vault refuses it unless another, empty
      account is passed.  An accepted cancel adds exactly the rents, and for a SELL order at most
      one lamport more; but a SELL order's tokens can be sent where no NAV counts them. */
  lemma CancelLimitNav(at: Env, env: Env, s: Ledger, signer: Address, id: nat, other: bool)
    ensures CancelLimitStep(env, s, signer, id, other).Ok?
       <==> && id in s.limits && s.limits[id].escrow.status.Open?
            && signer == s.manager && s.fundType.TradingFund? && s.limitCount > 0
            && RefundFits(s, s.limits[id].escrow, env.tokenRent + env.orderRent, other)
    ensures CancelLimitStep(env, s, signer, id, other).Ok? ==>
              var after := CancelLimitStep(env, s, signer, id, other).value;
              var e, rents := s.limits[id].escrow, env.tokenRent + env.orderRent;
              if e.side.Buy? then ExactNav(at, after) == ExactNav(at, s) + rents
              else if other
              then ExactNav(at, after) + ExactEscrowWorth(at, s.listings, e) == ExactNav(at, s) + rents
              else ExactNav(at, s) + rents <= ExactNav(at, after) <= ExactNav(at, s) + rents + 1
  {
    hide ExactNav, Refund, ClosesOrder, LeftBehind, ExactEscrowWorth;
    if id in s.limits {
      RefundIff(env, s, s.limits[id].escrow, other);
      if Refund(env, s, s.limits[id].escrow, other).Ok? {
        RefundBalances(env, s, s.limits[id].escrow, other);
      }
    }
    if CancelLimitStep(env, s, signer, id, other).Ok? {
      CancelLimitCloses(env, s, signer, id, other);
      ClosingOrderNav(at, s, CancelLimitStep(env, s, signer, id, other).value, LimitKind, id,
                      env.tokenRent + env.orderRent, other);
    }
  }

  /** For DCA orders the token account of a BUY is pinned, so wrapped SOL in it always refuses. */
  lemma CancelDcaNav(at: Env, env: Env, s: Ledger, signer: Address, id: nat, other: bool)
    ensures CancelDcaStep(env, s, signer, id, other).Ok?
       <==> && id in s.dcas && s.dcas[id].escrow.status.Open?
            && signer == s.manager && s.fundType.TradingFund? && s.dcaCount > 0
            && (other ==> s.dcas[id].escrow.side.Sell?)
            && RefundFits(s, s.dcas[id].escrow, env.tokenRent, other)
    ensures CancelDcaStep(env, s, signer, id, other).Ok? ==>
              var after := CancelDcaStep(env, s, signer, id, other).value;
              var e, rents := s.dcas[id].escrow, env.tokenRent;
              if e.side.Buy? then ExactNav(at, after) == ExactNav(at, s) + rents
              else if other
              then ExactNav(at, after) + ExactEscrowWorth(at, s.listings, e) == ExactNav(at, s) + rents
              else ExactNav(at, s) + rents <= ExactNav(at, after) <= ExactNav(at, s) + rents + 1
  {
    hide ExactNav, Refund, ClosesOrder, ExactEscrowWorth;
    if id in s.dcas {
      RefundIff(env, s, s.dcas[id].escrow, other);
    }
    if CancelDcaStep(env, s, signer, id, other).Ok? {
      CancelDcaCloses(env, s, signer, id, other);
      ClosingOrderNav(at, s, CancelDcaStep(env, s, signer, id, other).value, DcaKind, id, env.tokenRent, other);
    }
  }

  /** What lies at addresses without a record, but for what had waited at the SOL vault of a BUY. */
  ghost predicate LooseRestored(s: Ledger, after: Ledger, buy: bool) {
    forall a :: Balance(after.loose, a)
                == if buy && a == SolVaultAt(s.key, LimitKind, s.nextOrderId) then 0 else Balance(s.loose, a)
  }

  /** The outcome of cancelling right after creating: refused only if what it brings back overflows
      the vault; otherwise the fund is as before, but for the id, the rents and those lamports. */
  ghost predicate Undone(env: Env, s: Ledger, cancelled: Result<Ledger>, buy: bool, sol: nat) {
    var vault := s.vaultSol + env.tokenRent + env.orderRent + if buy then sol else 0;
    if vault > U64_MAX then cancelled.Err?
    else
      && cancelled.Ok? && LooseRestored(s, cancelled.value, buy) && s.nextOrderId < U64_MAX
      && cancelled.value == s.(nextOrderId := s.nextOrderId + 1, vaultSol := vault, loose := cancelled.value.loose)
  }

  /** Cancelling an order right after it was created is refused only if the lamports it brings
      back overflow the vault; otherwise it restores the fund exactly, but for the id it used up,
      the rents, and the lamports that had waited at a BUY order's SOL vault. */
  lemma CancelUndoesCreateLimit(env: Env, s: Ledger, signer: Address, side: u8, mint: Address, amount: u64, minOut: u64,
                                limitPrice: i64, priceExpo: i32, expiry: i64)
    requires CreateLimitStep(env, s, signer, side, mint, amount, minOut, limitPrice, priceExpo, expiry).Ok?
    ensures var created := CreateLimitStep(env, s, signer, side, mint, amount, minOut, limitPrice, priceExpo,
                                           expiry).value;
            Undone(env, s, CancelLimitStep(env, created, signer, s.nextOrderId, false), side == 0,
                   InitialSol(env, WaitingSol(s, LimitKind)))
  {
    hide CreateLimitStep, CancelLimitStep, InitialSol, Created, WaitingSol, WaitingTokens, Undone;
    JustCreated(env, s, signer, side, mint, amount, minOut, limitPrice, priceExpo, expiry);
    var created := CreateLimitStep(env, s, signer, side, mint, amount, minOut, limitPrice, priceExpo, expiry).value;
    var sol := FirstSol(env, s, LimitKind, side);
    CancelUndoes(env, s, created, signer, SideOf(side).value, mint, amount, sol);
    OnlyBuyBrings(env, s, CancelLimitStep(env, created, signer, s.nextOrderId, false), sol,
                  InitialSol(env, WaitingSol(s, LimitKind)));
  }

  lemma OnlyBuyBrings(env: Env, s: Ledger, cancelled: Result<Ledger>, sol: nat, other: nat)
    ensures Undone(env, s, cancelled, false, sol) <==> Undone(env, s, cancelled, false, other)
  {
    hide LooseRestored;
  }

  lemma CancelUndoes(env: Env, s: Ledger, created: Ledger, signer: Address, which: Side, mint: Address, amount: u64,
                     sol: u64)
    requires Created(s, created, which, mint, amount, sol) && signer == s.manager && s.fundType.TradingFund?
    requires WaitingTokens(s, LimitKind, which, mint) == 0 && (which.Sell? ==> sol == WaitingSol(s, LimitKind))
    ensures Undone(env, s, CancelLimitStep(env, created, signer, s.nextOrderId, false), which.Buy?, sol)
  {
    hide CancelLimitStep, Created, WaitingSol, WaitingTokens, LooseRestored;
    CancelAccepted(env, s, created, signer, which, mint, amount, sol);
    if CancelLimitStep(env, created, signer, s.nextOrderId, false).Ok? {
      CancelRestores(env, s, created, signer, which, mint, amount, sol);
      CancelRestoresLoose(env, s, created, signer, which, mint, amount, sol);
    }
  }

  /** The ledger right after a creation. */
  ghost predicate Created(s: Ledger, created: Ledger, which: Side, mint: Address, amount: u64, sol: u64) {
    && s.nextOrderId !in s.limits && s.nextOrderId in created.limits && mint in s.tokens
    && s.limitCount < U16_MAX && s.nextOrderId < U64_MAX
    && created == s.(nextOrderId := s.nextOrderId + 1, limitCount := s.limitCount + 1,
                     limits := s.limits[s.nextOrderId := created.limits[s.nextOrderId]],
                     loose := s.loose - {SolVaultAt(s.key, LimitKind, s.nextOrderId)},
                     vaultSol := created.vaultSol, tokens := created.tokens)
    && match which
       case Buy =>
         sol + amount <= U64_MAX && created.limits[s.nextOrderId].escrow == Escrow(Buy, mint, Open, sol + amount, 0)
         && amount <= s.vaultSol && created.vaultSol == s.vaultSol - amount && created.tokens == s.tokens
       case Sell =>
         created.limits[s.nextOrderId].escrow == Escrow(Sell, mint, Open, sol, amount) && created.vaultSol == s.vaultSol
         && amount <= Balance(s.tokens, mint)
         && created.tokens == s.tokens[mint := Balance(s.tokens, mint) - amount]
  }

  lemma JustCreated(env: Env, s: Ledger, signer: Address, side: u8, mint: Address, amount: u64, minOut: u64,
                    limitPrice: i64, priceExpo: i32, expiry: i64)
    requires CreateLimitStep(env, s, signer, side, mint, amount, minOut, limitPrice, priceExpo, expiry).Ok?
    ensures SideOf(side).Ok? && signer == s.manager && s.fundType.TradingFund?
    ensures WaitingTokens(s, LimitKind, SideOf(side).value, mint) == 0
    ensures Created(s, CreateLimitStep(env, s, signer, side, mint, amount, minOut, limitPrice, priceExpo,
                                       expiry).value,
                    SideOf(side).value, mint, amount, FirstSol(env, s, LimitKind, side))
  {
    hide FundOrder, InitialSol, WaitingSol, WaitingTokens, SolVaultAt;
    FundingBalances(s, SideOf(side).value, mint, amount, WaitingTokens(s, LimitKind, SideOf(side).value, mint),
                    FirstSol(env, s, LimitKind, side), false);
  }

  lemma FitsBack(env: Env, s: Ledger, created: Ledger, which: Side, mint: Address, amount: u64, sol: u64)
    requires Created(s, created, which, mint, amount, sol)
    ensures var e, rents := created.limits[s.nextOrderId].escrow, env.tokenRent + env.orderRent;
            RefundFits(created, e, rents, false)
            <==> s.vaultSol + rents + (if which.Buy? then sol else 0) <= U64_MAX
    ensures created.limits - {s.nextOrderId} == s.limits
    ensures which.Sell? ==> created.tokens[mint := Balance(created.tokens, mint) + amount] == s.tokens
  {
    hide SolVaultAt;
  }

  /** What a cancel of a limit order makes of the ledger. */
  lemma CancelledLedger(env: Env, s: Ledger, signer: Address, id: nat, other: bool)
    requires CancelLimitStep(env, s, signer, id, other).Ok?
    ensures id in s.limits && s.limitCount > 0
    ensures var after := CancelLimitStep(env, s, signer, id, other).value;
            var e := s.limits[id].escrow;
            && after == s.(limits := s.limits - {id}, limitCount := s.limitCount - 1, vaultSol := after.vaultSol,
                           tokens := after.tokens, loose := after.loose)
            && after.vaultSol == s.vaultSol + env.tokenRent + env.orderRent + (if e.side.Buy? then e.sol else 0)
            && after.tokens == (if e.side.Buy? || other then s.tokens
                                else s.tokens[e.mint := Balance(s.tokens, e.mint) + e.token])
            && after.loose == LeftBehind(s, id, if e.side.Buy? then e.(status := Cancelled, sol := 0)
                                                else e.(status := Cancelled, token := 0))
  {
    hide Refund, LeftBehind;
    RefundBalances(env, s, s.limits[id].escrow, other);
  }

  lemma LeftBehindNothing(created: Ledger, s: Ledger, side: Side, mint: Address, sol: u64, a: Address)
    requires created.key == s.key && created.loose == s.loose - {SolVaultAt(s.key, LimitKind, s.nextOrderId)}
    requires WaitingTokens(s, LimitKind, side, mint) == 0 && (side.Sell? ==> sol == WaitingSol(s, LimitKind))
    ensures var left := if side.Buy? then Escrow(Buy, mint, Cancelled, 0, 0) else Escrow(Sell, mint, Cancelled, sol, 0);
            Balance(LeftBehind(created, s.nextOrderId, left), a)
            == if side.Buy? && a == SolVaultAt(s.key, LimitKind, s.nextOrderId) then 0 else Balance(s.loose, a)
  {
  }

  lemma CancelAccepted(env: Env, s: Ledger, created: Ledger, signer: Address, which: Side, mint: Address, amount: u64,
                       sol: u64)
    requires Created(s, created, which, mint, amount, sol) && signer == s.manager && s.fundType.TradingFund?
    ensures CancelLimitStep(env, created, signer, s.nextOrderId, false).Ok?
       <==> s.vaultSol + env.tokenRent + env.orderRent + (if which.Buy? then sol else 0) <= U64_MAX
  {
    hide CancelLimitStep, RefundFits, ExactNav, SolVaultAt;
    CancelLimitNav(env, env, created, signer, s.nextOrderId, false);
    FitsBack(env, s, created, which, mint, amount, sol);
  }

  lemma CancelRestores(env: Env, s: Ledger, created: Ledger, signer: Address, which: Side, mint: Address, amount: u64,
                       sol: u64)
    requires Created(s, created, which, mint, amount, sol)
    requires CancelLimitStep(env, created, signer, s.nextOrderId, false).Ok?
    ensures s.nextOrderId < U64_MAX
    ensures var cancelled := CancelLimitStep(env, created, signer, s.nextOrderId, false).value;
            cancelled == s.(nextOrderId := s.nextOrderId + 1, loose := cancelled.loose,
                            vaultSol := s.vaultSol + env.tokenRent + env.orderRent + if which.Buy? then sol else 0)
  {
    hide CancelLimitStep, RefundFits, LeftBehind, SolVaultAt;
    FitsBack(env, s, created, which, mint, amount, sol);
    CancelledLedger(env, created, signer, s.nextOrderId, false);
  }

  lemma CancelRestoresLoose(env: Env, s: Ledger, created: Ledger, signer: Address, which: Side, mint: Address,
                            amount: u64, sol: u64)
    requires Created(s, created, which, mint, amount, sol) && WaitingTokens(s, LimitKind, which, mint) == 0
    requires which.Sell? ==> sol == WaitingSol(s, LimitKind)
    requires CancelLimitStep(env, created, signer, s.nextOrderId, false).Ok?
    ensures LooseRestored(s, CancelLimitStep(env, created, signer, s.nextOrderId, false).value, which.Buy?)
  {
    hide CancelLimitStep, LeftBehind, SolVaultAt, WaitingSol, WaitingTokens, Balance;
    CancelledLedger(env, created, signer, s.nextOrderId, false);
    var left := if which.Buy? then Escrow(Buy, mint, Cancelled, 0, 0) else Escrow(Sell, mint, Cancelled, sol, 0);
    var after := CancelLimitStep(env, created, signer, s.nextOrderId, false).value;
    forall a
      ensures Balance(after.loose, a)
           == if which.Buy? && a == SolVaultAt(s.key, LimitKind, s.nextOrderId) then 0 else Balance(s.loose, a)
    {
      LeftBehindNothing(created, s, which, mint, sol, a);
      assert after.loose == LeftBehind(created, s.nextOrderId, left);
    }
  }
}
