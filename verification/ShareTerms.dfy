/** The instructions on shares, written out: exactly when each is accepted and the whole ledger
    after it, in plain arithmetic on the balances. */
module ShareTerms {
  import opened Ints
  import opened Ledgers
  import opened Navs
  import opened Steps
  import opened Ranges

  /** Basis points are ten-thousandths, rounded down. */
  lemma BpsPart(amount: nat, bps: u16)
    ensures PartOf(BpsOf(amount, bps), amount, bps, 10_000)
  {
    DivBounds(amount * bps, 10_000);
  }

  // ---- deposits ----------------------------------------------------------------------------------

  /** The payer can pay both parts; if it is the treasury itself, the fee comes back. */
  ghost predicate CanPay(env: Env, wallets: map<Address, u64>, payer: Address, fee: u64, net: u64) {
    if payer == env.treasury then Balance(wallets, payer) >= fee && Balance(wallets, payer) >= net
    else Balance(wallets, payer) >= fee + net && (fee > 0 ==> Fits64(Balance(wallets, env.treasury) + fee))
  }

  /** The payer pays both parts and the treasury receives the fee. */
  ghost predicate Paying(env: Env, before: map<Address, u64>, after: map<Address, u64>, payer: Address, fee: u64,
                         net: u64) {
    forall who :: Balance(after, who) == Balance(before, who) - (if who == payer then fee + net else 0)
                                         + (if who == env.treasury then fee else 0)
  }

  lemma PaidInTwo(env: Env, wallets: map<Address, u64>, payer: Address, fee: u64, net: u64)
    ensures var paidFee := Move(wallets, payer, env.treasury, fee);
            && (paidFee.Ok? && DebitFrom(paidFee.value, payer, net).Ok? <==> CanPay(env, wallets, payer, fee, net))
            && (paidFee.Ok? && DebitFrom(paidFee.value, payer, net).Ok? ==>
                  Paying(env, wallets, DebitFrom(paidFee.value, payer, net).value, payer, fee, net))
  {
  }

  lemma PayDepositIff(env: Env, s: Ledger, investor: Address, split: Split)
    ensures PayDeposit(env, s, investor, split).Ok? <==> CanPay(env, s.wallets, investor, split.fee, split.net)
    ensures PayDeposit(env, s, investor, split).Ok? ==>
              Paying(env, s.wallets, PayDeposit(env, s, investor, split).value, investor, split.fee, split.net)
  {
    hide Move, CanPay;
    PaidInTwo(env, s.wallets, investor, split.fee, split.net);
  }

  lemma SplitIff(env: Env, s: Ledger, amount: u64, fee: nat)
    requires PartOf(fee, amount, env.depositFeeBps, 10_000)
    ensures SplitDeposit(env, s, amount).Ok? <==> amount >= s.minDeposit && fee <= amount
    ensures SplitDeposit(env, s, amount).Ok? ==> SplitDeposit(env, s, amount).value == Split(fee, amount - fee)
  {
    PartUnique(fee, amount, env.depositFeeBps, 10_000);
  }

  lemma SharesForIff(s: Ledger, net: u64, nav: u64, exact: nat)
    requires nav > 0 && PartOf(exact, net, s.totalShares, nav)
    ensures SharesFor(s, net, nav).Ok? <==> s.totalShares > 0 && Low64(exact) > 0
    ensures SharesFor(s, net, nav).Ok? ==> SharesFor(s, net, nav).value == Low64(exact)
  {
    PartUnique(exact, net, s.totalShares, nav);
  }

  lemma MintSharesIff(s: Ledger, investor: Address, minted: u64)
    ensures MintShares(s, investor, minted).Ok?
       <==> && Fits64(Balance(s.shares, investor) + minted) && Fits64(s.shareSupply + minted)
            && Fits64(s.totalShares + minted)
    ensures MintShares(s, investor, minted).Ok? ==>
              MintShares(s, investor, minted).value
              == ShareBook(s.shares[investor := Balance(s.shares, investor) + minted], s.shareSupply + minted,
                           s.totalShares + minted)
  {
  }

  /** Exactly when a deposit is accepted. */
  ghost predicate DepositAccepted(env: Env, s: Ledger, investor: Address, amount: u64, fee: int, minted: int) {
    && amount >= s.minDeposit && 0 <= fee <= amount && s.totalShares > 0 && 0 < minted && Fits64(minted)
    && CanPay(env, s.wallets, investor, fee, amount - fee)
    && Fits64(s.vaultSol + amount - fee) && Fits64(Balance(s.shares, investor) + minted)
    && Fits64(s.shareSupply + minted) && Fits64(s.totalShares + minted)
  }

  ghost predicate DepositDone(env: Env, s: Ledger, after: Ledger, investor: Address, amount: u64, fee: u64,
                              minted: u64)
    requires fee <= amount && Fits64(s.vaultSol + amount - fee) && Fits64(Balance(s.shares, investor) + minted)
    requires Fits64(s.shareSupply + minted) && Fits64(s.totalShares + minted)
  {
    && after == s.(vaultSol := s.vaultSol + amount - fee, totalShares := s.totalShares + minted,
                   shareSupply := s.shareSupply + minted, wallets := after.wallets,
                   shares := s.shares[investor := Balance(s.shares, investor) + minted])
    && Paying(env, s.wallets, after.wallets, investor, fee, amount - fee)
  }

  /** A deposit in full.  `fee` is the amount times the fee rate over 10000 and `exact` the net
      amount times the shares over the NAV, both rounded down; the shares minted are the low 64
      bits of `exact`.  The deposit is accepted exactly if the NAV is available and positive and
      the conditions hold, and the ledger after it is this one. */
  lemma DepositIff(env: Env, s: Ledger, investor: Address, amount: u64, accounts: seq<Address>)
    returns (fee: nat, exact: nat)
    ensures PartOf(fee, amount, env.depositFeeBps, 10_000)
    ensures Nav(env, s, accounts).Ok? && Nav(env, s, accounts).value > 0 && fee <= amount ==>
              PartOf(exact, amount - fee, s.totalShares, Nav(env, s, accounts).value)
    ensures var step := DepositStep(env, s, investor, amount, accounts);
            var minted := Low64(exact);
            && (step.Ok? <==> && Nav(env, s, accounts).Ok? && Nav(env, s, accounts).value > 0
                              && DepositAccepted(env, s, investor, amount, fee, minted))
            && (step.Ok? ==> DepositDone(env, s, step.value, investor, amount, fee, minted))
  {
    hide Nav, DepositPaid, CanPay, Paying, PartOf, Low64;
    fee := DivPart(amount, env.depositFeeBps, 10_000);
    exact := 0;
    if Nav(env, s, accounts).Ok? && Nav(env, s, accounts).value > 0 && fee <= amount {
      exact := DivPart(amount - fee, s.totalShares, Nav(env, s, accounts).value);
    }
    DepositPaidIff(env, s, investor, amount, accounts, fee, exact);
  }

  lemma DepositPaidIff(env: Env, s: Ledger, investor: Address, amount: u64, accounts: seq<Address>, fee: nat,
                       exact: nat)
    requires PartOf(fee, amount, env.depositFeeBps, 10_000)
    requires Nav(env, s, accounts).Ok? && Nav(env, s, accounts).value > 0 && fee <= amount ==>
               PartOf(exact, amount - fee, s.totalShares, Nav(env, s, accounts).value)
    ensures var paid, minted := DepositPaid(env, s, investor, amount, accounts), Low64(exact);
            && (paid.Ok? <==> && Nav(env, s, accounts).Ok? && Nav(env, s, accounts).value > 0
                              && DepositAccepted(env, s, investor, amount, fee, minted))
            && (paid.Ok? ==>
                  && paid.value.vaultSol == s.vaultSol + amount - fee
                  && paid.value.book == ShareBook(s.shares[investor := Balance(s.shares, investor) + minted],
                                                  s.shareSupply + minted, s.totalShares + minted)
                  && Paying(env, s.wallets, paid.value.wallets, investor, fee, amount - fee))
  {
    hide Nav, SplitDeposit, SharesFor, PayDeposit, MintShares, CanPay, Paying, PartOf, Low64;
    SplitIff(env, s, amount, fee);
    if fee <= amount {
      PayDepositIff(env, s, investor, Split(fee, amount - fee));
      if Nav(env, s, accounts).Ok? && Nav(env, s, accounts).value > 0 {
        SharesForIff(s, amount - fee, Nav(env, s, accounts).value, exact);
        MintSharesIff(s, investor, Low64(exact));
      } else {
        NoNavNoShares(s, amount - fee);
      }
    }
  }

  lemma NoNavNoShares(s: Ledger, net: u64)
    ensures SharesFor(s, net, 0).Err?
  {
  }

  // ---- payouts -----------------------------------------------------------------------------------

  ghost predicate CanBePaid(env: Env, wallets: map<Address, u64>, investor: Address, net: u64, fee: u64) {
    && investor != env.treasury && Fits64(Balance(wallets, investor) + net)
    && (fee > 0 ==> Fits64(Balance(wallets, env.treasury) + fee))
  }

  ghost predicate BeingPaid(env: Env, before: map<Address, u64>, after: map<Address, u64>, investor: Address, net: u64,
                            fee: u64) {
    forall who :: Balance(after, who) == Balance(before, who) + (if who == investor then net else 0)
                                         + (if who == env.treasury then fee else 0)
  }

  lemma PayInvestorIff(env: Env, s: Ledger, investor: Address, payout: Payout)
    ensures PayInvestor(env, s, investor, payout).Ok?
       <==> CanBePaid(env, s.wallets, investor, payout.net, payout.fee)
    ensures PayInvestor(env, s, investor, payout).Ok? ==>
              BeingPaid(env, s.wallets, PayInvestor(env, s, investor, payout).value, investor, payout.net, payout.fee)
  {
  }

  /** The request can be paid now: it is there, its time has come and the shares are there. */
  ghost predicate Due(env: Env, s: Ledger, investor: Address) {
    && investor in s.requests
    && var request := s.requests[investor];
    && request.shares > 0 && FitsTime(request.ts + s.timelock) && env.now >= request.ts + s.timelock
    && s.totalShares >= request.shares && Balance(s.shares, investor) >= request.shares
  }

  lemma DueIff(env: Env, s: Ledger, investor: Address)
    ensures DueRequest(env, s, investor).Ok? <==> Due(env, s, investor)
    ensures Due(env, s, investor) ==> DueRequest(env, s, investor).value == s.requests[investor]
  {
  }

  lemma PayoutForIff(env: Env, s: Ledger, shares: u64, nav: u64, exactGross: nat, exactFee: nat)
    requires nav > 0 && s.totalShares > 0 && PartOf(exactGross, shares, nav, s.totalShares)
    requires PartOf(exactFee, Low64(exactGross), env.withdrawFeeBps, 10_000)
    ensures var gross, fee := Low64(exactGross), Low64(exactFee);
            && (PayoutFor(env, s, shares, nav).Ok? <==> fee <= gross <= s.vaultSol)
            && (PayoutFor(env, s, shares, nav).Ok? ==>
                  PayoutFor(env, s, shares, nav).value == Payout(gross, fee, gross - fee))
  {
    PartUnique(exactGross, shares, nav, s.totalShares);
    PartUnique(exactFee, Low64(exactGross), env.withdrawFeeBps, 10_000);
  }

  lemma NoPayout(env: Env, s: Ledger, shares: u64)
    ensures PayoutFor(env, s, shares, 0).Err?
  {
  }

  lemma BurnSharesIff(s: Ledger, investor: Address, burnt: u64)
    ensures BurnShares(s, investor, burnt).Ok?
       <==> Balance(s.shares, investor) >= burnt && s.shareSupply >= burnt && s.totalShares >= burnt
    ensures BurnShares(s, investor, burnt).Ok? ==>
              BurnShares(s, investor, burnt).value
              == ShareBook(s.shares[investor := Balance(s.shares, investor) - burnt], s.shareSupply - burnt,
                           s.totalShares - burnt)
  {
  }

  ghost predicate PayoutDone(env: Env, s: Ledger, after: Ledger, investor: Address, gross: u64, fee: u64)
    requires Due(env, s, investor) && fee <= gross <= s.vaultSol && s.shareSupply >= s.requests[investor].shares
  {
    var burnt := s.requests[investor].shares;
    && after == s.(vaultSol := s.vaultSol - gross, totalShares := s.totalShares - burnt,
                   shareSupply := s.shareSupply - burnt, wallets := after.wallets,
                   shares := s.shares[investor := Balance(s.shares, investor) - burnt],
                   requests := s.requests - {investor})
    && BeingPaid(env, s.wallets, after.wallets, investor, gross - fee, fee)
  }

  /** A payout in full.  `exactGross` is the requested part of the NAV and `exactFee` the fee rate
      of the gross, both rounded down; gross and fee are their low 64 bits. */
  lemma ExecuteWithdrawIff(env: Env, s: Ledger, investor: Address, accounts: seq<Address>)
    returns (exactGross: nat, exactFee: nat)
    ensures PartOf(exactFee, Low64(exactGross), env.withdrawFeeBps, 10_000)
    ensures Due(env, s, investor) && Nav(env, s, accounts).Ok? ==>
              PartOf(exactGross, s.requests[investor].shares, Nav(env, s, accounts).value, s.totalShares)
    ensures var step := ExecuteWithdrawStep(env, s, investor, accounts);
            var gross, fee := Low64(exactGross), Low64(exactFee);
            && (step.Ok? <==> && Due(env, s, investor) && Nav(env, s, accounts).Ok? && Nav(env, s, accounts).value > 0
                              && fee <= gross <= s.vaultSol && s.shareSupply >= s.requests[investor].shares
                              && CanBePaid(env, s.wallets, investor, gross - fee, fee))
            && (step.Ok? ==> PayoutDone(env, s, step.value, investor, gross, fee))
  {
    hide Nav, PayoutDone, PartOf, Low64, ExecuteWithdrawStep, CanBePaid;
    exactGross := 0;
    if Due(env, s, investor) && Nav(env, s, accounts).Ok? {
      exactGross := DivPart(s.requests[investor].shares, Nav(env, s, accounts).value, s.totalShares);
    }
    exactFee := DivPart(Low64(exactGross), env.withdrawFeeBps, 10_000);
    PayoutOf(env, s, investor, accounts, exactGross, exactFee);
  }

  lemma PayoutOf(env: Env, s: Ledger, investor: Address, accounts: seq<Address>, exactGross: nat, exactFee: nat)
    requires PartOf(exactFee, Low64(exactGross), env.withdrawFeeBps, 10_000)
    requires Due(env, s, investor) && Nav(env, s, accounts).Ok? ==>
               PartOf(exactGross, s.requests[investor].shares, Nav(env, s, accounts).value, s.totalShares)
    ensures var step := ExecuteWithdrawStep(env, s, investor, accounts);
            var gross, fee := Low64(exactGross), Low64(exactFee);
            && (step.Ok? <==> && Due(env, s, investor) && Nav(env, s, accounts).Ok? && Nav(env, s, accounts).value > 0
                              && fee <= gross <= s.vaultSol && s.shareSupply >= s.requests[investor].shares
                              && CanBePaid(env, s.wallets, investor, gross - fee, fee))
            && (step.Ok? ==> PayoutDone(env, s, step.value, investor, gross, fee))
  {
    hide Nav, DueRequest, PayoutFor, BurnShares, PayInvestor, CanBePaid, BeingPaid, PartOf, Low64;
    DueIff(env, s, investor);
    if Due(env, s, investor) && Nav(env, s, accounts).Ok? {
      var nav := Nav(env, s, accounts).value;
      var shares, gross, fee := s.requests[investor].shares, Low64(exactGross), Low64(exactFee);
      BurnSharesIff(s, investor, shares);
      if nav > 0 {
        PayoutForIff(env, s, shares, nav, exactGross, exactFee);
        if fee <= gross {
          PayInvestorIff(env, s, investor, Payout(gross, fee, gross - fee));
        }
      } else {
        NoPayout(env, s, shares);
      }
    }
  }

  // ---- requests and transfers --------------------------------------------------------------------

  lemma RequestWithdrawIff(env: Env, s: Ledger, investor: Address, amount: u64)
    ensures RequestWithdrawStep(env, s, investor, amount).Ok? <==> 0 < amount <= Balance(s.shares, investor)
    ensures RequestWithdrawStep(env, s, investor, amount).Ok? ==>
              RequestWithdrawStep(env, s, investor, amount).value
              == s.(requests := s.requests[investor := Request(amount, env.now)])
  {
  }

  lemma CancelWithdrawIff(s: Ledger, investor: Address)
    ensures CancelWithdrawStep(s, investor).Ok? <==> investor in s.requests
    ensures investor in s.requests ==>
              CancelWithdrawStep(s, investor).value == s.(requests := s.requests - {investor})
  {
  }

  lemma TransferSharesIff(s: Ledger, sender: Address, receiver: Address, amount: u64)
    ensures var step := TransferSharesStep(s, sender, receiver, amount);
            && (step.Ok? <==> && Balance(s.shares, sender) >= amount
                              && (sender != receiver ==> Fits64(Balance(s.shares, receiver) + amount)))
            && (step.Ok? ==>
                  && step.value == s.(shares := step.value.shares)
                  && forall who :: Balance(step.value.shares, who)
                                   == Balance(s.shares, who) - (if who == sender then amount else 0)
                                      + (if who == receiver then amount else 0))
  {
  }

  // ---- a new fund --------------------------------------------------------------------------------

  /** A new fund in full: the terms are within the global bounds, the deposit covers the fee and
      more, and the fund carries the terms it was asked for, one share for each lamport of the
      net deposit. */
  lemma InitialIff(env: Env, bounds: Bounds, charter: Charter, wallets: map<Address, u64>)
    returns (exactFee: nat)
    ensures PartOf(exactFee, charter.deposit, env.depositFeeBps, 10_000)
    ensures var made := InitialLedger(env, bounds, charter, wallets);
            var fee := Low64(exactFee);
            && (made.Ok? <==> && bounds.minTimelock <= charter.timelock <= bounds.maxTimelock
                              && charter.managerFeeBps <= bounds.maxManagerFeeBps
                              && charter.deposit >= bounds.minManagerDeposit && fee < charter.deposit
                              && CanPay(env, wallets, charter.manager, fee, charter.deposit - fee)
                              && Fits64(charter.vaultRent + charter.deposit - fee))
            && (made.Ok? ==>
                  && Paying(env, wallets, made.value.wallets, charter.manager, fee, charter.deposit - fee)
                  && NewFund(charter, made.value, charter.deposit - fee))
  {
    hide BpsOf, PartOf, CanPay, Paying, Move, DebitFrom;
    exactFee := DivPart(charter.deposit, env.depositFeeBps, 10_000);
    BpsPart(charter.deposit, env.depositFeeBps);
    PartUnique(BpsOf(charter.deposit, env.depositFeeBps), charter.deposit, env.depositFeeBps, 10_000);
    var fee := Low64(exactFee);
    if fee < charter.deposit {
      PaidInTwo(env, wallets, charter.manager, fee, charter.deposit - fee);
    }
  }

  ghost predicate NewFund(charter: Charter, s: Ledger, net: u64) {
    && s.key == charter.key && s.config == charter.config && s.manager == charter.manager
    && s.fundType == charter.fundType && s.minDeposit == charter.minDeposit && s.timelock == charter.timelock
    && s.totalShares == s.shareSupply == net && s.shares == map[charter.manager := net]
    && s.vaultSol == charter.vaultRent + net
    && s.enabledCount == s.limitCount == s.dcaCount == 0 && s.nextOrderId == 0
    && s.tokens == map[] && s.listings == map[] && s.limits == map[] && s.dcas == map[] && s.requests == map[]
    && s.loose == map[] && s.strategy.None?
    && s.trading == Trading(false, 0, 0, 0, 0, Key(1))
  }
}
