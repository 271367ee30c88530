# Verified model of the fund program

The program is a pool on Solana.  A manager creates a fund, investors deposit SOL for shares
priced by the net asset value (NAV), the manager trades whitelisted tokens, and a keeper executes
limit orders, DCA orders and strategy rebalances against oracle prices.  This project models one
fund as a ledger with one step per instruction and proves what the program is for: what an accepted
NAV counts, when shares can be diluted and when not, that escrow is accounted for, what a swap can
lose, and that a borrow is always settled.

## Shape

- `Results`, `Ints`, `MapSums`: results and errors, the machine integers and casts, sums over maps.
- `Oracle`: the fixed-point conversions.  Each is a checked 128-bit computation with two exponent
  branches, proved equal to one floor at one exact rational rate.
- `Ledgers`: the fund's accounts as one value, the environment of an instruction, the instructions.
  Derived addresses are constructors, so derivation is injective.
- `Navs`: `compute_nav_lamports`, as loops, as recursion, and as the sum `SimpleNav` that needs no
  account list.
- `Steps`: what each instruction does to the ledger, check by check, or the error it stops with.
- `Handlers`, `FundProgram`: the handlers in the program's own form, a class whose methods check and
  update the accounts in place and loops that accumulate, each proved to do what `Steps` says and to
  change nothing when it fails.
- `Runs`, `Frames`, `Invariants`, `Counters`, `Lifecycles`: any sequence of instructions in any
  environments from a new fund; what each instruction leaves alone; the invariant every step keeps;
  the counters; ids and statuses.
- `Whitelist`, `NavAvailability`, `PartialLists`: what listing and delisting do, when an acceptable
  account list exists at all, and what a caller can get when the whitelist counter fell short.
- `ExactNavs`: the exact value of the holdings, without the casts of the handler.  The handler's NAV is
  that value modulo 2^64; all statements about value below are about the exact value.
- `ShareAccounting`, `Loans`, `Dilution`, `Coalitions`, `Withdrawals`: share prices, what may happen between
  a borrow and its settle, three deposits that dilute, who can profit, lamport conservation, which request
  a payout belongs to.
- `Valuation`, `Escrows`, `Pooling`, `Slippage`, `Stranded`, `Costs`: how the value moves when assets move
  into escrow and back, when a mint is split over many vaults, and when an order executes; what never
  comes back; and what a whole run of any instructions can cost.
- `UnusedVaults`: what lies at the vault addresses of orders that are not created yet or whose record is
  closed.
- `LimitOrders`, `DcaOrders`, `Rebalancing`, `Transactions`: terms of limit orders, the DCA schedule
  in closed form, sizing of rebalances, borrow and settle inside atomic transactions.
- `Ranges`, `OracleRanges`, `NavTerms`, `ShareTerms`, `OrderTerms`, `FundTerms`, `RebalanceTerms`: every
  instruction written out in plain arithmetic on the balances, without the functions of `Steps`: exactly when
  it is accepted, and the whole ledger after it.  `Refusals`: when the errors a caller acts on occur.

An order's swap is an arbitrary outcome within a frame: the order's own token vault may end anywhere,
the fund's vaults can only be credited, because only the order's vault authority signs.  A swap the
fund signs for a rebalance may leave its token vaults anywhere.  Credits to other vaults, by a swap or
by anyone else, are steps of their own (`CreditVault`) and may happen at any time, as may transfers of
share tokens.

## What was found

- Closing a whitelist record that does not exist succeeds and lowers `enabled_token_count`.  An accepted
  list names every holding on exactly the runs where that never happened (`NavCompleteIff`).  Otherwise
  the caller chooses which listed mints to leave out (`CallerChoosesMints`; the smallest case is
  `AbsentRemovalHidesHoldings`), though no list overstates the holdings (`NavNeverOverstates`).  The
  documentation promises a complete NAV without this condition.
- Delisting checks the fund's vault but neither escrow nor open orders.  It leaves the fund unpriceable,
  so that neither deposits nor payouts are possible, exactly when an open SELL order of either kind
  holds the mint or when the last listed mint goes while any order, BUY orders included, is open
  (`DelistingKeepsNavIff`, `DelistingBlocksNav`).  Listing the mint again undoes it (`RelistingRestores`).
- A deposit can dilute in two ways.  Both the single valuations and their sum are cast to 64 bits, so the
  NAV is the exact value modulo 2^64 (`NavIsExactNav`); and the lamports on loan between a borrow and its
  settle are in no NAV, for deposits do not look at the lock.  Counting the loan, a deposit keeps the
  value per share if and only if the exact value fits 64 bits and the loan's part of the new shares is
  within what rounding them down kept back; with nothing on loan, if and only if the value fits
  (`DepositKeepsPriceIff`).  Beyond, it dilutes, through either cast (`TruncatedValuationDilutes`,
  `TruncatedNavDilutes`) or in a locked fund (`LockedDepositDilutes`, one committed transaction with a
  fair swap).  Payouts never dilute.
- The settle, which wants the vault exactly at its snapshot less the loan, leaves little room for that: a
  deposit in between is committed only together with a payout or a new BUY order in between
  (`DepositNeedsOutflow`), investors' instructions in one stretch never leave more shares than there were
  (`SharesDoNotGrow`), and in any interleaving the value per share ends no lower than that of the holdings
  without the loan (`LoanBoundsDilution`).
- A BUY limit order can execute at a price up to one unit of the limit's exponent above its limit
  (`BuyTriggerExact`, `BuyTriggerAboveLimit`).
- Anyone can put one unit of wrapped SOL into the token vault of an open BUY order (`OneUnitJams`).  A DCA
  order can then never be executed nor cancelled and keeps its lamports and its counter slot for good
  (`JammedDcaForever`).  A limit order never executes again (`JammedLimitNeverExecutes`), as no limit order
  of either side does whose token vault holds more than its input (`OverfilledNeverExecutes`), but
  `cancel_limit_order` does not pin the token account of a BUY: passing another, empty account of the same
  authority is exactly what cancels it, with all lamports back (`JammedLimitCancel`), while the wrapped SOL
  stays behind for good.
- Cancelling a SELL order pays its tokens into whatever token account of the fund for that mint is passed,
  and any but the derived one is in no NAV: the value falls by all the escrow was worth (`CancelLimitNav`,
  `CancelDcaNav`).  Creating a DCA SELL can draw on such an account again (`CreateDcaNav`).
- Creations demand an empty token vault, and a creation that fails does not move `next_order_id` on.  One
  unit sent to the address of the next order's token vault therefore refuses every creation that would use
  it, for wrapped SOL every BUY whatever it buys, until an order with another vault is created
  (`OneUnitBlocks`, `BlockedUntilAnother`, `AnotherFrees`).
- The documentation says executing a limit order closes its escrow; a BUY leaves whatever exceeds the
  input in the order's SOL vault for good (`ResidueStays`).
- The rebalance compares the number of allocations with the low 8 bits of the counter.  Its NAV leaves out
  as many listed mints as the counter fell short by and a multiple of 256, and agrees with the fund's if
  and only if those vaults are worth nothing (`StrategyNavIff`).

## Model

| member | source | states |
|---|---|---|
| Navs.NavIsSimpleNav | programs/fund_contract/src/instructions/deposit.rs:162-449 | With exact counters, every account list `compute_nav_lamports` accepts names each listed mint, each open limit order and each open DCA order exactly once, and the result is the one sum of the handler's own valuations of the holdings, cast to 64 bits |
| ExactNavs.NavIsExactNav | programs/fund_contract/src/instructions/deposit.rs:445-488 | The result on an accepted list is the exact, never truncated value of the holdings modulo 2^64, and it is that value if and only if it fits 64 bits |
| ExactNavs.SimpleNavIsExactIff | programs/fund_contract/src/instructions/deposit.rs:445-488 | The sum before the last cast is the exact value if and only if every single valuation fits 64 bits |
| Navs.AcceptedListsAgree | programs/fund_contract/src/instructions/deposit.rs:175-449 | Two accepted account lists never give different NAVs |
| Navs.ComputeNav | programs/fund_contract/src/instructions/deposit.rs:162-449 | The three ordered loops with the in-place price table compute exactly the recursive definition the theorems are about; the checked additions cannot overflow |
| Navs.AddTokens | programs/fund_contract/src/instructions/deposit.rs:232-283 | The pass over the token triplets adds the value of every listed vault and fills the price table for the orders |
| Navs.AddOrders | programs/fund_contract/src/instructions/deposit.rs:285-446 | The pass over order triplets adds a BUY order's lamports and a SELL order's tokens at the price already loaded for its mint |
| Navs.ListMints | programs/fund_contract/src/instructions/deposit.rs:190-230 | The first pass accepts exactly strictly ascending whitelist accounts of the fund |
| Navs.NavMintsSound | programs/fund_contract/src/instructions/deposit.rs:190-230 | The mints of an accepted list are distinct, listed and ascending |
| Navs.OrdersAreSum | programs/fund_contract/src/instructions/deposit.rs:285-446 | As many distinct open orders as the counter says are all the open orders, so their values add up to the book |
| NavTerms.NavIff | programs/fund_contract/src/instructions/deposit.rs:162-449 | Exactly which account lists `compute_nav_lamports` accepts, condition by condition on the accounts, whatever the counters, and that it returns the low 64 bits of what the list adds up to |
| NavTerms.NavTokensIff | programs/fund_contract/src/instructions/deposit.rs:232-283 | The token triplets accepted and their sum: each vault at the cast floor of its balance at the oracle's rate |
| NavTerms.NavOrdersIff | programs/fund_contract/src/instructions/deposit.rs:285-446 | The order triplets accepted and their sum: ascending open orders with their own vaults, a BUY for its lamports, a SELL of a mint of the list for its tokens |
| Counters.TokenCounterLaw | programs/fund_contract/src/instructions/remove_token.rs:87-110 | Over any run the whitelist counter falls short of the records by exactly the number of removals of records that did not exist |
| Counters.CountersExactIff | programs/fund_contract/src/instructions/remove_token.rs:99-110 | From initialisation on the three counters are exact if and only if no absent whitelist record was ever removed; the order counters are exact always |
| Counters.NavCompleteIff | programs/fund_contract/src/instructions/deposit.rs:175-449 | NAV completeness, exactly: in every run from initialisation an accepted list names every holding if and only if no absent whitelist record was ever removed, and then the result is the exact value modulo 2^64 |
| Counters.NavNeverOverstates | programs/fund_contract/src/instructions/deposit.rs:175-449 | In every reachable ledger no account list makes the handler report more than the holdings are worth, truncating casts and short counters included |
| Counters.AbsentRemovalHidesHoldings | programs/fund_contract/src/instructions/remove_token.rs:99-110 | The failing case: one absent removal with one mint listed, and the empty list is accepted for the lamports alone |
| PartialLists.CallerChoosesMints | programs/fund_contract/src/instructions/deposit.rs:175-230 | What a short counter admits, exactly: a value is returned for some list if and only if it is that of the fund with some choice of as many listed mints as the counter says |
| NavAvailability.NavAvailableIff | programs/fund_contract/src/instructions/deposit.rs:162-449 | With exact counters some list is accepted if and only if, with nothing listed, no order of either book is open, and otherwise every listed vault and every open SELL escrow can be valued and the sum is positive |
| NavAvailability.DelistingKeepsNavIff | programs/fund_contract/src/instructions/remove_token.rs:99-110 | If the fund could be priced before a delisting, it can be after it if and only if no open SELL order of either kind holds the mint or, when it was the last mint, no order at all is open |
| NavAvailability.DelistingBlocksNav | programs/fund_contract/src/instructions/remove_token.rs:99-110 | In the other cases the delisting succeeds and no list prices the fund in any environment |
| NavAvailability.RelistingRestores | programs/fund_contract/src/instructions/add_token.rs:143-227 | Listing a delisted mint again with its old terms gives back exactly the fund there was, whatever is in escrow |
| ShareAccounting.DepositKeepsPriceIff | programs/fund_contract/src/instructions/deposit.rs:27-113 | With holdings and loan counted, a deposit keeps the value per share if and only if it pays for its shares at that value; where the minted shares are not truncated themselves, if and only if the exact value of the holdings fits 64 bits and the loan's part of the new shares is at most the remainder of the division that rounded them down |
| ShareAccounting.WithdrawKeepsPrice | programs/fund_contract/src/instructions/execute_withdraw.rs:34-92 | A payout never lowers the value per share, even where the NAV it used was truncated or left out a loan |
| ShareAccounting.GrossWithinNav | programs/fund_contract/src/instructions/execute_withdraw.rs:56-75 | The gross payout is the requested part of the NAV rounded down and at most the NAV, so neither of its casts truncates; the fee is the fee rate of the gross over 10000, rounded down, and fee plus net is the gross |
| ShareTerms.DepositIff | programs/fund_contract/src/instructions/deposit.rs:18-116 | Exactly when a deposit is accepted and the whole ledger after it: fee and shares as floors given by their inequalities, each wallet, the vault and the three share totals |
| ShareTerms.ExecuteWithdrawIff | programs/fund_contract/src/instructions/execute_withdraw.rs:10-117 | Exactly when a payout is made and the whole ledger after it: the request there and due, gross and fee as floors given by their inequalities, cast to 64 bits, and within the vault |
| ShareTerms.RequestWithdrawIff | programs/fund_contract/src/instructions/request_withdraw.rs:9-28 | A request is accepted exactly for a positive number of shares the investor holds, and is stored with the time |
| ShareTerms.CancelWithdrawIff | programs/fund_contract/src/instructions/cancel_withdraw.rs:8-20 | A request can be cancelled exactly if it is there, and nothing else changes |
| ShareTerms.InitialIff | programs/fund_contract/src/instructions/initialize_fund.rs:10-121 | Exactly when a fund can be made and the whole new ledger: its manager, minimum deposit and timelock are those asked for, one share for each lamport of the net deposit, nothing else in it |
| ShareAccounting.SharesForRoundsDown | programs/fund_contract/src/instructions/deposit.rs:50-59 | New shares cost at least the current price and are never zero |
| ShareAccounting.SharePriceNeverFalls | programs/fund_contract/src/instructions/deposit.rs:50-113 | In any interleaving of deposits, requests, payouts and share transfers by any investors at fixed prices, the value per share, loans counted, never falls if the exact value fits 64 bits whenever a deposit is priced and no deposit comes while lamports are on loan |
| Loans.DepositNeedsOutflow | programs/fund_contract/src/instructions/settle_swap.rs:53-76 | Whatever else runs between a borrow and its settle, without a payout and without a new BUY order nobody deposits and the number of shares stays |
| Loans.SharesDoNotGrow | programs/fund_contract/src/instructions/settle_swap.rs:53-76 | One stretch of investors' instructions at fixed prices between a borrow and its settle, with anything that takes no lamports out before and after it, never leaves more shares than there were |
| Loans.LoanBoundsDilution | programs/fund_contract/src/instructions/deposit.rs:37-59 | In any interleaving of investors' instructions with deliveries, new BUY orders, cancels and listings between a borrow and its settle at fixed prices, the value per share ends no lower than the value without the loan per share was |
| Loans.InvestorsCannotSettle | programs/fund_contract/src/instructions/settle_swap.rs:63-76 | With investors' instructions alone in between the settle is refused, whatever its accounts: nobody delivered the tokens |
| Dilution.TruncatedValuationDilutes | programs/fund_contract/src/instructions/deposit.rs:487 | A fund and a deposit where the cast of one valuation drops most of it: every sum fits, the deposit succeeds and dilutes |
| Dilution.TruncatedNavDilutes | programs/fund_contract/src/instructions/deposit.rs:448 | A fund and a deposit where every valuation fits and the cast of the sum turns 2^64 + 1 into 1: the deposit succeeds and dilutes |
| Dilution.LockedDepositDilutes | programs/fund_contract/src/instructions/deposit.rs:37-59 | One committed transaction, borrow, deposit, delivery at the oracle's price, new BUY order and settle, every number far below 2^64: a share goes from 100 lamports to 19 |
| ShareAccounting.NoSharesForever | programs/fund_contract/src/instructions/deposit.rs:50-52 | Zero total shares is absorbing: no run can deposit or pay out again |
| Coalitions.CoalitionNeverProfits | programs/fund_contract/src/instructions/execute_withdraw.rs:34-92 | Investors who start without shares never withdraw more than they deposited at fixed prices, not even counting the pro-rata value of the shares they still hold, loans included, if no deposit comes while lamports are on loan |
| Coalitions.FlowsAreVaultChange | programs/fund_contract/src/instructions/deposit.rs:71-84 | Net deposits less gross payouts are exactly what the vault gained |
| Coalitions.DepositConserves | programs/fund_contract/src/instructions/deposit.rs:22-84 | A deposit conserves lamports: the investor pays the amount, the treasury gets `fee` with 10000 fee <= amount * deposit_fee_bps < 10000 fee + 10000, the vault the rest |
| Coalitions.WithdrawConserves | programs/fund_contract/src/instructions/execute_withdraw.rs:66-114 | A payout conserves lamports between vault, investor and treasury, which gets the low 64 bits of the fee rate of the gross over 10000, rounded down |
| Coalitions.BorrowConserves | programs/fund_contract/src/instructions/borrow_for_swap.rs:109-121 | A borrow moves exactly the amount from the vault to the manager |
| Coalitions.InitialConserves | programs/fund_contract/src/instructions/initialize_fund.rs:37-95 | A new fund holds the deposit less the fee, whose size is given by its inequalities, and the rent, and has one share per lamport of the net deposit |
| Withdrawals.PayoutHasRequest | programs/fund_contract/src/instructions/execute_withdraw.rs:13-32 | Every payout of a run is matched to an earlier request by the same investor for exactly the shares burnt, at least a timelock before, with no cancel, new request or payout in between |
| Withdrawals.PayoutsPayDistinctRequests | programs/fund_contract/src/instructions/cancel_withdraw.rs:37-43 | No request is paid twice |
| Withdrawals.PayoutBurns | programs/fund_contract/src/instructions/execute_withdraw.rs:34-92 | A payout burns exactly the requested shares, from the requester only |
| Invariants.StepKeepsSound | programs/fund_contract/src/lib.rs:94-293 | Every instruction keeps the invariant: share supply, order counters, escrow cover, trading record, fund kind, strategy, requests |
| Invariants.InitialSound | programs/fund_contract/src/instructions/initialize_fund.rs:35-95 | A new fund satisfies the invariant |
| Invariants.ReachableIsSound | programs/fund_contract/src/lib.rs:94-293 | Every reachable ledger satisfies the invariant |
| Invariants.MintKeepsSum | programs/fund_contract/src/instructions/deposit.rs:98-113 | Minting keeps total shares = mint supply = sum of balances |
| Invariants.SwapOutSpends | programs/fund_contract/src/instructions/execute_limit_order.rs:216-342 | An accepted swap takes exactly the amount out of the escrow, whichever the side |
| Invariants.FillSliceSound | programs/fund_contract/src/instructions/execute_dca_order.rs:187-319 | A slice keeps the escrow covering what remains and the order's status in step with it |
| Invariants.OpenDcaSound | programs/fund_contract/src/instructions/create_dca_order.rs:23-69 | A new DCA order starts with its whole total in escrow and its first execution one interval ahead |
| Frames.StepFrame | programs/fund_contract/src/lib.rs:94-293 | What each instruction leaves alone: every field it does not write, and every order it does not name |
| Lifecycles.ClosedOrdersStayClosed | programs/fund_contract/src/instructions/create_limit_order.rs:36-45 | Order ids are never reused and a closed order is never open again, over any run |
| Lifecycles.DcaNeverRunsShort | programs/fund_contract/src/instructions/execute_dca_order.rs:187-237 | In every reachable ledger the liquidity checks of an open DCA order cannot fail |
| Lifecycles.CountersNeverUnderflow | programs/fund_contract/src/instructions/create_dca_order.rs:35-38 | In every reachable ledger as many DCA orders are open as the counter says and at most 20, and the counter and snapshot subtractions cannot underflow |
| Escrows.CreateLimitNav | programs/fund_contract/src/instructions/create_limit_order.rs:71-243 | At every price, opening a BUY limit order adds exactly the rent, or what had waited at its SOL vault; opening a SELL order never raises the exact value and lowers it by at most one lamport |
| Escrows.CreateDcaNav | programs/fund_contract/src/instructions/create_dca_order.rs:71-234 | The same for DCA orders; a SELL whose tokens come from another account of the fund adds exactly what they are worth |
| Escrows.CancelLimitNav | programs/fund_contract/src/instructions/cancel_limit_order.rs:14-152 | Exactly when a cancel is accepted, with the derived accounts or with another where the handler does not pin it; it adds exactly the rents, for a SELL order at most one lamport more, and takes away exactly the escrow's worth if a SELL refunds another account |
| Escrows.CancelDcaNav | programs/fund_contract/src/instructions/cancel_dca_order.rs:14-165 | The same for DCA orders, where the token account of a BUY is pinned |
| Escrows.CancelUndoesCreateLimit | programs/fund_contract/src/instructions/cancel_limit_order.rs:11-152 | Cancelling right after creating, with the derived accounts, is refused only if the vault overflows; otherwise it restores the whole ledger but for the used id, the rents and what had waited at a BUY order's SOL vault |
| Stranded.JammedDcaForever | programs/fund_contract/src/instructions/cancel_dca_order.rs:42-104 | An open DCA BUY order with wrapped SOL in its token vault stays open over any run: nothing executes or cancels it, its lamports stay and its counter slot is never freed |
| Stranded.JammedLimitNeverExecutes | programs/fund_contract/src/instructions/execute_limit_order.rs:278-296 | An open limit BUY order with wrapped SOL in its token vault never executes, over any run; it stays open with its lamports unless it is cancelled with another account, and then the wrapped SOL stays at its vault's address |
| Stranded.OverfilledNeverExecutes | programs/fund_contract/src/instructions/execute_limit_order.rs:327-328 | A limit order of either side whose token vault holds more than its input never executes, over any run |
| Stranded.JammedLimitCancel | programs/fund_contract/src/instructions/cancel_limit_order.rs:24-86 | Exactly when such an order can be cancelled, with another account only, and the whole ledger after it: all lamports and the rents back, the slot free, the wrapped SOL left behind |
| UnusedVaults.LooseStays | programs/fund_contract/src/instructions/create_limit_order.rs:36-45 | What lies at a vault address of an issued id without a record stays there over any run |
| UnusedVaults.ReachableAllInEscrow | programs/fund_contract/src/instructions/create_limit_order.rs:141-154 | In every reachable ledger nothing lies at the vaults of an order with a record but what its escrow counts |
| OrderTerms.CreateLimitIff | programs/fund_contract/src/instructions/create_limit_order.rs:12-246 | Exactly when a limit order can be created, every condition written out, and the whole ledger after it: the record with its terms, the counters, the moved input |
| OrderTerms.CreateDcaIff | programs/fund_contract/src/instructions/create_dca_order.rs:14-237 | The same for a DCA order, with fewer than 20 active among the conditions and the first execution one interval ahead |
| OrderTerms.ExecuteLimitIff | programs/fund_contract/src/instructions/execute_limit_order.rs:19-353 | Exactly when a limit order is executed: keeper, open, in time, prices there, the rescaled price at its limit, a computable quote, an output of at least the order's minimum and the quote less the tolerated part rounded up, an escrow that holds just the input and ends without it, sums that fit; and the whole ledger after it |
| OrderTerms.ExecuteDcaIff | programs/fund_contract/src/instructions/execute_dca_order.rs:19-361 | The same for a slice of a DCA order, which must be due; the last slice completes the order, frees its counter slot and sweeps its vaults |
| OrderTerms.SwapOutIff | programs/fund_contract/src/instructions/execute_limit_order.rs:216-342 | The swap alone: the least output as the expectation less the tolerated part rounded up, both minimums, and what the escrow holds before and after, for either side |
| OrderTerms.ReachedIff | programs/fund_contract/src/instructions/execute_limit_order.rs:60-71 | The trigger as inequalities between the price, the limit and a power of ten, with the exponents for which it can be decided |
| OrderTerms.CancelLimitIff | programs/fund_contract/src/instructions/cancel_limit_order.rs:11-153 | Exactly when a limit order is cancelled and the whole ledger after it, what stays behind at the vault of its other kind included |
| OrderTerms.CancelDcaIff | programs/fund_contract/src/instructions/cancel_dca_order.rs:11-166 | The same for a DCA order, whose record stays |
| UnusedVaults.BlockedUntilAnother | programs/fund_contract/src/instructions/create_limit_order.rs:141-154 | While something waits at the next token vault address, every creation that would use it is refused, after any run in which no order was created |
| UnusedVaults.OneUnitBlocks | programs/fund_contract/src/instructions/create_dca_order.rs:141-153 | A credit of one unit by anyone succeeds and blocks those creations |
| UnusedVaults.AnotherFrees | programs/fund_contract/src/instructions/create_limit_order.rs:36-39 | A creation with another vault that succeeds moves the id on, and then only what lies at the new address blocks |
| Stranded.OneUnitJams | programs/fund_contract/src/instructions/execute_limit_order.rs:295-296 | A credit of one unit by anyone succeeds and makes an open BUY order of either kind one with wrapped SOL in its token vault |
| Stranded.ResidueStays | programs/fund_contract/src/instructions/execute_limit_order.rs:216-244 | What an executed BUY leaves in its SOL vault is nothing exactly when the vault held just the input, and no later run lowers it |
| Pooling.NavWithinOneLamportPerSellOrder | programs/fund_contract/src/instructions/deposit.rs:317-446 | With k open SELL orders the exact value is at most k lamports below that of each mint pooled in one vault, and never above it |
| Valuation.NavChange | programs/fund_contract/src/instructions/deposit.rs:232-446 | The exact value changes by exactly what the changed vault, mint and order are worth |
| Slippage.LimitSellLoss | programs/fund_contract/src/instructions/execute_limit_order.rs:309-340 | A limit SELL costs the fund at most the tolerated part, rounded up, of what the escrow was worth, and what a cast of that worth drops |
| Slippage.LimitBuyLoss | programs/fund_contract/src/instructions/execute_limit_order.rs:216-308 | A limit BUY costs the fund at most the tolerated part of the input, the price of two base units, what a cast of the expected output drops, and the residue stranded in the order's SOL vault |
| Slippage.DcaSellLoss | programs/fund_contract/src/instructions/execute_dca_order.rs:277-299 | A SELL slice costs at most what a sale may and one lamport, plus at completion what stays in the token vault |
| Slippage.DcaBuyLoss | programs/fund_contract/src/instructions/execute_dca_order.rs:255-276 | A BUY slice costs at most what a purchase may; completion sweeps the rest |
| Slippage.BuyLoss | programs/fund_contract/src/instructions/execute_limit_order.rs:278-294 | The three nested floors of a BUY check lose at most the tolerated part and two base units together |
| Costs.RunLosesAtMostCosts | programs/fund_contract/src/lib.rs:94-293 | Over any run of any instructions at fixed prices the exact value falls, beside what was paid out or lent and counting what came in, by at most the sum of a cost per instruction: one lamport to open a SELL order, slippage and stranded residue to execute, what a rebalance may lose, what is in escrow of a delisted mint or of a SELL order refunded to another account, nothing for all others |
| Costs.ListingNav | programs/fund_contract/src/instructions/add_token.rs:143-227 | Listing a mint adds, and delisting it takes away, exactly the worth of its vault and of the open SELL orders of both kinds that hold it |
| Oracle.SlippageLoss | programs/fund_contract/src/instructions/execute_limit_order.rs:403-415 | The minimum the guard accepts is the expectation less the tolerated part rounded up |
| LimitOrders.ExecutionHonoursCreation | programs/fund_contract/src/instructions/execute_limit_order.rs:34-71 | Whatever ran since the creation, an execution honours the creation's limit, expiry and minimum output at the price of the feed the mint was listed with |
| LimitOrders.NotTriggeredIff | programs/fund_contract/src/instructions/execute_limit_order.rs:60-71 | An order that may execute is turned away as not triggered if and only if the exact price has not reached its limit |
| LimitOrders.LimitTermsKept | programs/fund_contract/src/instructions/create_limit_order.rs:47-60 | The terms of a limit order never change |
| DcaOrders.DcaScheduleFromCreation | programs/fund_contract/src/instructions/execute_dca_order.rs:187-319 | After any run with k executions: remaining = total - min(total, k slices), next execution k + 1 intervals after the creation, executed exactly from k = ceil(total / slice), and the escrow of an open order covers what remains |
| DcaOrders.DcaSchedule | programs/fund_contract/src/instructions/execute_dca_order.rs:303-319 | The schedule in closed form from any fresh order, whatever else the run did |
| DcaOrders.DcaTiming | programs/fund_contract/src/instructions/execute_dca_order.rs:35-38 | Each execution is on or after its place in the schedule, never after a non-zero expiry, and delivers the minimum |
| DcaOrders.DcaRate | programs/fund_contract/src/instructions/execute_dca_order.rs:38 | By time t at most floor((t - created) / interval) slices have run, catch-up included |
| DcaOrders.CompletedDcaDelivered | programs/fund_contract/src/instructions/execute_dca_order.rs:255-312 | A completed order has delivered at least ceil(total / slice) times its minimum output |
| DcaOrders.ExecuteDcaSlice | programs/fund_contract/src/instructions/execute_dca_order.rs:187-319 | One execution: the slice taken, the schedule advanced and the output received by the fund's vault |
| Oracle.TokenSolTokenRoundTrip | programs/fund_contract/src/instructions/rebalance_strategy.rs:422-494 | Token to SOL and back never gains and loses at most the rounded-up price of one lamport in tokens, for all exponent signs |
| Oracle.SolTokenSolRoundTrip | programs/fund_contract/src/instructions/rebalance_strategy.rs:422-494 | SOL to token and back never gains and loses at most the rounded-up price of one base unit |
| Oracle.TokenValueIsFloor | programs/fund_contract/src/instructions/deposit.rs:451-488 | A valuation that succeeds is the floor at one exact rate, cast to 64 bits, in both exponent branches |
| Oracle.ExpectedTokenOutIsFloor | programs/fund_contract/src/instructions/rebalance_strategy.rs:459-494 | The inverse conversion is the floor at exactly the reciprocal rate, in all exponent branches |
| Oracle.RatesAreReciprocal | programs/fund_contract/src/instructions/rebalance_strategy.rs:422-494 | The two conversions use reciprocal rates whatever the exponent signs |
| Oracle.FloorSplits | programs/fund_contract/src/instructions/deposit.rs:451-488 | Splitting an amount loses at most one lamport of value and never gains |
| Oracle.ValueOfPart | programs/fund_contract/src/instructions/deposit.rs:451-488 | If an amount can be valued so can any part of it, for no more |
| Oracle.SellTriggerExact | programs/fund_contract/src/instructions/execute_limit_order.rs:67-69 | A SELL trigger holds if and only if the exact price is at least the limit |
| Oracle.BuyTriggerExact | programs/fund_contract/src/instructions/execute_limit_order.rs:64-66 | A BUY trigger holds if and only if the exact price is at most the limit when no digits are dropped, below one unit above it otherwise; and it is the exact comparison exactly when no digits are dropped, the price divides evenly or its floor is not the limit |
| Oracle.BuyTriggerAboveLimit | programs/fund_contract/src/instructions/execute_limit_order.rs:64-66 | The failing case: a BUY order fires half a unit above its limit |
| Oracle.CheckedPow10Range | programs/fund_contract/src/instructions/execute_limit_order.rs:395-401 | The power of ten succeeds exactly when it fits 128 bits, that is for exponents up to 38 |
| Oracle.Pow10I128 | programs/fund_contract/src/instructions/deposit.rs:490-496 | The checked loop computes the power of ten or fails past exponent 38 |
| Oracle.TokenValueInLamports | programs/fund_contract/src/instructions/deposit.rs:451-488 | The in-place conversion computes the valuation the theorems are about, error cases included |
| Oracle.ExpectedTokenOutFromSol | programs/fund_contract/src/instructions/rebalance_strategy.rs:459-494 | The same for the inverse conversion |
| Oracle.ScalePriceTo | programs/fund_contract/src/instructions/execute_limit_order.rs:380-393 | The same for rescaling a price to the exponent of the limit |
| OracleRanges.TokenValueIff | programs/fund_contract/src/instructions/deposit.rs:451-488 | Exactly when a valuation succeeds, as bounds on the products and exponents, and that it is then the cast floor |
| OracleRanges.ExpectedTokenOutIff | programs/fund_contract/src/instructions/rebalance_strategy.rs:459-494 | The same for the expected output of a purchase, at the reciprocal rate |
| OracleRanges.ScalePriceIff | programs/fund_contract/src/instructions/execute_limit_order.rs:380-393 | Exactly when a price can be rescaled, and the result: exact upwards, the floor downwards |
| OracleRanges.RateIsPriceRatio | programs/fund_contract/src/instructions/deposit.rs:451-488 | The rate is the ratio of the two prices for one base unit in lamports, with every power of ten written out |
| OracleRanges.SlippageIff | programs/fund_contract/src/instructions/execute_limit_order.rs:403-415 | The guard works exactly up to 10000 basis points and gives the expectation less the tolerated part rounded up |
| Transactions.TransactionEndsUnlocked | programs/fund_contract/src/instructions/borrow_for_swap.rs:69-107 | A transaction of any instructions, calls from other programs included, that starts unlocked and commits ends unlocked |
| Transactions.UnlockedBetweenTransactions | programs/fund_contract/src/instructions/settle_swap.rs:53-76 | The fund is unlocked between transactions, whatever was attempted |
| Transactions.ScanFindsFirstSettle | programs/fund_contract/src/instructions/borrow_for_swap.rs:69-102 | The forward scan succeeds exactly when there is a later settle and the first one begins with the expected accounts |
| Transactions.BorrowSettlePair | programs/fund_contract/src/instructions/settle_swap.rs:53-76 | Whatever ran in between, a matched pair ends with the vault exactly the borrowed amount lower, the output vault at least the minimum higher, and the record cleared |
| Transactions.BorrowRecordKept | programs/fund_contract/src/instructions/borrow_for_swap.rs:104-109 | While the fund is locked nothing but a settle changes the record of the borrow |
| FundTerms.BorrowIff | programs/fund_contract/src/instructions/borrow_for_swap.rs:14-125 | Exactly when a borrow is accepted and the whole ledger after it: the first later settle is for the fund's seven accounts, the amount moves to the manager, the record holds both snapshots |
| FundTerms.SettleIff | programs/fund_contract/src/instructions/settle_swap.rs:10-79 | Exactly when a settle is accepted: its accounts, the vault exactly at its snapshot less the loan, the output vault at least the minimum above its own; and only the record changes |
| Rebalancing.StrategyNavIsFundNav | programs/fund_contract/src/instructions/rebalance_strategy.rs:40-162 | For a strategy fund of fewer than 256 tokens the sum over the allocations is the sum over the holdings and what `compute_nav_lamports` returns on any list |
| Rebalancing.StrategyNavIff | programs/fund_contract/src/instructions/rebalance_strategy.rs:40-162 | In every sound ledger the strategy's NAV is the fund's less the vaults of the listed mints it does not allocate, whose number is the records less the low 8 bits of the counter; the two agree if and only if those vaults are worth nothing |
| Rebalancing.RebalanceNeverOvershoots | programs/fund_contract/src/instructions/rebalance_strategy.rs:164-369 | With goal and threshold given by their inequalities as basis points of the NAV: a trade happens only beyond the threshold; buying the expected output for the whole gap stays at or below the goal, but for what the cast of the position had dropped, and the fund gets that output but for the tolerated part and at least the keeper's minimum; a sale brings at least that minimum and leaves at least the goal less the rounded-up price of two base units |
| Rebalancing.RebalancesAreSpaced | programs/fund_contract/src/instructions/rebalance_strategy.rs:68-73 | Two rebalances of a run are at least the cooldown apart |
| Rebalancing.BuyingStaysBelow | programs/fund_contract/src/instructions/rebalance_strategy.rs:233-308 | Buying the floor of what a gap buys adds at most the gap in value |
| Rebalancing.SellingStaysAbove | programs/fund_contract/src/instructions/rebalance_strategy.rs:309-350 | Selling the floor of a gap and some dust leaves the value less the gap and the rounded-up price of the dust |
| Rebalancing.TradeLoss | programs/fund_contract/src/instructions/rebalance_strategy.rs:233-369 | A rebalance costs the SOL vault and the target's vault together at most what a sale of the sold tokens and one lamport, or a purchase for the lamports spent, may cost |
| Rebalancing.RebalanceLoss | programs/fund_contract/src/instructions/rebalance_strategy.rs:233-369 | A rebalance costs the whole fund at most that and what the fund-signed swap took out of the other vaults, whatever the counters |
| Rebalancing.StrategyMatchesWhitelist | programs/fund_contract/src/instructions/set_strategy.rs:20-76 | With an exact counter a strategy allocates exactly the fund's whitelist, and its table holds the given allocations, each mint with its own weight, in their order |
| FundTerms.SetStrategyIff | programs/fund_contract/src/instructions/set_strategy.rs:14-79 | Exactly when a strategy is accepted, every condition written out, and the whole ledger after it: allocation i is stored at i and the rest of the table is empty |
| RebalanceTerms.RebalanceIff | programs/fund_contract/src/instructions/rebalance_strategy.rs:21-373 | Exactly when a rebalance is accepted and the whole ledger after it: keeper, cooldown, right triplets, a distance from the goal above the threshold, and a purchase or sale that is right |
| RebalanceTerms.SurveyIff | programs/fund_contract/src/instructions/rebalance_strategy.rs:103-162 | The triplets the pass over the allocations accepts, and the NAV it sums |
| RebalanceTerms.BuyTargetIff | programs/fund_contract/src/instructions/rebalance_strategy.rs:233-308 | Exactly when a purchase is right: the lamports are there, the output reaches both the keeper's minimum and the quote less the tolerated part |
| RebalanceTerms.SellTargetIff | programs/fund_contract/src/instructions/rebalance_strategy.rs:309-369 | Exactly when a sale is right: at most the lot and two units are sold, for at least the keeper's minimum and the quote of what was sold less the tolerated part |
| RebalanceTerms.RebalanceUsesGivenWeight | programs/fund_contract/src/instructions/rebalance_strategy.rs:164-183 | Whatever ran since the strategy was set, a rebalance of a mint aims at the weight the manager gave for that mint and trades beyond the threshold the manager gave |
| Whitelist.AddTokenNav | programs/fund_contract/src/instructions/add_token.rs:143-227 | Listing a mint no order holds adds exactly the value of the fund's vault of that mint |
| Whitelist.RemoveTokenNav | programs/fund_contract/src/instructions/remove_token.rs:99-110 | Delisting a mint no order holds leaves the NAV unchanged: its vault had to be empty |
| FundTerms.AddTokenIff | programs/fund_contract/src/instructions/add_token.rs:90-233 | Exactly when a mint is listed, and the ledger after it |
| FundTerms.RemoveTokenIff | programs/fund_contract/src/instructions/remove_token.rs:47-116 | Exactly when a mint is delisted, and the ledger after it, whether or not the record was there |
| Invariants.CheckedAllocations | programs/fund_contract/src/instructions/set_strategy.rs:37-47 | Accepted allocations have positive weights and distinct mints |
| Refusals.DepositRefused | programs/fund_contract/src/instructions/deposit.rs:22-59 | A deposit is refused as too small, or as buying no share, exactly in the case the error names |
| Refusals.WithdrawRefused | programs/fund_contract/src/instructions/execute_withdraw.rs:23-79 | A payout is refused as too early, or for want of lamports, exactly in the case the error names |
| Refusals.RequestRefused | programs/fund_contract/src/instructions/request_withdraw.rs:9-28 | A request is refused as empty, or as above the investor's shares, exactly in the case the error names |
| Refusals.CreateDcaRefused | programs/fund_contract/src/instructions/create_dca_order.rs:23-38 | A DCA order is refused for its slice, its interval or the number of active orders exactly if that is the first thing wrong, the last of them from 20 active orders on |
| Refusals.ExecuteLimitRefused | programs/fund_contract/src/instructions/execute_limit_order.rs:23-40 | The keeper finds a limit order closed or expired exactly if it is |
| Refusals.ExecuteDcaRefused | programs/fund_contract/src/instructions/execute_dca_order.rs:23-38 | The keeper finds a DCA order closed, expired or not due exactly if it is |
| Refusals.BorrowRefused | programs/fund_contract/src/instructions/borrow_for_swap.rs:19-102 | A borrow finds the fund locked exactly if it is, misses the settle exactly if none follows and finds it invalid exactly if the first one is not for the fund's accounts |
| Refusals.RemoveTokenRefused | programs/fund_contract/src/instructions/remove_token.rs:72-98 | A mint whose vault holds anything cannot be delisted, and only the manager is told so |
| Handlers.FindSettle | programs/fund_contract/src/instructions/borrow_for_swap.rs:82-102 | The scan loop finds what the recursive scan finds, with the same errors |
| Handlers.CheckWeights | programs/fund_contract/src/instructions/set_strategy.rs:37-47 | The validation loop accepts exactly positive weights and distinct mints and returns the sum of the weights |
| Handlers.CheckWhitelisted | programs/fund_contract/src/instructions/set_strategy.rs:54-61 | The whitelist loop accepts exactly the fund's records in the order of the allocations |
| Handlers.FillTable | programs/fund_contract/src/instructions/set_strategy.rs:66-72 | The cleared and refilled array has allocation i at i and empty entries after them |
| Handlers.SurveyAllocations | programs/fund_contract/src/instructions/rebalance_strategy.rs:103-162 | The loop computes the strategy's NAV and finds the target's position |
| Handlers.MoveToEscrow | programs/fund_contract/src/instructions/create_limit_order.rs:165-239 | Moving the input: the escrow and the fund's vaults afterwards, or the first check that fails |
| Handlers.PayBack | programs/fund_contract/src/instructions/cancel_limit_order.rs:24-136 | Giving back a cancelled order's input and closing its token account, derived or other: balances afterwards, or the first check that fails |
| Handlers.TryCloseLimit | programs/fund_contract/src/instructions/cancel_limit_order.rs:14-152 | The checks of a cancel in their order, the balances, the counter and what stays at the addresses of the closed record |
| Handlers.TryCloseDca | programs/fund_contract/src/instructions/cancel_dca_order.rs:14-165 | The same for a DCA order, which keeps its record |
| Handlers.TryOpenLimit | programs/fund_contract/src/instructions/create_limit_order.rs:21-60 | The checks in their order, the order record with its terms, and the counters |
| Handlers.TryOpenDca | programs/fund_contract/src/instructions/create_dca_order.rs:23-69 | The same for a DCA order, with its first execution time |
| Handlers.TryBuy | programs/fund_contract/src/instructions/rebalance_strategy.rs:233-308 | Wrapping, swapping and checking of a purchase in a rebalance |
| Handlers.TrySell | programs/fund_contract/src/instructions/rebalance_strategy.rs:309-369 | Sizing, swapping and checking of a sale in a rebalance |
| Handlers.SwapEscrow | programs/fund_contract/src/instructions/execute_limit_order.rs:216-342 | Wrapping, swapping and checking: the escrow and fund balances afterwards, or the first check that fails |
| FundProgram.Fund.Deposit | programs/fund_contract/src/instructions/deposit.rs:18-116 | The handler ends as its step function says, or with its error and nothing changed |
| FundProgram.Fund.ExecuteWithdraw | programs/fund_contract/src/instructions/execute_withdraw.rs:10-117 | The same for a payout; the request is closed |
| FundProgram.Fund.RequestWithdraw | programs/fund_contract/src/instructions/request_withdraw.rs:9-28 | The same for a request, which overwrites an earlier one |
| FundProgram.Fund.CancelWithdraw | programs/fund_contract/src/instructions/cancel_withdraw.rs:8-20 | The same for cancelling a request |
| FundProgram.Fund.AddToken | programs/fund_contract/src/instructions/add_token.rs:90-233 | The same for listing a mint |
| FundProgram.Fund.RemoveToken | programs/fund_contract/src/instructions/remove_token.rs:47-116 | The same for delisting a mint, whether or not its record exists |
| FundProgram.Fund.CreateLimit | programs/fund_contract/src/instructions/create_limit_order.rs:12-246 | The same for creating a limit order |
| FundProgram.Fund.ExecuteLimit | programs/fund_contract/src/instructions/execute_limit_order.rs:19-353 | The same for executing a limit order |
| FundProgram.Fund.CancelLimit | programs/fund_contract/src/instructions/cancel_limit_order.rs:11-153 | The same for cancelling a limit order |
| FundProgram.Fund.CreateDca | programs/fund_contract/src/instructions/create_dca_order.rs:14-237 | The same for creating a DCA order |
| FundProgram.Fund.ExecuteDca | programs/fund_contract/src/instructions/execute_dca_order.rs:19-361 | The same for executing a slice |
| FundProgram.Fund.CancelDca | programs/fund_contract/src/instructions/cancel_dca_order.rs:11-166 | The same for cancelling a DCA order |
| FundProgram.Fund.Borrow | programs/fund_contract/src/instructions/borrow_for_swap.rs:14-125 | The same for borrowing |
| FundProgram.Fund.Settle | programs/fund_contract/src/instructions/settle_swap.rs:10-79 | The same for settling |
| FundProgram.Fund.SetStrategy | programs/fund_contract/src/instructions/set_strategy.rs:14-79 | The same for setting the strategy |
| FundProgram.Fund.Rebalance | programs/fund_contract/src/instructions/rebalance_strategy.rs:21-373 | The same for rebalancing |
| FundProgram.Fund.Execute | programs/fund_contract/src/lib.rs:94-293 | Any instruction on the accounts does what the step relation says |
| FundProgram.InitializeFund | programs/fund_contract/src/instructions/initialize_fund.rs:10-121 | A new fund's accounts are the initial ledger |

## Left out

- Account framework: seeds and bumps, owners, discriminators, serialization and account sizes; a wrong account is `AccountError`, a refused transfer `InsufficientFunds`, and the order among such account checks is not kept.
- Rents and account creation, except the rents that end up in a vault; the rent-exempt minimum of vaults is not enforced.
- Oracle decoding: staleness, confidence and owners are one partial map from feeds to positive prices, fixed during an instruction.
- The swap program and the flags of the accounts passed to it; a swap is an arbitrary outcome within the frame above.
- The balances of the fund's token accounts other than the derived ones: where a handler accepts one (`other`), it is assumed to hold the input or to take the refund.  The other wrapped-SOL account that a cancel of a limit BUY may close is assumed empty; with anything in it the cancel is refused as with the derived one.
- Global configuration, keeper and global whitelist instructions, and `sweep_wsol`: setters and easy members.  Fees, slippage and prices are read from the environment, which may differ from step to step.
- `manager_fee_bps` and `trade_fee_bps`, which the program stores but does not apply; the `enabled` flag of a record, which is always true.
- Burning share tokens directly through the token program, which would lower the mint's supply without the fund state's total.
- Rollback by the runtime: the handlers of the model make all checks before they write, so a failure changes nothing; the order of error codes between a late check and an earlier write can differ from the program where both fail.
- Lamports lying on a wrapped-SOL vault that its token balance does not count yet: the `sync_native` of a BUY's execution would count them and the execution would fail where the model's succeeds; a cancel does not sync and goes through.
- Lamports sent to the address of a whitelist record that does not exist; closing it would then fail in the runtime (`remove_token.rs:118-121`), where the model's removal succeeds.
- Panics on plain overflow are the error `MathOverflow`.
- The two copies of the conversions in the order handlers and the rebalance handler, and the strategy fund's initialiser, are modelled once: they repeat the same code.
- NavAvailability.NavAvailableIff: assumes that two addresses never have the same bytes, as do `DelistingKeepsNavIff` and `PartialLists.CallerChoosesMints`; and exact counters, with `CallerChoosesMints` for the others.
- ShareAccounting.DepositKeepsPriceIff: where the minted shares are themselves truncated to 64 bits and the exact value does not fit either, the condition is only the comparison of the payment with the shares.
- ShareAccounting.SharePriceNeverFalls: prices are fixed and no trade runs in between; what trades may cost the whole fund is `Costs.RunLosesAtMostCosts`.
- Loans.SharesDoNotGrow: the investors' instructions stand in one stretch at fixed prices; for every interleaving the statement is `LoanBoundsDilution`.
- Costs.RunLosesAtMostCosts: bounds what is lost; the rents that come back and what a swap brings beyond its minimum are not counted as gains.
- Rebalancing.RebalanceNeverOvershoots: the goal is a share of the NAV the handler itself sums, which is the exact value where every valuation fits (`SimpleNavIsExactIff`).
- Rebalancing.StrategyNavIsFundNav: assumes fewer than 256 listed mints and exact counters, as does `RebalanceNeverOvershoots`; `StrategyNavIff` is the exact statement without either.
- Transactions.TransactionEndsUnlocked: assumes that a settle instruction shown for another fund belongs to another fund, that is, that its third account is not this one.
