# Darkbook engine in Dafny

A model of the on-chain engine of Darkbook, a size-private order book for perpetual futures, with
proofs about it. It covers the order book and matching engine, the margin ledger, and the two together.
`dafny verify dfyconfig.toml` checks the whole project.

## What is modelled

**The order book.** Each side is a fixed array of 256 price buckets with four order slots each, kept
sorted by binary search and shifting. Cancels leave tombstones, which are squeezed out on insertion or
reaped on pop. Fills go into a 256-slot ring whose claimed slots are written again. `BookSides.BookSide`
and `OrderBooks.OrderBook` are classes over arrays with the loops of the source; their contracts speak
about the *priority sequence* of live orders (`Levels.View`) and the set of pending fills
(`Ring.Pending`), so the array structure refines one sorted sequence per side, and matching refines a
prefix zip of the two sequences (`Books.MatchBook`). What one side will accept later also depends on its
tombstones; `Shapes` keeps exactly as much of them as matters, so each side refines a small deterministic
machine (`Shapes.Respond`), refusals included.

**The margin ledger.** `Ledger` gives each instruction as a function from a state (market, users,
positions, vault balance) to the next state or an error. `Programs.Program` holds the accounts and runs
the handlers step by step on copies with checked arithmetic, writing back only on success, which is how
account loading and transaction revert behave on Solana; every handler is proved equal to its `Ledger`
function, errors included, to keep the totals in order, and to move the balance of claims and holdings by
nothing but the one bounty described below.

**Runs.** `Lifecycle` and `TimePriority` follow the book over any sequence of operations,
`Conservation`, `Consistency`, `Solvency` and `Funding` the ledger, and `Exchange` both at once, where a
claim takes a pending fill out of the book and opens its pair of positions. Fresh books and markets
satisfy the invariants these runs start from (`Lifecycle.StartInvariant`, `Consistency.GenesisConsistent`,
`Conservation.GenesisBacked`, `Exchange.FreshInvariant`). `Engines` turns a list of commands into a run of
the book by deciding, from the two sides, which placements are refused; the methods of `OrderBook` are
proved to be the steps of that machine. `Scenario` and `BookScenario` hold concrete runs.

| module | file | content |
|---|---|---|
| Types, Accounts | Types.dfy, Accounts.dfy | machine integers, errors, records, collateral arithmetic |
| Levels, Shapes, BookSides | Levels.dfy, Shape.dfy, BookSide.dfy | one side of the book: meaning, invariant, capacity, methods |
| Ring, Books, OrderBooks | Ring.dfy, Books.dfy, OrderBook.dfy | the ring, the book as a value, the account class |
| Lifecycle, TimePriority, Stalls, Engines | Lifecycle.dfy, TimePriority.dfy, Stall.dfy, Engine.dfy | runs of the book |
| Ledger, Programs | Ledger.dfy, Program.dfy | the ledger as functions, the handlers |
| Sums, Frames, Conservation, Consistency, Solvency, Liquidation, Coverage, Funding | Frame.dfy, else same names | theorems about the ledger |
| Exchange | same name | both parts together |
| Scenario, BookScenario | same names | concrete runs, most of them to a state where a promise fails |

## Where the code does not do what it promises

Each of these is stated as the exact condition under which the promise holds, with an input at which it
does not.

- *Conservation.* Vault balance = deposits + loss pool is kept by every instruction except a liquidation
  whose pending funding takes the whole collateral while the price has moved at least 20 micro-units in
  the position's favour: then a bounty leaves the vault that nobody is charged for
  (`Conservation.StepConservesUnlessDrained`). Over any run the shortfall is exactly the sum of those
  bounties, and it never shrinks again. A run from a fresh market that gets there:
  `Scenario.DrainedLiquidation`.
- *Withdrawals.* A withdrawal within the unlocked balance is paid exactly if the vault holds it
  (`Solvency.WithdrawPaid`). The vault holds every deposit as long as the shortfall is within the loss
  pool; a step ends that exactly if the profit, the funding credit or the uncharged bounty it pays is more
  than the pool less the shortfall, a liquidation's loss and funding counted in favour
  (`Coverage.CoverageSurvives`, over runs `Coverage.CoveredAfterRun`). A run from a fresh market after
  which a trader with 1000 unlocked is not paid: `Scenario.UnpaidWithdrawal`.
- *Ring slots.* The ring is described as reusing claimed slots. The settlement instruction marks a fill
  claimed without lowering `fill_count`, and no instruction calls the function that does. Over every run,
  however its claims are made, the count exceeds the number of pending fills by the number of settlements
  (`Lifecycle.CountOverRun`), so it is exact until the first settlement (`Lifecycle.CountExactUntilSettled`),
  and after 256 of them the book never fills again (`Lifecycle.ExhaustedForever`); with the instructions
  alone it stops for good after 256 fills, settled or not (`Lifecycle.OnChainFillLimit`). A run from an
  empty book to a bid and an ask that match and are not filled: `BookScenario.WornOut`. The function that
  lowers the count fails only for id 0 (`Ring.ClaimKeepsRing`; input `BookScenario.ClaimOfNothing`).
- *Time priority.* A batch that ends in a self-match sends both orders to the back of their price level.
  Price-time priority survives an operation exactly unless that happens with company at the price
  (`TimePriority.StepKeepsPriority`). A run in which an order is overtaken: `BookScenario.Overtaken`.
- *Matching goes on.* A call of the engine changes nothing exactly if no pair can be filled and a self-match
  at the top, if there is one, is between orders alone at their prices (`Stalls.BatchIdle`); then no number
  of calls changes anything (`Stalls.StalledForever`), although pairs behind the head may match. A run from
  an empty book to such a pair: `BookScenario.SelfBlocked`.
- *Locked at most deposited.* Kept by everything except exactly a close whose loss exceeds the
  position's collateral plus the owner's unlocked balance (`Solvency.StepKeepsSolvent`; run
  `Scenario.OverdrawingClose`).
- *Liquidation past the threshold.* A liquidation first charges the pending funding. It succeeds exactly if
  that can be charged and, on the collateral it leaves, the loss is past the threshold, the vault holds the
  bounty, the owner's deposit holds what is taken, and the counters have room
  (`Liquidation.LiquidationExact`). So a position is out of everyone's reach, at every mark, while it owes
  more funding than it has collateral (`Liquidation.Unreachable`; run with every balance in order:
  `Scenario.OverdueFunding`) and while it is owed more than the pool holds (`Scenario.UnfundedCredit`), and
  out of reach once an overdrawing close has left its owner's deposit too small
  (`Scenario.OverdrawingClose`).
- *Comments that differ from the code.* `locked_amount` is described as covering open orders too; it
  covers positions only, since placing an order locks nothing. Funding indexes are described as scaled by
  10^9; they are in basis points. Settlement is described as comparing with the commitment stored in the
  order; it compares two of its own arguments. The code is what is modelled.

That `update_funding` may be called on any schedule holds without exception in every market reached from its
start, as long as 2000 times the market's age in seconds fits 64 bits (`Exchange.UpdatesNeverOverflow`), some
146 million years. That a bound is needed is shown at the end of the clock (`Scenario.LateUpdate`).

## Model

| member | source | states |
|---|---|---|
| `BookSides.BSearchLevels` | programs/darkbook/src/state.rs:597-619 | finds the level at the price, or the point with every better level before it and every worse one behind |
| `BookSides.CompactLevel` | programs/darkbook/src/state.rs:622-638 | the bucket becomes its live orders in order followed by zeroed slots, and the count returned is their number |
| `BookSides.DropLevel` | programs/darkbook/src/state.rs:641-646 | deleting one level shifts the ones behind it and zeroes the last; nothing else moves |
| `BookSides.PeekBest` | programs/darkbook/src/state.rs:649-665 | the price of the first live order of the priority sequence, none exactly if the sequence is empty |
| `BookSides.LiveCount` | programs/darkbook/src/state.rs:668-680 | the length of the priority sequence |
| `BookSides.TakeAt` | programs/darkbook/src/state.rs:445-455 | the order taken is the head of the bucket's queue and the rest is its tail |
| `BookSides.BookSide.InsertOrder` | programs/darkbook/src/state.rs:343-398 | stable insertion behind every order of equal or better price; refused exactly if the level there holds four live orders, or no such level exists and 256 levels are in use, and then nothing changes; representation invariant kept; orders and level ends as in the abstract side |
| `BookSides.BookSide.PopBest` | programs/darkbook/src/state.rs:411-464 | returns the head of the priority sequence and leaves the tail, through any tombstones and dead levels; afterwards there is room to put the order back; the levels that remain are exactly those of the abstract side |
| `BookSides.BookSide.CancelOrder` | programs/darkbook/src/state.rs:473-492 | deletes that order from the priority sequence and returns its price, leverage and band; exactly its own price gains room; id 0 changes nothing |
| `BookSides.BookSide.RemoveOrder` | programs/darkbook/src/state.rs:495-525 | the same effect on the priority sequence as the lazy cancel, in a side that is leaner: no more levels, none of them ending in a tombstone where the cancelled side has none; never refuses an insertion that was accepted before |
| `BookSides.BookSide.BestPrice` | programs/darkbook/src/state.rs:570-577 | a price exactly when a pop would return an order, and that order's price |
| `BookSides.BookSide.LiveOrderCount` | programs/darkbook/src/state.rs:580-587 | the number of live orders |
| `BookSides.BookSide.FindOrder` | programs/darkbook/src/ix/orders.rs:213-231 | the first live order with the id, or none; for id 0 a zeroed order exactly if some used slot is a tombstone |
| `Levels.InsertIntoLevel` | programs/darkbook/src/state.rs:362-377 | appending to the queue of the order's level is stable insertion into the whole sequence |
| `Levels.InsertNewLevel` | programs/darkbook/src/state.rs:383-395 | opening a level at the insertion point is stable insertion into the whole sequence |
| `Levels.DropSlot` | programs/darkbook/src/state.rs:483-487 | clearing the first slot with the id deletes exactly that order from the sequence |
| `Levels.ViewSorted` | programs/darkbook/src/state.rs:292-295 | the sequence of a well-formed side is sorted by price and free of tombstones |
| `Shapes.RoomIsAccepts` | programs/darkbook/src/state.rs:362-381 | an insertion is accepted exactly if fewer than four live orders are at the price or, where no level has it, fewer than 256 levels are in use |
| `Shapes.LeanerServesMore` | programs/darkbook/src/state.rs:466-525 | over every later list of insertions, pops and cancels, the side after a hard remove accepts whatever the side after the lazy cancel accepts, and gives the same answers |
| `Shapes.EqualViewsEqualFutures` | programs/darkbook/src/state.rs:466-525 | any two sides with the same live orders answer alike every list of operations for which both have room |
| `Ring.FreeSlotExists` | programs/darkbook/src/state.rs:534-546 | fewer than 256 pending fills leave a slot that may be written |
| `Ring.PushSlot` | programs/darkbook/src/state.rs:536-543 | writing the next fill into a free slot adds it to the pending fills, loses none and keeps ids distinct |
| `Ring.ClaimKeepsRing` | programs/darkbook/src/state.rs:562-567 | a claim takes out exactly the named fill and keeps pending at most counted; it fails to exactly for id 0 on a never-used slot when count and pending agree |
| `OrderBooks.OrderBook.PushFill` | programs/darkbook/src/state.rs:528-548 | succeeds exactly if fewer than 256 fills are counted, in the first free slot cyclically from the cursor, never over a pending fill |
| `OrderBooks.OrderBook.FindFill` | programs/darkbook/src/state.rs:551-559 | the first unclaimed slot with the id |
| `OrderBooks.OrderBook.ClaimFill` | programs/darkbook/src/state.rs:562-567 | ring, count and answer after a claim, including the marked slot when the count is already zero; for an id other than 0 the claim of the machine |
| `OrderBooks.OrderBook.MarkClaimed` | programs/darkbook/src/ix/settlement.rs:89 | the settlement claim marks that one slot, which takes the fill out of the pending ones, and keeps the count |
| `OrderBooks.OrderBook.constructor` | programs/darkbook/src/ix/admin.rs:92-114 | a fresh book is valid and empty, with both counters at 1 and no level in use |
| `OrderBooks.OrderBook.PutBack` | programs/darkbook/src/matching_engine.rs:48-54 | both orders of a self-match are put back, each by stable insertion, without fail |
| `OrderBooks.OrderBook.RecordFill` | programs/darkbook/src/matching_engine.rs:60-81 | the push of a new fill is never refused, so the branch that puts the pair back is dead; fails exactly when the id counter is exhausted, with the fill pushed and the counter unmoved |
| `OrderBooks.OrderBook.MatchStep` | programs/darkbook/src/matching_engine.rs:13-85 | one call is `MatchBook`: the longest matching prefix of the two sequences within the batch and ring limits, and the number of rounds is returned; the levels left are those of the machine; when the ids run out, the book at the failing round |
| `OrderBooks.OrderBook.MatchOrders` | programs/darkbook/src/ix/matching.rs:13-59 | after the pause and delegation checks the lookup of the batch's fills never fails and yields exactly the batch in order; the book afterwards in every case |
| `OrderBooks.OrderBook.PlaceOrder` | programs/darkbook/src/ix/orders.rs:34-122 | succeeds exactly if unpaused, with a positive price, a leverage up to the maximum, 10, 100, 1000 or 10000 lots' collateral unlocked, an id left and room on the side, and answers with the error of the first test that fails; on success an order with just these fields under the next id at the back of its price level, on failure the book as before; past the checks, the machine's own decision |
| `OrderBooks.OrderBook.CancelOrder` | programs/darkbook/src/ix/orders.rs:126-171 | result with its exact error, for id 0 as well; where ids are distinct it succeeds exactly if some live order on either side has the id and the opened commitment and leverage, and then exactly that order is gone; on failure the book as before |
| `OrderBooks.OrderBook.SidesSorted` | programs/darkbook/src/state.rs:292-295 | both sides of a valid book are sorted and free of tombstones |
| `Books.MatchRounds` | programs/darkbook/src/matching_engine.rs:16-54 | the largest number of leading pairs, up to the cap, that all cross with two different traders |
| `Books.MatchRoundsUnique` | programs/darkbook/src/matching_engine.rs:16-54 | no other number has these properties |
| `Books.RoundsExact` | programs/darkbook/src/matching_engine.rs:16-54 | the fills of one call: the longest prefix of at most 32 pairs, and of at most what 256 less the count allows, in which the bid's price reaches the ask's and the traders differ; and no other number |
| `Lifecycle.BatchShape` | programs/darkbook/src/matching_engine.rs:56-73 | fill i pairs the i-th best bid as taker with the i-th best ask as maker, at the ask's price, which the bid reaches, under consecutive ids, with two different traders |
| `Lifecycle.BatchMoves` | programs/darkbook/src/matching_engine.rs:35-81 | a batch moves the ids of its pairs, and no others, from the book to the fills |
| `Lifecycle.StepKeepsInvariant` | programs/darkbook/src/state.rs:284-306 | every operation keeps the account of orders and fills |
| `Lifecycle.ExactlyOnce` | programs/darkbook/src/ix/orders.rs:79-106 | over every run each id handed out is live, cancelled or in one fill, once in all; other ids are nowhere; no fill is claimed twice |
| `Lifecycle.OnChainFillLimit` | programs/darkbook/src/ix/settlement.rs:89 | over every run of instructions the count is the number of fills ever made, at most 256, after which matching never fills again |
| `Lifecycle.CountOverRun` | programs/darkbook/src/ix/settlement.rs:89 | over every run, however claims are made, the count exceeds the pending fills by the number of settlements; at most 256 settlements in all |
| `Lifecycle.CountExactUntilSettled` | programs/darkbook/src/state.rs:562-567 | the count is the number of pending fills exactly in the runs without a settlement |
| `Lifecycle.ExhaustedForever` | programs/darkbook/src/state.rs:528-531 | after 256 settlements no run makes another fill |
| `Lifecycle.InMemoryCountExact` | programs/darkbook/src/state.rs:562-567 | when claims use `OrderBook::claim_fill` the count is always the number of pending fills |
| `BookScenario.WornOut` | programs/darkbook/src/matching_engine.rs:16-19 | a run of 256 settled trades from an empty book, after which a matching bid and ask are not filled |
| `BookScenario.ClaimOfNothing` | programs/darkbook/src/state.rs:551-567 | claiming id 0 lowers the count while the one fill still waits |
| `Lifecycle.MatchUncrosses` | programs/darkbook/src/matching_engine.rs:16-33 | after a batch that hit no limit and no self-match no bid reaches any ask |
| `Stalls.BatchIdle` | programs/darkbook/src/matching_engine.rs:48-54 | a batch changes nothing exactly if no pair can be filled and a self-match at the top, if any, is between orders alone at their prices |
| `Stalls.StalledForever` | programs/darkbook/src/matching_engine.rs:16-54 | then no number of calls of the engine changes the book |
| `BookScenario.SelfBlocked` | programs/darkbook/src/matching_engine.rs:48-54 | a run from an empty book to a pair that matches and that no number of calls fills |
| `Engines.ObeyedIsRun` | programs/darkbook/src/ix/orders.rs:79-106 | the machine that decides refusals by its two sides only makes runs of the book, for every list of commands |
| `Lifecycle.CancelSucceeds` | programs/darkbook/src/ix/orders.rs:136-160 | in every run a cancel passes exactly if some live bid or ask has the id and the opened commitment and leverage, is refused with the error of the first test that fails, and takes exactly that order off its side; the collateral estimate never blocks it |
| `TimePriority.RotateMovesHeadOnly` | programs/darkbook/src/matching_engine.rs:50-54 | a self-match moves the head to the back of its own price level and nothing else |
| `TimePriority.RotateKeepsOrder` | programs/darkbook/src/matching_engine.rs:50-54 | that costs time priority exactly if another order waits at the price |
| `TimePriority.StepKeepsPriority` | programs/darkbook/src/matching_engine.rs:48-54 | an operation keeps both sides in price-time order exactly unless it is a batch ending in such a self-match |
| `TimePriority.PriorityOverRuns` | programs/darkbook/src/state.rs:249-253 | runs without such batches serve by price and then by age |
| `BookScenario.Overtaken` | programs/darkbook/src/matching_engine.rs:50-54 | a run from an empty book after which the younger of two bids at one price is served first |
| `Accounts.CollateralExact` | programs/darkbook/src/ix/settlement.rs:211-223 | the collateral is the exact quotient, or an overflow exactly when that exceeds 64 bits |
| `Programs.Program.DepositCollateral` | programs/darkbook/src/ix/collateral.rs:21-43 | the handler is the ledger's deposit, errors and unchanged state on failure included; like every handler it keeps the totals consistent and claims minus holdings as they were |
| `Programs.Program.WithdrawCollateral` | programs/darkbook/src/ix/collateral.rs:46-76 | the handler is the ledger's withdrawal |
| `Programs.Program.InitializeUser` | programs/darkbook/src/ix/collateral.rs:8-18 | a new account with zero balances, once per owner |
| `Programs.Program.UpdateFunding` | programs/darkbook/src/ix/funding.rs:11-96 | the handler is the ledger's funding update |
| `Programs.AdvanceFunding` | programs/darkbook/src/ix/funding.rs:14-78 | interval count, checked rate and index arithmetic give the closed form of the update |
| `Programs.ApplyDelta` | programs/darkbook/src/ix/positions.rs:509-559 | debit and credit branches are one signed move between pool and the three balances, with the same errors |
| `Programs.SettleClose` | programs/darkbook/src/ix/positions.rs:245-307 | profit and loss branches are one signed move between pool and deposit, with the same errors |
| `Programs.Program.AccrueFunding` | programs/darkbook/src/ix/positions.rs:38-75 | the handler is the ledger's accrual |
| `Programs.Program.LiquidatePosition` | programs/darkbook/src/ix/positions.rs:79-224 | the handler is the ledger's liquidation; claims minus holdings grow by the unfunded bounty only |
| `Programs.Program.ClosePosition` | programs/darkbook/src/ix/positions.rs:227-320 | the handler is the ledger's close |
| `Programs.Program.ClosePositionAndWithdraw` | programs/darkbook/src/ix/positions.rs:325-448 | the handler equals a close followed, for a positive payout, by a withdrawal, in result and final state |
| `Programs.Program.ClaimFill` | programs/darkbook/src/ix/settlement.rs:24-209 | exact result; on success one pending fill leaves the book and its pair opens on the ledger, on failure neither changes |
| `Conservation.StepGap` | programs/darkbook/src/ix/positions.rs:117-206 | deposits + pool − vault changes in every instruction by exactly the unfunded bounty it pays, zero except for drained liquidations |
| `Conservation.RunGap` | programs/darkbook/src/ix/positions.rs:141-157 | over every run the vault is short by exactly the unfunded bounties |
| `Conservation.StepConservesUnlessDrained` | programs/darkbook/src/ix/positions.rs:92-103 | a successful instruction conserves exactly unless it liquidates a position whose funding due is its whole collateral, at a profit of at least 20 |
| `Conservation.RunStaysBacked` | programs/darkbook/src/ix/positions.rs:265-299 | runs without such liquidations keep vault = deposits + pool |
| `Conservation.JudgedLoss` | programs/darkbook/src/ix/positions.rs:117-139 | a liquidated position with collateral has lost more than a fifth of it; the bounty is at most a twenty-fifth |
| `Scenario.DrainedLiquidation` | programs/darkbook/src/ix/positions.rs:119-157 | conservation fails in a run from a fresh market, by a bounty of 2 |
| `Scenario.OrdinaryLiquidation` | programs/darkbook/src/ix/positions.rs:177-210 | in a run from a fresh market, a liquidation that splits 1000 into 300 to the pool, 35 bounty and 665 refund, and conserves |
| `Scenario.OverdrawingClose` | programs/darkbook/src/ix/positions.rs:197-200 | a run from a fresh market in which a close leaves less deposited than locked, and the owner's other position is liquidatable but its liquidation overflows |
| `Scenario.UnpaidWithdrawal` | programs/darkbook/src/ix/positions.rs:135-157 | a run from a fresh market after which a trader's unlocked balance is not in the vault |
| `Scenario.OverdueFunding` | programs/darkbook/src/ix/positions.rs:98-104 | a run from a fresh market, all balances in order, to a position that nobody can liquidate at any mark nor charge |
| `Scenario.UnfundedCredit` | programs/darkbook/src/ix/positions.rs:98-104 | a run from a fresh market in which a position past its threshold cannot be liquidated because its funding credit exceeds the pool |
| `Scenario.LateUpdate` | programs/darkbook/src/ix/funding.rs:24-57 | in a run from a fresh market with an interval of one second, an update that succeeds after one second and overflows at the end of the clock, so that the schedule matters there |
| `Consistency.StepKeepsConsistent` | programs/darkbook/src/ix/settlement.rs:106-193 | every instruction keeps: locked = collateral of the user's open positions, open interest = open sizes per side, mirrored indexes, addresses in order |
| `Consistency.RunStaysConsistent` | programs/darkbook/src/state.rs:126-131 | so does every run |
| `Consistency.NoUnderflow` | programs/darkbook/src/ix/positions.rs:159-182 | the checked subtractions of locked balance and open interest never fail for an open position |
| `Solvency.StepKeepsSolvent` | programs/darkbook/src/ix/positions.rs:287-292 | locked at most deposited is kept exactly unless a close overdraws |
| `Solvency.RunStaysSolvent` | programs/darkbook/src/state.rs:138-140 | runs without overdrawing closes keep every user solvent |
| `Solvency.LiquidationSparesRest` | programs/darkbook/src/ix/positions.rs:190-200 | a liquidation never shrinks what the deposit holds beyond the locked balance |
| `Solvency.WithdrawPaid` | programs/darkbook/src/ix/collateral.rs:46-76 | a withdrawal succeeds exactly if unpaused, within the deposit less the locked balance and in the vault, and moves just the amount; the error of the first test that fails; while deposits are covered they are in the vault |
| `Solvency.WithdrawalsPaid` | programs/darkbook/src/ix/collateral.rs:46-76 | in any unpaused state, a list of withdrawals within the unlocked balances is paid in full exactly if the vault holds the total; while deposits are covered it always is |
| `Solvency.DepositExact` | programs/darkbook/src/ix/collateral.rs:21-43 | a deposit fails only for a missing account, pause, zero, wallet, vault or balance capacity, the last never while deposits are covered, each with its error; it credits exactly the amount and keeps deposits covered |
| `Solvency.AccrueExact` | programs/darkbook/src/ix/positions.rs:38-75 | in a consistent state funding is applied exactly if the position is open, a debit is within the collateral and the owner's deposit, a credit within the pool, and what is paid into has room; the locked balance never stands in the way |
| `Solvency.SolventAccrual` | programs/darkbook/src/ix/positions.rs:38-75 | in a backed state, for a solvent owner, exactly if a debit is within the collateral and a credit within the pool |
| `Solvency.CloseExact` | programs/darkbook/src/ix/positions.rs:227-320 | in a consistent state a close succeeds exactly if unpaused, by the owner, of an open position, with the profit in the pool, the loss within the whole deposit, and room for what is paid into; locked balance and open interest never stand in the way |
| `Solvency.CloseRefused` | programs/darkbook/src/ix/positions.rs:227-299 | and otherwise the error tells which of these failed |
| `Solvency.CloseAndWithdrawExact` | programs/darkbook/src/ix/positions.rs:325-448 | a close with a payout succeeds exactly if the close does and a positive payout is within the deposit then left beyond the locked balance and in the vault; the payout leaves the vault and the deposit |
| `Solvency.BackedClose` | programs/darkbook/src/ix/positions.rs:227-320 | in a backed state pool and deposit always have room |
| `Solvency.CloseSettles` | programs/darkbook/src/ix/positions.rs:265-307 | deposit and profit counter move by the profit, the pool by its negative; the collateral is released |
| `Solvency.PairZeroSum` | programs/darkbook/src/ix/positions.rs:490-507 | of two opposite positions of one size and entry price one gains what the other loses |
| `Solvency.WinnerPaid` | programs/darkbook/src/ix/positions.rs:271-299 | of the pair one claim opened, still open after any run, the half that gains at a mark is paid once the half that loses there has closed, refused only for lack of room in the owner's balance or profit counter, and the pool is back at its value |
| `Solvency.OthersUntouched` | programs/darkbook/src/ix/positions.rs:599-734 | an instruction changes only the accounts of the users it names; a paused market neither pays nor opens nor ends anything |
| `Frames.MarketFrame` | programs/darkbook/src/ix/admin.rs:117-130 | the pause flag becomes what is asked, the limits never change, indexes move by updates only, open interest by claims, liquidations and closes, the pool by accruals, liquidations and closes |
| `Frames.UserFrame` | programs/darkbook/src/ix/collateral.rs:21-76 | deposits and withdrawals leave the locked balance and the profit counter alone, claims the deposit and the counter; the running index moves by one for each side of a claim and never otherwise |
| `Frames.PositionFrame` | programs/darkbook/src/ix/positions.rs:206-210 | owner, side, size, price and leverage of a position never change, and nothing of it but by instructions on it |
| `Ledger.PnlExact` | programs/darkbook/src/ix/positions.rs:490-507 | profit is the exact product, or an overflow exactly when that leaves 64 bits |
| `Liquidation.JudgeExact` | programs/darkbook/src/ix/positions.rs:115-139 | the rounded ratio test accepts exactly when five times the loss exceeds the collateral, or none is left, and the test itself fits 64 bits; the verdict is the exact remainder and its twentieth |
| `Liquidation.HealthyExact` | programs/darkbook/src/ix/positions.rs:130-133 | a position is refused as healthy exactly if it has collateral, the loss is at most a fifth of it and the test fits 64 bits |
| `Liquidation.LiquidatableMonotone` | programs/darkbook/src/ix/positions.rs:130-133 | a mark worse than a liquidatable one is liquidatable, exactly until the loss leaves 64 bits |
| `Liquidation.LiquidationExact` | programs/darkbook/src/ix/positions.rs:79-224 | in a consistent state a liquidation succeeds exactly if unpaused, of an open position with collateral, by another than its owner, the pending funding can be charged and on what that leaves the position is liquidatable, the vault holds the bounty, the deposit holds what leaves it, and pool and profit counter have room |
| `Liquidation.LiquidationRefused` | programs/darkbook/src/ix/positions.rs:79-96 | the error of each of the tests that come first, among them that owners cannot liquidate themselves |
| `Liquidation.Unreachable` | programs/darkbook/src/ix/positions.rs:98-104 | a position whose funding cannot be charged can be liquidated by nobody at any mark |
| `Liquidation.SolventLiquidation` | programs/darkbook/src/ix/positions.rs:79-224 | in a backed state, for a solvent owner, exactly if unpaused, open, by another, with collateral, a debit is within it and a credit within the pool, the position is liquidatable on what is left, a bounty on no collateral is in the vault, and the profit counter has room |
| `Coverage.SlackStep` | programs/darkbook/src/ix/positions.rs:117-206 | exactly what every successful instruction does to the vault balance beyond the deposits, from the state before it |
| `Coverage.CoverageSurvives` | programs/darkbook/src/ix/positions.rs:265-299 | an instruction leaves the deposits covered exactly if it takes no more than the pool less the shortfall |
| `Coverage.CoveredAfterRun` | programs/darkbook/src/ix/positions.rs:141-157 | a run leaves the deposits covered exactly if profits, credits and uncharged bounties took no more than there was, losses and funding included |
| `Liquidation.LiquidationSplits` | programs/darkbook/src/ix/positions.rs:183-210 | collateral = capped loss to the pool + bounty + refund, bounty the rounded-down twentieth of what the loss left |
| `Funding.AccrualExact` | programs/darkbook/src/ix/funding.rs:104-128 | the accrual is the exact truncated payment, or an overflow exactly when notional or payment leave 64 bits |
| `Funding.FundingOverRun` | programs/darkbook/src/ix/positions.rs:38-58 | over any run, what a position pays in k accruals is the payment over the whole window within k − 1 |
| `Funding.ClaimOpensMirrored` | programs/darkbook/src/ix/settlement.rs:118-193 | a claim opens a long for the taker and a short for the maker of one size and price, exact collateral, mirrored indexes |
| `Funding.PairFundingCancels` | programs/darkbook/src/ix/funding.rs:104-128 | funding of the two halves over one window cancels within (j − 1) + (k − 1), exactly for one accrual each |
| `Funding.RateExact` | programs/darkbook/src/ix/funding.rs:33-50 | with open interest in range the cast is exact, the rate is the truncated share of 2000 bps, and the clamp changes nothing |
| `Funding.RateBounded` | programs/darkbook/src/ix/funding.rs:44-50 | whatever the open interest, a rate that is computed is within 2000 bps |
| `Funding.UpdateAdvances` | programs/darkbook/src/ix/funding.rs:24-77 | after an update less than one interval is outstanding, and the indexes moved by the rate per whole interval in opposite directions |
| `Funding.UpdateExact` | programs/darkbook/src/ix/funding.rs:14-72 | an update succeeds exactly if a whole interval has passed and rate and indexes stay within 64 bits |
| `Funding.ScheduleIndependent` | programs/darkbook/src/ix/funding.rs:16-72 | any increasing list of call times, with rejected calls, ends as the last call alone would, exactly unless the indexes would leave 64 bits at the last one and not at another |
| `Exchange.RunLimits` | programs/darkbook/src/ix/funding.rs:33-50 | over every run at most 256 fills, one pair of positions per claimed fill, open interest at most 256 million lots a side, so the rate is always computed and within 2000 bps |
| `Exchange.UpdatesNeverOverflow` | programs/darkbook/src/ix/funding.rs:14-72 | in every reachable market, while 2000 times its age in seconds fits 64 bits, an update succeeds exactly if a whole interval has passed, and the calling schedule makes no difference |
| `Exchange.ClaimExact` | programs/darkbook/src/ix/settlement.rs:36-193 | in a reachable market a pending fill settles exactly for matching accounts, one common size of at most 10, 100, 1000 or 1000000 lots for its band, opened commitments, and collateral of size x price x 100 / leverage within the deposit less the locked balance; no counter or address is in the way |
| `Exchange.ClaimFillRefused` | programs/darkbook/src/ix/settlement.rs:36-42 | the error of each test before the fill is read; the fill settled is the first unclaimed one with the id |

## Left out

- Dashboard, SDK, bots, settler, broadcaster and the other services: network and user-interface code around the engine.
- Delegation, commit and undelegate calls, the Ika and Encrypt bridges: foreign programs. `isDelegated` is a field nothing here sets. `crank_match` is `match_step` without that check and is not repeated.
- Account allocation, seeds, bumps, rent, byte layout and event emission; `match_orders` returns the fills its events describe.
- SHA-256: digests are arguments, compared with commitments exactly where the code compares them.
- Oracle accounts and clock: mark price, slot and time are arguments. An oracle failure is one more failing transaction, which changes nothing.
- Token accounts: the vault account passed is the market's, the recipient is another account, and a transfer fails only for lack of balance or room. The source does not constrain the vault account passed to a liquidation.
- Administrator signature of `set_market_paused`, market fees (stored, never charged), `mark_position` (only logs).
- BookSides.BookSide.InsertOrder: requires a nonzero id. Id 0 is the tombstone mark and ids start at 1; the code would store such an order as a tombstone.
- Exchange.RunLimits: in runs of book and ledger together, and in `Lifecycle.ExactlyOnce`, the answer of the storage to an insertion is an input, so they hold for every answer; the machine that gives the answer itself is `Engines.Engine`.
