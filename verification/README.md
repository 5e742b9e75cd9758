# A verified model of the chain library

This project models five connected parts of the chain library in Dafny and proves what the rest of the
chain relies on. Every source path below is relative to the root of the repository.

1. **Revertible object store and fork switching** (`UndoLog`, `UndoHistory`, `UndoRuns`, `UndoDatabase`,
   `ForkDatabase`, `ChainSpecs`, `Database`, `StuckFork`). A stack of compact undo states is proved to represent a history of whole-store
   snapshots: starting, recording, undoing, merging, committing and popping sessions refine the same operations on
   plain copies of the store, over every run. On top of that stand the fork database, transactions, blocks and the
   switch to a longer fork.
2. **Market engine** (`Prices`, `Sums`, `Books`, `MarketRules`, `MarketSpecs`, `MarginCalls`, `Payments`, `Market`,
   `Positions`, `ForceSettlement`, `SettlementPayments`, `SettlementTurns`, `GlobalSettlement`, `Refunds`, `Bids`,
   `MarketRuns`, `PredictionMarkets`). Limit orders, margin calls, forced and global settlement, collateral bids and
   revival on one record of books. For every asset, what is held minus the supply is proved constant under every
   operation; debt equals supply, settlement funds stay solvent, the resting book is never crossed, every balance
   changes by what it is paid and no more, and positions in prediction markets always have as much collateral as debt.
3. **Issuance and vesting** (`Budget`, `Vesting`).
4. **Witness schedule and irreversibility** (`Schedule`, `Irreversibility`).
5. **Sync synopsis and amount text** (`Synopsis`, `AmountText`).

`Wrappers` and `Commons` hold what several of them share.

How the model is put together:

- An object that the source updates in place is a class or a method that assigns its fields. The functions next to
  it say what each step does; lemmas prove the properties about those functions. `MarketSpecs` holds those of the
  market: matching, margin calls, black swans and global settlement, as functions from the books before to the books
  after, where `None` is an operation that throws. `ChainSpecs` holds those of blocks: the stores they lead to, the
  undo states that stay stacked, the pruning of the fork database, and the outcome of a switch.
- A method of the market whose `ok` is false has thrown. The source undoes the surrounding transaction or block
  then, so nothing is promised about the books; `MarketRuns.Run` restores them.
- `Gap(b, a)` is everything of asset `a` that the books hold (balances, limit orders and deferred fees, collateral,
  settlement orders, bids, settlement funds, accumulated and pending fees) minus its supply. `SameGaps` is
  conservation: a gap is constant whatever other parts of the chain hold. `Core` holds the other invariants of the
  books: positions, settlement orders and bids belong to their assets, an unsettled asset's debt is its supply and
  its fund is empty, and a settled asset's fund is `Solvent`. `RestingBook` says that no two resting orders have
  compatible prices and none asks for nothing.
- `Pays(b, b', receipts)` says that every balance changes by what the receipts give to it, and no other balance
  changes; `At` is an amount on one balance. Who is paid, and how much, is said by accounts and amounts: `RoundsDown(r,
  x, d)` is `r * d <= x < (r + 1) * d`, so that worths and percentages are bounded from both sides.
- Conversions, prices and orders of indexes follow `asset * price` and the comparison of prices
  (libraries/chain/protocol/asset.cpp:32-108): 128-bit multiplication, division that rounds down, an exception above
  the maximum share supply.
- Applying a block or a transaction is a deterministic function of the store that yields work for the undo database;
  that work may throw half way. Signatures, authorities and merkle roots are not part of this model.
- The call price of a position is a function of its debt, its collateral and the maintenance ratio of the current
  feed that is handed in; only its assets and that it is positive are used. Times are natural numbers of seconds.

What the code does that one might not expect, each stated by a member below:

- A failed fork switch is rolled back exactly when the fork head can be rewound past the old branch and, from the old
  head, past as many blocks as applied of the new one, with pruning sparing these, and the undo states for both are
  stacked; otherwise the node is stuck between the branches (`SwitchForks`, `OutcomeOf`). With room for the states of
  the new branch and forks that are deep enough it never gets stuck (`PushBlock`), a failure short of the old branch's
  length only through pruning (`ShortFailureComesBack`), and the first three blocks pushed to a fresh node suffice to
  get stuck (`GetStuck`).
- Nothing moves the fork head up again after a switch: it stays as far below the highest block as the old branch was
  long (`PushBlock`, `HeightAfter`).
- A taker pays for nothing when its remainder is worth less than one unit at the maker's price (`PaysForNothing`).
- Once one limit order was exhausted in a round of margin calls, every later one is left behind after one trade, even
  with something left to sell. A position that is due can so be left without a trade (`StarvingHappens`); whether one
  is follows from the amounts and prices before the round (`ServedUnlessStarved`), and it takes at least two positions
  and two limit orders (`StarvingTakesTwo`).
- A margin call that leaves a limit order a remainder that asks for nothing, before any order was exhausted, leaves
  the iterator at the order that is gone; exactly then, and from books at rest (`CulledInPlace`,
  `CulledInPlaceHappens`).
- A maintenance throws, and with it the block, exactly when a settled asset's price found no collateral, or when a
  bid's share of the fund overflows before the bids ahead of it cover the supply (`ProcessBids`, `UnbackedOverflows`).
- Settling a due order throws, and with it the block, exactly when the order is worth more than the maximum supply at
  the feed, or its asset has a position without collateral (`OpenOrderSettles`).
- The check of a global settlement relies on a position that no longer exists once the asset is settled
  (`PositionExists`).
- The linear vesting policy allows deposits that break its own checks; its documentation says that no funds may be
  added (`LinearDeposit`). Nothing in the repository makes such a deposit: lazy deposits check for the coin-seconds
  policy (libraries/chain/db_balance.cpp:99).
- A vested deposit that creates a coin-seconds balance without a vesting time is not free at once (`CreatedVested`).
- Negative amounts with a fraction are not read back as they were written (`RoundTripExactly`).

## Model

| member | source | states |
|---|---|---|
| UndoLog.RevertIsExact | libraries/db/undo_database.cpp:95-124 | undoing a state that records the change from one store to another gives back the first store, objects and next ids |
| UndoLog.NoteKeepsRecords | libraries/db/undo_database.cpp:47-94 | noting a creation, modification or removal keeps the state a record of the change since the session started |
| UndoLog.MergeFollowsTable | libraries/db/undo_database.cpp:125-244 | the merged entry of every object is what the four by four table says; the cells the table excludes cannot occur |
| UndoLog.MergeRecordsBoth | libraries/db/undo_database.cpp:125-244 | the merge of two adjacent states records the change over both sessions |
| UndoLog.MergeComposes | libraries/db/undo_database.cpp:125-244 | undoing the merged state equals undoing the upper state and then the lower one |
| UndoHistory.StartKeepsHistory | libraries/db/undo_database.cpp:33-46 | a new session keeps the snapshot history if and only if the open sessions fit into the maximum size |
| UndoHistory.RecordKeepsHistory | libraries/db/undo_database.cpp:47-94 | a change to the store keeps every state leading back to its snapshot |
| UndoHistory.UndoRestoresSnapshot | libraries/db/undo_database.cpp:95-124 | undo brings back the newest snapshot and keeps the history below it |
| UndoHistory.MergeForgetsSnapshot | libraries/db/undo_database.cpp:125-244 | merge drops exactly the newest snapshot and leaves the store alone |
| UndoHistory.PopCommitRestoresSnapshot | libraries/db/undo_database.cpp:251-287 | popping a committed state brings back its snapshot |
| UndoHistory.CommitKeepsHistory | libraries/db/undo_database.cpp:245-250 | a committed session stays in the history as one that can be popped |
| UndoHistory.ResizeKeepsHistory | libraries/db/undo_database.cpp:33-46 | changing the maximum size alone never touches the history |
| UndoRuns.RunRefines | libraries/db/undo_database.cpp:33-287 | over every interleaving of changes, starts, undos, merges, commits and pops that stays within the maximum size, the undo log refines a machine of whole-store copies |
| UndoRuns.RunWorkRefinesExec | libraries/db/undo_database.cpp:33-287 | nested work under sessions, where any part may throw, has the result of running it on plain stores and leaves the snapshots of the sessions around it |
| UndoRuns.CloseSession | libraries/chain/db_block.cpp:229-258 | a temporary session that is merged keeps the work, one that is undone leaves store and open snapshots as before |
| UndoRuns.NewestStayStacked | libraries/db/undo_database.cpp:33-46 | nested sessions drop only the oldest states, never the newest ones that fit below them |
| UndoDatabases.UndoDatabase.StartUndoSession | libraries/db/undo_database.cpp:33-46 | pushes an empty state and drops the oldest ones over the maximum size |
| UndoDatabases.UndoDatabase.OnCreate | libraries/db/undo_database.cpp:47-59 | notes the new object and the next id before it, unless disabled |
| UndoDatabases.UndoDatabase.OnModify | libraries/db/undo_database.cpp:60-72 | keeps the first old value of an object that is not new |
| UndoDatabases.UndoDatabase.OnRemove | libraries/db/undo_database.cpp:73-94 | forgets a new object, moves an old value, or keeps the removed object |
| UndoDatabases.UndoDatabase.Undo | libraries/db/undo_database.cpp:95-124 | the four loops give back the store of the newest snapshot |
| UndoDatabases.UndoDatabase.MergeInto | libraries/db/undo_database.cpp:125-244 | the loops over old values, new ids, next ids and removed objects compute the merge of two states |
| UndoDatabases.UndoDatabase.Merge | libraries/db/undo_database.cpp:125-244 | joins the newest session with the one below and drops its snapshot |
| UndoDatabases.UndoDatabase.Commit | libraries/db/undo_database.cpp:245-250 | closes the newest session without undoing it |
| UndoDatabases.UndoDatabase.PopCommit | libraries/db/undo_database.cpp:251-287 | undoes the newest committed state, and fails with an open session or an empty stack |
| ForkDatabases.ForkDatabase.PushBlock | libraries/chain/fork_database.cpp:58-112 | refuses a block exactly when it is too old or its parent is unknown; otherwise files it under its indexed parent, moves the head only to a higher block, and prunes below the maximum size |
| ForkDatabases.ForkDatabase.Prune | libraries/chain/fork_database.cpp:98-158 | drops exactly the items below the floor of the maximum size |
| ForkDatabases.ForkDatabase.SetMaxSize | libraries/chain/fork_database.cpp:128-158 | sets the size and prunes by the head's number |
| ForkDatabases.ForkDatabase.PopBlock | libraries/chain/fork_database.cpp:39-46 | moves the head to its parent if that is still indexed |
| ForkDatabases.ForkDatabase.PushKeepsParents | libraries/chain/fork_database.cpp:74-112 | a push, wherever it links, leaves every block above the pruning floor with its indexed parent |
| ForkDatabases.ForkDatabase.PruneKeepsParents | libraries/chain/fork_database.cpp:128-158 | so does a resize, above its floor; a removal on top of it only takes away the parents that are removed |
| ForkDatabases.ForkDatabase.OrphansOnly | libraries/chain/fork_database.cpp:247-250 | once blocks are removed, every block above a number has its parent if and only if none of them was built on those |
| ForkDatabases.ForkDatabase.FiledParentsRewind | libraries/chain/fork_database.cpp:39-46 | the head can be rewound from an indexed block as far as every block above has its parent |
| ForkDatabases.ForkDatabase.PrunedRewind | libraries/chain/fork_database.cpp:39-158 | pruning stops a rewind if and only if that would go below the floor |
| ForkDatabases.ForkDatabase.FetchBranchFrom | libraries/chain/fork_database.cpp:198-240 | terminates with the shortest parent-linked branches whose last blocks share a predecessor, and fails only if none exist |
| ForkDatabases.ForkDatabase.SharedBlockIsAnInput | libraries/chain/fork_database.cpp:198-240 | the branches are disjoint unless one input is an ancestor of the other |
| ForkDatabases.ForkDatabase.SharedPredecessorIsHighest | libraries/chain/fork_database.cpp:198-240 | the shared predecessor is at least as high as any common ancestor |
| Databases.Database.PushTransaction | libraries/chain/db_block.cpp:229-253 | a transaction that throws leaves the store as it was; one that does not adds its effect and becomes pending; the head block's store is kept |
| Databases.Database.ValidateTransaction | libraries/chain/db_block.cpp:254-259 | leaves the object state unchanged whatever happens |
| Databases.Database.ClearPending | libraries/chain/db_block.cpp:432-438 | brings back the head block's store |
| Databases.Database.CommitWork | libraries/chain/db_block.cpp:195-210 | block work is committed as one state, or undone as a whole; just so many of the newest states stay as the sizes before and after leave |
| Databases.Database.PopBlock | libraries/chain/db_block.cpp:418-431 | pops one block off state, chain and fork head, or throws with the state restored to the head block |
| Databases.Database.PopTo | libraries/chain/db_block.cpp:150-155 | pops to the fork point if and only if so many states are stacked and the fork head can be rewound that far |
| Databases.Database.ApplyBranch | libraries/chain/db_block.cpp:157-172 | applies the new branch oldest block first, up to the first that throws, with the states that each block leaves stacked, and prunes the fork database to the highest floor on the way |
| Databases.Database.SwitchForks | libraries/chain/db_block.cpp:139-193 | succeeds if and only if the old branch pops off and the whole new branch applies; on a throw state and chain are as before if and only if the fork head has enough ancestors that pruning spares and the states of the applied blocks are stacked; otherwise it is stuck. What it leaves in the fork database is exact in all three cases |
| Databases.Database.ShortFailureComesBack | libraries/chain/db_block.cpp:173-193 | after a switch whose applied part is shorter than the old branch the fork head finds the way back unless pruning took it away |
| Databases.Database.RejectedAreElsewhere | libraries/chain/db_block.cpp:173-181 | removing the rejected blocks never takes away an ancestor that the way back needs |
| Databases.Database.DeepForksComeBack | libraries/chain/db_block.cpp:173-193 | where every block above a number has its parent and is spared, the fork head finds the way back from any failure of a new branch that is not longer than the way down to that number |
| Databases.Database.RoomyBranchPops | libraries/chain/db_block.cpp:183-190 | with undo room for the new branch alone, what was applied of it can always be popped again |
| ChainSpecs.NewStatesStay | libraries/db/undo_database.cpp:33-46 | blocks with room for their own states and for some below them lose none of these, whatever the size before |
| Databases.Database.RootlessForkIsStuck | libraries/chain/db_block.cpp:173-193 | an old branch without a parent is stuck by a failure after as many new blocks |
| Databases.Database.FiledHeadPopsOff | libraries/chain/db_block.cpp:150-155 | a fork head that is indexed can be rewound past the old branch, so only missing undo states stop the pops |
| StuckForks.GetStuck | libraries/chain/db_block.cpp:120-216 | three blocks pushed to a fresh node extend the chain, wait on a side branch, and ask for a switch that gets stuck |
| StuckForks.ThirdIsStuck | libraries/chain/db_block.cpp:129-193 | the third block's branches are found, and the switch along them can neither succeed nor be rolled back |
| ChainSpecs.ReplayIsDeterministic | libraries/chain/db_block.cpp:183-190 | replaying a chain from the same store gives the same stores |
| ChainSpecs.SwitchKeepsParents | libraries/chain/db_block.cpp:139-193 | a switch, however it ends, leaves every block above a spared number its parent unless that was rejected |
| Databases.Database.PlaceBlock | libraries/chain/db_block.cpp:129-216 | throws exactly when the block is refused or no branches lead to a higher fork head; otherwise the block goes on the head, stays on a side branch or asks for a switch along the shortest branches |
| Databases.Database.PushOnHead | libraries/chain/db_block.cpp:195-216 | a block on the head is applied and committed, with the states that it leaves stacked, and prunes the fork database, or is removed from it with the state unchanged |
| Databases.Database.PlacedIsReady | libraries/chain/db_block.cpp:129-150 | a switch that a placed block asks for meets all that switching takes for granted; the blocks of both branches are known ones or the pushed one, each on top of the one before it |
| Databases.Database.PushBlock | libraries/chain/db_block.cpp:120-216 | pushing a block from end to end: it is refused exactly as its filing is or where no branches meet, waits, extends the chain or switches along the shortest branches, with the outcome, chain, stores, stacked states, fork database and head of each; what does not succeed leaves chain and stores as they were unless a switch gets stuck, which one to a new highest block on deep forks does not; forks stay deep but for what was rejected |
| Prices.CrossingIsRange | libraries/chain/db_market.cpp:258-262 | the index range that a new order walks is exactly the orders whose prices are compatible with it |
| Prices.AheadIsTransitive | libraries/chain/protocol/asset.cpp:43-74 | the order of the price indexes is transitive under cross multiplication |
| Prices.NothingIsBelowMinPrice | libraries/chain/protocol/asset.cpp:101-102 | below the lowest price of an index are exactly the prices that ask more for one unit than the maximum supply |
| Prices.ConversionRounds | libraries/chain/protocol/asset.cpp:76-92 | a conversion gives the exact worth rounded down, of the other asset of the price, and throws exactly for a foreign asset, for nothing to divide by, or above the maximum share supply |
| Prices.MatchIsSound | libraries/chain/db_market.cpp:301-341 | for all amounts and crossing prices one side is exhausted, no side pays more than it offers, and each receives at least what its own limit gives |
| Prices.MatchIsAtMakersPrice | libraries/chain/db_market.cpp:301-341 | whichever side is exhausted gives all it sells, and the other the exact worth of that at the maker's price, rounded down |
| Prices.PaysForNothing | libraries/chain/db_market.cpp:301-341 | a maker is always paid; a taker receives nothing exactly when all it has is worth less than one unit |
| Prices.PaysForNothingHappens | libraries/chain/db_market.cpp:301-341 | an order that pays five units for nothing |
| Books.MarketFee | libraries/chain/db_market.cpp:658-677 | the fee is the asset's percentage rounded down, or its maximum if that is less, and never more than the amount |
| Books.FillLimitShifts | libraries/chain/db_market.cpp:382-423 | filling a limit order moves exactly what it pays out of the books and what it receives in, fees included |
| Books.FillCallShifts | libraries/chain/db_market.cpp:426-480 | filling a call order takes its payment out, takes the debt off the supply, and keeps debt and supply together |
| Books.FillSettlementShifts | libraries/chain/db_market.cpp:481-506 | filling a settlement order moves exactly its payment and its receipt |
| Books.CancelLimitKeepsGaps | libraries/chain/db_market.cpp:194-216 | cancelling refunds the offer and the deferred fee |
| Books.CancelSettlementKeepsGaps | libraries/chain/db_market.cpp:179-193 | cancelling a settlement order refunds its balance |
| Books.CancelBidKeepsGaps | libraries/chain/db_market.cpp:142-156 | cancelling a bid refunds its collateral |
| Payments.FillLimitPays | libraries/chain/db_market.cpp:382-423 | the seller gains what the order receives less the market fee, and a culled remainder; no other balance changes; fee and deferred fee are accumulated |
| Payments.FillCallPays | libraries/chain/db_market.cpp:426-480 | a position without debt frees its remaining collateral to the borrower; no other balance changes |
| Payments.FillCallLeaves | libraries/chain/db_market.cpp:426-480 | filling a position takes what it pays off its collateral and what it receives off its debt and the supply, closes one without debt, and touches nothing else |
| Payments.FillSettlementPays | libraries/chain/db_market.cpp:481-506 | the owner gains what a settlement order receives less the market fee; no other balance changes |
| Payments.FillSettlementLeaves | libraries/chain/db_market.cpp:481-506 | filling a settlement order takes what it pays off its balance, removes an empty one, adds the market fee to the fees, and touches nothing else |
| Payments.CancelLimitPays | libraries/chain/db_market.cpp:194-216 | the seller gains the rest of the offer and the deferred fee; no other balance changes |
| Payments.CancelSettlementPays | libraries/chain/db_market.cpp:179-193 | the owner gains the balance of the settlement order; no other balance changes |
| Payments.CancelBidPays | libraries/chain/db_market.cpp:142-156 | the bidder gains the collateral of the bid; no other balance changes |
| Payments.EnteredPays | libraries/chain/market_evaluator.cpp:59-92 | an order enters exactly if its seller has the offer and the fee, and both leave the seller and no one else |
| Payments.TradedPays | libraries/chain/db_market.cpp:301-341 | in a trade each seller gains what the other order pays less the fee, and the maker a culled remainder; no other balance changes |
| Payments.CalledPays | libraries/chain/db_market.cpp:606-640 | in a margin call the seller gains what the position pays less the fee, the borrower the collateral that a position without debt frees; no other balance changes |
| Payments.CallTradeIsAtSellersPrice | libraries/chain/db_market.cpp:611-629 | a called position buys all that the seller offers, or all its debt if that is less, and pays the worth of it at the seller's price, rounded down |
| Payments.ClosingPaymentIsTheWorth | libraries/chain/db_market.cpp:68-71 | a position that is closed pays the worth of its debt at the price, rounded down, or all its collateral if that is less |
| Payments.SettledPays | libraries/chain/db_market.cpp:56-77 | a global settlement pays every borrower the collateral that the closing of its positions leaves, and changes no other balance |
| Payments.MatchAllPays | libraries/chain/db_market.cpp:264-272 | all trades of an order change balances by their receipts and nothing else |
| Payments.CalledAllPays | libraries/chain/db_market.cpp:559-644 | so do all turns of a round of margin calls, whether they trade or settle |
| Payments.CheckedPays | libraries/chain/db_market.cpp:521-644 | so does the whole check of call orders, with a black swan before the first turn |
| Payments.AppliedPays | libraries/chain/db_market.cpp:239-288 | and so does applying an order: calls, trades, calls again and the cull |
| Payments.NoneLosesByAnOrder | libraries/chain/db_market.cpp:239-288 | no balance ever falls by the application of an order |
| Payments.CreatedPays | libraries/chain/market_evaluator.cpp:73-98 | creating an order takes offer and fee from its seller and pays what applying it pays, balance by balance |
| Payments.CancelledPays | libraries/chain/market_evaluator.cpp:110-126 | cancelling pays offer and fee back to the seller and then what the margin calls in both assets pay |
| MarketRules.NewOrderRests | libraries/chain/db_market.cpp:239-288 | a book at rest plus an order that crosses nothing and is worth something is at rest |
| MarketRules.ShrunkStaysResting | libraries/chain/db_market.cpp:218-288 | orders that only disappear or shrink without turning to dust never cross |
| MarketRules.MatchKeeps | libraries/chain/db_market.cpp:301-341 | a match conserves every asset, keeps the core invariant and takes one of the orders off the book |
| MarketRules.FillCallKeepsCore | libraries/chain/db_market.cpp:426-480 | debt stays equal to supply when a position is filled |
| MarketRules.CalledKeeps | libraries/chain/db_market.cpp:521-640 | a margin call conserves every asset and keeps all invariants |
| MarketRules.ClosingGoesOn | libraries/chain/db_market.cpp:56-75 | closing one more position gathers its payment and lowers the supply by its debt |
| MarketRules.ClosingEnds | libraries/chain/db_market.cpp:76-92 | with all positions closed, fund and restored supply conserve every asset and make the fund solvent |
| MarketRules.HoldingsWithinSupply | libraries/chain/db_debug.cpp:39-89 | where no more is held than the supply, no single balance or settlement order exceeds it |
| MarketRules.CalledAssetHasSupply | libraries/chain/db_market.cpp:521-640 | an asset with a position has a supply |
| MarketRules.EnterKeeps | libraries/chain/market_evaluator.cpp:65-98 | entering an order moves offer and fee from the balances into the book |
| Markets.First | libraries/chain/db_market.cpp:258-272 | finds the entry that a walk of a price index meets first |
| MarketSpecs.BestMakerIsUnique | libraries/chain/db_market.cpp:258-272 | price and age single out one maker |
| MarketSpecs.MatchAllTrades | libraries/chain/db_market.cpp:264-272 | matching an order is the trade with its best maker followed by matching what is left |
| MarketSpecs.MatchAllRests | libraries/chain/db_market.cpp:264-272 | an order that crosses nothing is left alone |
| MarketSpecs.PlainMarketOnlyMatches | libraries/chain/db_market.cpp:239-288 | where neither asset is a bitasset, applying an order is matching it and refunding a remainder that asks for nothing |
| MarketSpecs.IndexHasOrder | libraries/chain/protocol/asset.cpp:43-74 | every price index of one market has an order, and the walks go through it |
| MarketSpecs.FirstCallExists | libraries/chain/db_market.cpp:544-549 | an asset with positions has a first call order |
| MarketSpecs.ClosesUnlessOneThrows | libraries/chain/db_market.cpp:61-75 | closing all positions at a price throws if and only if some position's debt does not convert |
| MarketSpecs.DueMeans | libraries/chain/db_market.cpp:574-581 | a position is due exactly when the debt of its call price is worth the collateral of it or more, at the feed and at the seller's price |
| MarketSpecs.TurnMeans | libraries/chain/db_market.cpp:565-630 | a turn stops exactly where nothing is due; a due position trades exactly if its whole debt is worth no more than its collateral at the seller's price; otherwise the asset is settled exactly if that is allowed and possible |
| MarketSpecs.UnderwaterMeans | libraries/chain/db_update.cpp:217-241 | a position is under water exactly when its debt is worth all its collateral or more, at the feed and to every seller whose price asks for amounts that there can be |
| MarketSpecs.SwanIsUnderwater | libraries/chain/db_update.cpp:240-241 | a black swan is a first position under water |
| MarketSpecs.CalledShrinks | libraries/chain/db_market.cpp:606-630 | what a call's trade leaves of the two orders, with the cull of a remainder that asks for nothing |
| MarketSpecs.CulledInPlace | libraries/chain/db_market.cpp:611-640 | the order that the limit iterator still points at is gone if and only if no order was exhausted so far, the call takes less than it sells and what is left asks for nothing |
| MarginCalls.ServedUnlessStarved | libraries/chain/db_market.cpp:541-644 | after a round of calls that settles nothing no call is due against the best seller in range, if and only if the debts, amounts and prices before the round let no position starve |
| MarginCalls.WalkServes | libraries/chain/db_market.cpp:556-640 | the same from any turn of the round on, for whatever was left behind before |
| MarginCalls.StarvingTakesTwo | libraries/chain/db_market.cpp:553-640 | with a single position or a single seller no call stays due |
| MarginCalls.StarvingHappens | libraries/chain/db_market.cpp:553-640 | books at rest, in which nobody holds more than there is, from which a call stays due although a seller in range has more than its debt left |
| MarginCalls.ListsExist | libraries/chain/db_market.cpp:541-549 | calls and sellers in range always have the orders that this is stated with |
| MarginCalls.CulledInPlaceHappens | libraries/chain/db_market.cpp:553-640 | books at rest whose first margin call leaves the iterator at an order that is gone, with another call still due |
| Markets.Market.AdjustBalance | libraries/chain/db_balance.cpp:53-79 | changes a balance by the amount, and throws exactly when it would go negative |
| Markets.Market.FillLimitOrder | libraries/chain/db_market.cpp:382-423 | performs the fill and reports whether the order is gone |
| Markets.Market.FillCallOrder | libraries/chain/db_market.cpp:426-480 | performs the fill, and throws exactly when the collateral is short |
| Markets.Market.MaybeCullSmallOrder | libraries/chain/db_market.cpp:218-237 | refunds an order that asks for nothing |
| Markets.Market.Match | libraries/chain/db_market.cpp:301-341 | trades at the maker's price; the bit field is never zero and says which orders are gone |
| Markets.Market.GloballySettle | libraries/chain/db_market.cpp:43-93 | closes every position in index order, puts the sum of their payments into the fund, restores the supply, and settles at supply over fund; throws exactly for a settled asset or where a debt does not convert |
| Markets.Market.CheckForBlackSwan | libraries/chain/db_update.cpp:202-257 | finds a black swan exactly when the first position is below the feed and every seller, and then settles at its collateralization, or throws if that is not allowed |
| Markets.Market.HighestPrice | libraries/chain/db_update.cpp:214-240 | the price that decides is the feed's or the best seller's, whichever is higher |
| Markets.Market.MarginCall | libraries/chain/db_market.cpp:565-630 | computes the turn exactly: it stops where nothing is due, the first due position buys from the best seller at its price, or short collateral settles the asset at the feed |
| Markets.Market.LoopMarginCalls | libraries/chain/db_market.cpp:556-640 | computes exactly the books of all turns, with every seller after an exhausted one left behind after one trade; terminates, conserves every asset and keeps every invariant |
| Markets.Market.CheckCallOrders | libraries/chain/db_market.cpp:521-644 | computes exactly the books after the black swan check and all turns against the sellers in range; keeps every invariant |
| Markets.Market.MatchBook | libraries/chain/db_market.cpp:254-272 | computes exactly the trades by price and age until the order is gone or crosses nothing |
| Markets.Market.ApplyOrder | libraries/chain/db_market.cpp:239-288 | computes exactly the calls, the trades, the calls again and the cull; the whole book is at rest afterwards |
| Markets.Market.CreateLimitOrder | libraries/chain/market_evaluator.cpp:41-98 | balances pay, the order is applied, fill or kill leaves nothing, otherwise it throws; the book is at rest |
| Markets.Market.CancelOrderOperation | libraries/chain/market_evaluator.cpp:100-126 | removes the order and refunds it, and calls positions in both assets; the book is at rest |
| Positions.FundStaysSolvent | libraries/chain/asset_evaluator.cpp:479-506 | the fund covers any payout, stays solvent for the others and is empty when the supply is |
| Positions.PayoutConverts | libraries/chain/asset_evaluator.cpp:484-494 | no amount exceeds the supply, and the conversion of a payout never throws for a fund within the share supply |
| Positions.PayoutIsTheWorth | libraries/chain/asset_evaluator.cpp:489-493 | a payout is the worth of the amount at the settlement price, rounded down, and the whole fund for the whole supply |
| Positions.RedeemedKeeps | libraries/chain/asset_evaluator.cpp:479-506 | paying from the fund conserves every asset and keeps the invariants |
| Positions.SettleAsset | libraries/chain/asset_evaluator.cpp:461-515 | pays the worth of the amount rounded down, or the whole fund for the whole supply, from the fund to the account, or takes the amount into a settlement order; no other balance changes. It is refused exactly without the balance, without a conversion, or where settling is not allowed; the check of the fund never fails |
| Positions.PositionedKeeps | libraries/chain/market_evaluator.cpp:168-232 | opening or adjusting a position keeps debt equal to supply and conserves every asset |
| Positions.ClosedKeeps | libraries/chain/market_evaluator.cpp:226-232 | closing a position returns its collateral and takes its debt off the supply |
| Positions.PositionedPays | libraries/chain/market_evaluator.cpp:172-194 | the borrower gains the new debt, which adds to the supply, and pays the new collateral; besides, only the position changes |
| Positions.ClosedPays | libraries/chain/market_evaluator.cpp:172-236 | who closes a position pays its debt, which leaves the supply, and gains its collateral; besides, only the position goes |
| Positions.OutOfReachMeans | libraries/chain/market_evaluator.cpp:266-271 | out of reach of a call means that the debt of the call price is worth less than its collateral at the feed |
| Positions.UpdateCall | libraries/chain/market_evaluator.cpp:128-276 | acts on the borrower's own position or a new one, and computes exactly the closed books or the position as asked for and then called; one that is left is out of reach of a call, one that is called is closed by it, and anything else throws |
| ForceSettlement.CapStays | libraries/chain/asset_object.cpp:33-44 | settlements leave the maximum volume unchanged, as supply plus settled volume is constant |
| ForceSettlement.VolumeIsThePercentage | libraries/chain/asset_object.cpp:33-44 | the maximum volume is the percentage of supply and settled volume, rounded down |
| ForceSettlement.AlwaysACall | libraries/chain/db_update.cpp:418-423 | while the cap is not reached there is a position to settle with |
| ForceSettlement.OffsetIsCut | libraries/chain/db_update.cpp:408-411 | the offset never pays more than the feed's price |
| ForceSettlement.PriceIsTheWorthLessTheOffset | libraries/chain/db_update.cpp:407-413 | the price gives, for the order's whole balance, the worth of it at the feed less the offset's percentage, rounded down twice |
| SettlementPayments.SettledUpToPays | libraries/chain/db_update.cpp:416-440 | the matches of an order take exactly the noted volume from it, each at the price rounded down, and pay its owner and the borrowers of closed positions; a black swan pays the rest of the order back; no other balance changes |
| SettlementPayments.SettledAtFeedPays | libraries/chain/db_update.cpp:407-446 | the same for the order settled at the feed's price less the offset |
| SettlementTurns.MatchMeans | libraries/chain/db_market.cpp:349-372 | a match throws exactly for a position without collateral, and finds a black swan exactly where the position cannot pay for what order, volume and debt leave with less than all its collateral |
| SettlementTurns.SettlesToAnEnd | libraries/chain/db_update.cpp:418-440 | an order is settled until the volume is used, all of it is taken, or the least collateralised position cannot pay for the rest; it stays exactly if something is left and the volume is used |
| SettlementTurns.WaitsOrIsPaidBack | libraries/chain/db_update.cpp:359-405 | an order waits exactly if it is not due or its asset has no volume; one in a settled asset, or due without a feed, is paid back |
| SettlementTurns.OpenOrderSettles | libraries/chain/db_update.cpp:387-446 | any other order is settled at the feed's price less the offset to one of these ends, with the receipts and the noted volume of its matches; the turn throws exactly if the order is worth more than the maximum supply or the asset has a position without collateral |
| SettlementPayments.OwnerGainsTheNet | libraries/chain/db_market.cpp:481-506 | by the matches the owner gains what they pay less the market fees, unless it also owned a position that they closed, which comes on top |
| SettlementPayments.PaidIsTheWorth | libraries/chain/db_update.cpp:418-433 | all matches together pay the price's worth of what they take, short of one unit for each |
| SettlementPayments.WholeOrderIsPaid | libraries/chain/db_update.cpp:407-440 | an order that is taken completely is paid what the price says for it, short of one unit for each match but the first |
| ForceSettlement.FirstFrom | libraries/chain/db_update.cpp:340-345 | finds the first settlement order of this asset or a later one by asset, date and id |
| ForceSettlement.LeastCollateralised | libraries/chain/db_update.cpp:415-423 | finds the position with the least collateral for its debt, the oldest of these |
| ForceSettlement.LeastIsLowest | libraries/chain/db_update.cpp:415-423 | no position has less collateral for its debt than that one, multiplied across |
| ForceSettlement.MatchUsesOneUp | libraries/chain/db_market.cpp:357-360 | a match takes as much as order, volume and debt all leave, and uses one of the three up |
| ForceSettlement.MatchSettlement | libraries/chain/db_market.cpp:349-380 | settles as much as order, cap and debt allow at the price, reports a black swan where that would take all collateral, and throws exactly without debt, collateral, balance or a conversion |
| ForceSettlement.SettlingGoesOn | libraries/chain/db_update.cpp:418-433 | each match conserves every asset and moves supply to settled volume |
| ForceSettlement.SettleStep | libraries/chain/db_update.cpp:418-440 | computes one turn: a match with the least collateralised position, or the cancellation of an order that finds a black swan or is empty |
| ForceSettlement.MatchOrder | libraries/chain/db_update.cpp:415-440 | computes match after match up to the cap, the order's end or a black swan; there always is a position to match |
| ForceSettlement.SettleOrder | libraries/chain/db_update.cpp:407-446 | computes the order settled at the feed's price less the offset and notes the volume; terminates with the order gone or the cap reached, never beyond it |
| ForceSettlement.TakeTurn | libraries/chain/db_update.cpp:344-447 | computes the turn: an order in a settled asset or due without a feed is cancelled, a due one is settled while there is volume, any other waits |
| ForceSettlement.Acting | libraries/chain/db_update.cpp:337-447 | every turn that acts removes an order or uses up an asset's volume |
| ForceSettlement.ClearExpiredSettlements | libraries/chain/db_update.cpp:311-448 | the books are exactly those after some number of turns on the first orders in line, until none is left to take; every order left is not due or its asset's volume is used, none is in a settled asset, and settled volume never passes the cap |
| GlobalSettlement.PositionExists | libraries/chain/asset_evaluator.cpp:440-446 | an asset with a supply has a position if and only if it is not settled |
| GlobalSettlement.CanPayMeans | libraries/chain/asset_evaluator.cpp:448-449 | the least collateralised position can pay exactly when its debt is worth less than one unit more than its collateral |
| GlobalSettlement.GlobalSettle | libraries/chain/asset_evaluator.cpp:434-459 | settles at the price if and only if there is a supply, the least collateralised position can pay it and all debts convert; a second settlement is refused |
| Bids.AllocationIsExact | libraries/chain/db_maint.cpp:770-788 | debts sum to the supply and collateral to the fund, only the last bid is cut, every other share is the exact worth of its debt rounded down, and no share is worth less |
| Bids.PartsWithinFund | libraries/chain/db_maint.cpp:770-788 | shares rounded down never exceed a solvent fund |
| Bids.FairShares | libraries/chain/db_maint.cpp:774-786 | what is left to cover and to hand out never goes negative |
| Bids.BidCollateral | libraries/chain/market_evaluator.cpp:278-333 | pays back the bidder's old bid and puts the new one in its place, or only cancels it; throws exactly when the bid is not allowed, brings no collateral, or there is nothing to cancel |
| Bids.RebidPays | libraries/chain/market_evaluator.cpp:316-330 | the bidder of the old bid gains its collateral, that of the new one pays its; no other balance changes |
| Bids.ChooseBids | libraries/chain/db_maint.cpp:748-767 | chooses the best bids in index order until they cover the supply; gives up exactly when they end or become too thin first, and throws exactly when one comes first whose call price cannot be computed |
| Bids.ChoiceIsUnique | libraries/chain/db_maint.cpp:748-767 | the books settle which of the three it is, and which bids are chosen |
| Bids.UnbackedOverflows | libraries/chain/db_maint.cpp:757-761 | a bid brings its collateral and its debt's worth of the fund, rounded down; as every bid brings collateral, the call price cannot be computed exactly when that worth exceeds the maximum share supply |
| Bids.TooThinMeans | libraries/chain/db_maint.cpp:762-763 | a bid is too thin exactly when at the feed the debt of its call price would be worth the collateral of it or more |
| Bids.NextShareIsShare | libraries/chain/db_maint.cpp:774-786 | the loop's next share is the one of the allocation |
| Bids.ExecuteBid | libraries/chain/db_market.cpp:157-177 | turns a bid into a position, and throws exactly without collateral |
| Bids.ExecuteBids | libraries/chain/db_maint.cpp:770-788 | executes all chosen bids and never throws; the two closing checks cannot fail; nothing but those positions and bids changes |
| Bids.NoneIsBare | libraries/chain/db_market.cpp:157-177 | no executed bid comes out without collateral |
| Bids.CancelBidsAndRevive | libraries/chain/db_market.cpp:119-140 | pays back every other bid to its bidder, empties the fund and unsettles the asset, and changes nothing else |
| Refunds.RefundedStepwise | libraries/chain/db_market.cpp:119-140 | paying back one bid at a time, in any order, gives every bidder the sum of its bids |
| Refunds.RefundsOnly | libraries/chain/db_market.cpp:119-140 | paying back the bids changes no other balance |
| Bids.RevivingEnds | libraries/chain/db_market.cpp:119-140 | after a revival every asset is conserved and debt equals supply again |
| Bids.ProcessBids | libraries/chain/db_maint.cpp:742-791 | revives exactly from the best bids, leaves the books alone exactly when they cannot cover the supply, and throws exactly where choosing does or for a settlement price without collateral |
| Bids.OutcomeIsUnique | libraries/chain/db_maint.cpp:742-791 | the books before a maintenance settle its outcome, so each of these conditions is exact |
| Bids.ReviveBitasset | libraries/chain/db_market.cpp:95-117 | the issuer takes over supply and fund as one position, all bids are paid back and nothing else changes; an asset without supply has an empty fund |
| Bids.TakenOverIs | libraries/chain/db_market.cpp:95-117 | the issuer's position has the whole fund for the whole supply, and every bidder its bids back |
| Bids.CanReviveMeans | libraries/chain/asset_evaluator.cpp:581-590 | the supply against the fund is out of reach of a call exactly when its call price's debt is worth less than the collateral at the feed |
| Bids.PublishFeed | libraries/chain/asset_evaluator.cpp:517-597 | a new feed, in price or ratios, throws or gives exactly the books that its reaction says: a settled asset is revived if its supply against the fund is out of reach of a call at the new maintenance ratio, and then positions are called |
| Bids.OnlyNoted | libraries/chain/asset_evaluator.cpp:517-597 | a settled asset that the feed does not revive only takes note of the feed |
| Bids.ExpireFeed | libraries/chain/db_update.cpp:451-473 | a median feed that lost expired feeds calls positions exactly if there still is one |
| MarketRuns.Apply | libraries/chain/db_debug.cpp:39-89 | every market operation has exactly the outcome and books that its own specification says; one that succeeds conserves every asset and leaves the book at rest |
| MarketRuns.MaintainBitasset | libraries/chain/db_maint.cpp:987-993 | a maintenance forgets the settled volume; for a settled asset it fails exactly when its bids make it throw, and otherwise revives it from them or leaves it where they cannot cover the supply; others keep everything else |
| MarketRuns.Run | libraries/chain/db_debug.cpp:39-89 | over every run of operations, blocks, feeds with any maintenance ratio, expiring feeds and maintenances the books follow a trace in which each step has its exact outcome and a failed one changes nothing; all market invariants hold and every gap is constant |
| PredictionMarkets.CheckedStays | libraries/chain/db_market.cpp:521-644 | the check of call orders, with all its turns, leaves every position in a prediction market as it is or closes it |
| PredictionMarkets.OperationStays | libraries/chain/db_debug.cpp:39-89 | whatever operation succeeds, a new or changed position in a prediction market has as much collateral as debt, and no settlement order comes to wait in one |
| PredictionMarkets.PaidUpForEver | libraries/chain/market_evaluator.cpp:145-146 | over every run every position in a prediction market has exactly as much collateral as debt |
| PredictionMarkets.OutcomeIsPaid | libraries/chain/db_market.cpp:66-73 | settled at a price of at most one, such a position pays the worth of its whole debt, rounded down and never cut short |
| Budget.ReleaseIsBounded | libraries/chain/db_maint.cpp:359-388 | the budget is within the reserve, from both sides within one unit of the rate's share of it, positive for a positive reserve and time, and all of it in the long run |
| Budget.RequestIsPart | libraries/chain/db_maint.cpp:128-158 | a worker asks for its daily pay for the time that passed, rounded down |
| Budget.Treasury.AskedIsForTheInterval | libraries/chain/db_maint.cpp:416-440 | witnesses are budgeted for every block that begins before the maintenance, workers for every second of it |
| Budget.PayrollIsFair | libraries/chain/db_maint.cpp:139-158 | pay never exceeds requests or budget, and after someone is paid short no one is paid |
| Budget.Treasury.RankWorkers | libraries/chain/db_maint.cpp:121-137 | exactly the active workers, by votes and then by id |
| Budget.Treasury.PayWorkers | libraries/chain/db_maint.cpp:118-159 | pays the ranked workers the payroll and nothing else; refunds leave the supply |
| Budget.Treasury.InitializeBudget | libraries/chain/db_maint.cpp:343-392 | the total is the released part of reserve, fees and unused witness budget |
| Budget.Treasury.ProcessBudget | libraries/chain/db_maint.cpp:394-488 | budget, shares of witnesses and workers and what is left over are exactly those asked for as far as funds go; supply stays within its maximum and changes by the net change of what is held |
| Budget.Treasury.PayWitness | libraries/chain/db_update.cpp:104-117 | pays that witness its pay or all the budget if that is less, and nobody else |
| Budget.Treasury.Run | libraries/chain/db_maint.cpp:343-488 | over every run of blocks, fees and maintenances the sheets follow a trace of exact steps, supply stays within its maximum and in step with what is held |
| Vesting.UpdatesAreHarmless | libraries/chain/vesting_balance_object.cpp:90-119 | updating in between does not change what is earned or allowed later |
| Vesting.EarnsExactly | libraries/chain/vesting_balance_object.cpp:90-109 | earned coin seconds are the old ones plus the balance times the seconds that passed where that is within the cap, and the cap otherwise |
| Vesting.AllowedIsPaidFor | libraries/chain/vesting_balance_object.cpp:111-119 | nothing is allowed up to the start of claims, and then as many coins as the coin seconds pay for, rounded down |
| Vesting.MaturesEvenly | libraries/chain/vesting_balance_object.cpp:90-119 | an untouched balance matures in proportion to the time, completely after its vesting time and no earlier |
| Vesting.AllowedWithinBalance | libraries/chain/vesting_balance_object.cpp:37-119 | no policy allows more than the balance |
| Vesting.ReleasedGrows | libraries/chain/vesting_balance_object.cpp:41-66 | the linear schedule never takes back what it released |
| Vesting.ReleasesEvenly | libraries/chain/vesting_balance_object.cpp:37-66 | the schedule releases nothing before the cliff, then its part for the time that passed, and everything at its end |
| Vesting.LinearAllowsTheRest | libraries/chain/vesting_balance_object.cpp:59-67 | what was withdrawn and what is allowed add up to what the schedule released |
| Vesting.LinearDeposit | libraries/chain/vesting_balance_object.cpp:54-78 | after a deposit the linear checks hold if and only if it only puts back what was withdrawn |
| Vesting.LinearDepositBreaks | libraries/chain/vesting_balance_object.cpp:54-78 | one coin added to a fresh linear balance breaks them |
| Vesting.CreatedVested | libraries/chain/db_balance.cpp:111-124 | a balance created as vested is free at once if and only if it has a vesting time or is empty |
| Vesting.VestingBalance.Update | libraries/chain/vesting_balance_object.cpp:105-109 | earned coin seconds grow by the balance for every second that passed, up to the cap of the balance |
| Vesting.VestingBalance.Deposit | libraries/chain/vesting_balance_object.cpp:207-213 | a deposit adds to the balance after bringing coin seconds up to date |
| Vesting.VestingBalance.DepositVested | libraries/chain/vesting_balance_object.cpp:126-130 | a vested deposit comes with its coin seconds; the linear policy throws |
| Vesting.VestingBalance.Withdraw | libraries/chain/vesting_balance_object.cpp:132-142 | an allowed withdrawal is covered by balance and coin seconds, so both checks hold |
| Vesting.VestingBalance.AllMatures | libraries/chain/vesting_balance_object.cpp:90-119 | left alone for its vesting time, and past the start of claims, the whole balance may be withdrawn |
| Vesting.VestingBalance.OnlyMatureCoinsLeave | libraries/chain/vesting_balance_object.cpp:90-142 | withdrawn coins times vesting seconds stay within balance-time plus vested deposits |
| Vesting.VestingBalance.ScheduleIsKept | libraries/chain/vesting_balance_object.cpp:37-68 | without deposits all withdrawals stay within the schedule and its checks hold ever after |
| Vesting.VestingBalance.Run | libraries/chain/vesting_balance_object.cpp:193-232 | any run of deposits and guarded withdrawals follows a trace of exact steps, in which one that is not allowed changes nothing, and keeps these bounds |
| Schedule.SlotHasBegun | libraries/chain/db_witness_schedule.cpp:42-78 | a slot has begun exactly when its time has come |
| Schedule.SlotsFollowTheHead | libraries/chain/db_witness_schedule.cpp:42-70 | slots count from the interval that holds the head block, from its time on at genesis, and past those that a maintenance skips |
| Schedule.SlotRoundTrip | libraries/chain/db_witness_schedule.cpp:42-78 | the slot at the time of a slot is that slot |
| Schedule.SlotContainsTime | libraries/chain/db_witness_schedule.cpp:72-78 | a time lies in its slot and before the next |
| Schedule.SlotsAreAhead | libraries/chain/db_witness_schedule.cpp:42-70 | every slot from the first on is after the head block |
| Schedule.EveryoneOnce | libraries/chain/db_witness_schedule.cpp:34-40 | any round of consecutive slots gives each witness exactly one turn |
| Schedule.TurnsInRound | libraries/chain/db_update.cpp:50-65 | no one misses more than one block within a round |
| Schedule.ShuffleIsPermutation | libraries/chain/db_witness_schedule.cpp:101-117 | the shuffle only changes the order |
| Schedule.ShuffleArranges | libraries/chain/db_witness_schedule.cpp:101-117 | the shuffle is the one by swaps with partners that are drawn from the time |
| Schedule.EveryOrderCanCome | libraries/chain/db_witness_schedule.cpp:101-117 | every order of the witnesses comes from some choice of partners |
| Schedule.OrdersComeOnce | libraries/chain/db_witness_schedule.cpp:101-117 | and from one only: each choice gives an order of its own |
| Schedule.WitnessSchedule.Shuffle | libraries/chain/db_witness_schedule.cpp:101-117 | the swaps in place compute the shuffle |
| Schedule.WitnessSchedule.UpdateSchedule | libraries/chain/db_witness_schedule.cpp:86-120 | a new round is a permutation of the active witnesses; within a round nothing changes |
| Schedule.WitnessSchedule.SlotImpliesLater | libraries/chain/db_block.cpp:646-667 | the check of the slot implies the one against the head block's time |
| Schedule.WitnessSchedule.ApplyHeader | libraries/chain/db_update.cpp:45-89 | an accepted block's witness sits at the new absolute slot, and others missed exactly their turns in between |
| Irreversibility.NthIsGreatestReached | libraries/chain/db_update.cpp:142-150 | the selected element is the greatest number that all but the offset reach |
| Irreversibility.NthElement | libraries/chain/db_update.cpp:144-148 | partitions in place around the selected element |
| Irreversibility.OffsetIsMinority | libraries/chain/db_update.cpp:142-142 | with a threshold above one half less than half may lag behind |
| Irreversibility.OffsetLeavesTheQuorum | libraries/chain/db_update.cpp:142-142 | just so many witnesses may lag behind that the others still reach the threshold, and no more |
| Irreversibility.QuorumsIntersect | libraries/chain/db_update.cpp:131-150 | any two supporting sets over the same witnesses intersect |
| Irreversibility.Confirmations.UpdateLastIrreversible | libraries/chain/db_update.cpp:126-159 | the candidate is the greatest number with a quorum; the stored number never falls nor passes the head |
| Irreversibility.Confirmations.SupportOverlaps | libraries/chain/db_update.cpp:126-159 | two supported numbers were confirmed by a common witness |
| Irreversibility.Confirmations.Run | libraries/chain/db_update.cpp:119-159 | over any run of blocks and elections the trace of exact steps neither lets the irreversible number fall nor pass the head |
| Synopsis.HalvingIsLogarithmic | libraries/app/application.cpp:798-813 | a synopsis has floor of the binary logarithm plus one entries, rises from low and ends at high |
| Synopsis.DistancesHalve | libraries/app/application.cpp:798-813 | from one entry to the next the number of blocks up to the end halves, rounded down |
| Synopsis.NumbersAreTheEntriesUpTo | libraries/app/application.cpp:795-813 | with trailing items it has exactly the entries up to high of the longer chain's synopsis |
| Synopsis.PeerBlocksIncluded | libraries/app/application.cpp:555-560 | of a peer's blocks exactly those in the shared part are included |
| Synopsis.SearchFindsTheLast | libraries/app/application.cpp:593-604 | the search finds the last recognised entry, nothing if and only if there is none, and throws if and only if a known entry above the head comes after all of them |
| Synopsis.PeerIsFoundAtItsGreatestSharedEntry | libraries/app/application.cpp:593-604 | for a peer that shares the prefix up to c this is its greatest entry up to c, or it throws, exactly when the node knows one of the peer's entries above its head |
| Synopsis.Node.Summarise | libraries/app/application.cpp:795-813 | the loop stays within bounds and emits the ids at exactly those numbers |
| Synopsis.Node.GetBlockchainSynopsis | libraries/app/application.cpp:700-817 | summarises the chain, or chain and fork, up to the reference, and says when it throws |
| Synopsis.Node.GetBlockIds | libraries/app/application.cpp:571-616 | offers ids in a row from the last recognised entry with the exact number remaining |
| AmountText.RoundTrip | libraries/chain/asset_object.cpp:93-160 | every amount up to the maximum supply is read back at every precision below 19 |
| AmountText.RoundTripExactly | libraries/chain/asset_object.cpp:93-160 | among all amounts exactly those not negative or without a fraction are read back |
| AmountText.NegativeFractionHappens | libraries/chain/asset_object.cpp:93-160 | minus one half is written as zero with a point and read as zero |
| AmountText.FractionDigits | libraries/chain/asset_object.cpp:155-158 | without their leading one the digits of scale plus fraction are the fraction, padded |
| AmountText.AmountToString | libraries/chain/asset_object.cpp:148-160 | computes the text, dropping a zero fraction |
| AmountText.Scan | libraries/chain/asset_object.cpp:95-115 | accepts exactly digits with at most one minus and one point |
| AmountText.AmountFromString | libraries/chain/asset_object.cpp:93-146 | computes the value of the text, or throws |

## Left out

- Session destructors and handles: a session is closed by an explicit undo, merge or commit; what the destructor does is modelled where a session goes out of scope.
- The undo limit of a block and the size of the fork database: the source sets them in the middle of applying a block; the model sets them when the block's work starts.
- Block log, unlinked blocks of the fork database, checkpoints, skip flags and pending-transaction restoring after a switch.
- Databases.Database.SwitchForks: says nothing about object state where the rewinding of the fork head throws, because the source leaves that state as it happens to be; nor does it reset the fork head after a success, as the source does not either.
- Databases.Database.PushTransaction: the sessions that the transaction nests must fit into the undo size; with more the source drops states of open sessions.
- Databases.Database.ValidateTransaction: so must those of the validated transaction.
- Databases.Database.CommitWork: so must those of a block into the size that it asks for; older states may be dropped, and are.
- Databases.Database.ApplyBranch: so must those of all blocks up to the first that throws, as in `PushOnHead` and `SwitchForks`; `PushBlock` asks it of the blocks on every route of known blocks from a store that can be popped to.
- Databases.Database.PushBlock: says nothing about the stores after a switch that got stuck.
- UndoDatabases.UndoDatabase.StartUndoSession: disabling the database again when a forced session ends is not modelled.
- Markets.Market.LoopMarginCalls: when a call leaves a limit order a remainder that is culled, the model goes on with the next order where the source's iterator points at the removed one; `CulledInPlace` says when.
- Statistics of core in orders, virtual operations, market history and price feeds' medians.
- The reduction of a call price to amounts within the share supply; the price is a parameter.
- Uniqueness of one position and one bid per account and asset, which the source's secondary indexes enforce; the model acts on one of them.
- One counter numbers all market objects; the source has one for each type.
- The choice of an existing balance by lazy vesting deposits; creating and depositing are modelled.
- Permissions and authorities of issuers, whitelists, and operation fees other than the deferred fee of a limit order.
- GlobalSettlement.GlobalSettle: the issuer's permission is not modelled, and where the source would read past the positions of a settled asset the model refuses.
- Integer overflow of 64-bit share amounts in sums of balances, budgets and coin seconds; conversions and amount texts do model their limits.
- Budget.Treasury.RankWorkers: the sort of the standard library is modelled by repeated selection.
- Irreversibility.NthElement: the selection of the standard library is modelled by a partial selection sort.
- Counters of recently missed blocks and recently filled slots, witness elections and the committee.
- Unsigned 32-bit wrap-around of slot and block numbers.
- Synopsis.Node.GetBlockchainSynopsis: what the fork database answers for a reference on a fork is a parameter.
- Schedule.ShuffleArranges: the numbers that the generator draws are computed as in the source; that they are spread evenly is not stated.
- Credit and exchange-rate code: its sums are in floating point and its conversion branch compares two equal assets, so there is no conservation law to prove.
- Networking, storage on disk, serialisation, cryptography and genesis: input and output, or foreign code.
