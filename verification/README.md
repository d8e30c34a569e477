# GitBitEx: matching, the views of it, and settlement

A Dafny model of a spot exchange whose parts share one log, with proofs about each part and about how they fit together:

- **Matching** (`Matching.dfy`, `OrderDepth.dfy`, `OrderBook.dfy`, `DedupWindow.dfy`): price-time ordered depths, limit, market-sell and
  market-buy takers, cancels, the deduplication window, the numbered log. `Decimals.dfy` states the decimal division the market buy uses.
- **Recovery and the engine** (`Recovery.dfy`, `SharedWindow.dfy`, `EngineSteps.dfy`, `EngineInvariant.dfy`, `EngineRuns.dfy`,
  `EngineCrashes.dfy`, `EngineHazard.dfy`, `Engine.dfy`, `LogReader.dfy`): snapshots, the fetcher, applier, committer and snapshotter as steps over queues, crashes, and the log reader.
- **The pushed view** (`View.dfy`, `Stream.dfy`, `ViewRefinement.dfy`, `ViewRestart.dfy`, `PushedBook.dfy`): the book rebuilt from the log alone.
- **The level-2 client** (`L2Client.dfy`, `L2ChangeWriter.dfy`): snapshot plus changes over a stream that loses, repeats and reorders.
- **Settlement** (`Accounts.dfy`, `Orders.dfy`, `OrderService.dfy`, `FillMaker.dfy`, `FairTrades.dfy`, `Settlement.dfy`,
  `SettlementTheorems.dfy`, `SettlementRuns.dfy`, `Overspending.dfy`, `ZeroPrice.dfy`): holds, fills, bills and releases.
- **The parts joined** (`Exchange.dfy`): the view and settlement fed by the log that a crashing engine stores.

`Types.dfy`, `PriceTime.dfy`, `Sums.dfy` and `Tables.dfy` hold what they share; `MatchLoop.dfy`, `MarketBuy.dfy`, `BookInvariant.dfy`,
`LogGrammar.dfy`, `OrderLives.dfy`, `MarketTheorems.dfy`, `TakerTheorems.dfy`, `Reasons.dfy` and `Repeats.dfy` hold the proofs about matching.

Objects the program changes in place are classes (`OrderDepth`, `OrderBook`, `BitWindow`, `Engine`, `KafkaLogReader`, `PushedBook`,
`OrderBookStream`, `L2ChangeWriter`, `FillMaker`, `OrderService`). Each method is tied by its contract to a function on values, and
the theorems are about runs of those functions.

**Units.** With base scale B and quote scale Q, a size counts 10^-B, a price 10^-Q and funds 10^-(B+Q), all as integers. The
*grain* is 10^(16-B): decimals are divided to 16 digits, a half away from zero, and then truncated to B digits.

**What the proofs found.**

- A market buy spends within its funds exactly when prices are below twice the grain (`NeverOverspendsExactly`), and never overspends by
  more than the rounding error at a price it paid (`DebtIsBounded`). Money is conserved at any prices (`MoneyIsConserved`). A hold is
  always what it should be, less what finished orders overspent (`HoldIsExactly`); so holds are right in every run with limit prices up
  to a cap if and only if the cap is below twice the grain (`HoldsAreRightExactly`). `HoldEndsBelowZero` is a run of three orders that the
  service places, at the first price beyond, whose buyer's hold ends at minus one.
- A market buy that reaches an ask priced zero, which a limit sell may be, divides by zero (`PanicsExactly`). The service places both, and
  nothing is matched ever after (`EngineStops`, `StuckForGood`).
- The committer approves a snapshot once its entries are received, although they may still be in its buffer. A stored snapshot can
  thus be ahead of the stored log (`ApprovalIsNotDurable`). Over every execution with crashes at any moments that comes to quiescence,
  readers get the whole log if and only if every crash found the stored snapshot covered (`WholeLogExactly`). A crash with an empty
  buffer always does (`EmptyBufferIsDurable`).
- Until its first delivery a reader takes any sequence. What readers get is a beginning of the log if and only if no crash found a
  snapshot stored and the log store still empty (`BeginningExactly`); otherwise they miss the first entries and are not told
  (`ReadersMissTheFirst`). Later gaps stop them (`ReadsExactly`, `ReadersGetAStretch`).
- A snapshot shares its deduplication bits with the live book. Stored later, it makes a restart drop orders, if and only if one was let
  through within the window's range between taking and storing it (`LateWindowExactly`).
- A snapshot request that reaches an already synced client keeps it right if and only if no buffered change contradicts the
  snapshot (`ReactExactly`); `StaleBuffer` is a run where one does.
- A fill is stamped with the side opposite to that of its order (`RunFair`, `FillsAreFair`); settlement reads the order's side.

Proofs are written out: automatic induction is switched off on every lemma, and `hide` keeps definitions a proof does not need out
of its way. A snapshot's map listing is any sequence of its orders, so no result depends on map order.

## Model

| member | source | states |
|---|---|---|
| Decimals.BuyableBounds | matching/order_book.go:142-142 | `Div` then `Truncate` gives the one size s with 2g(sp-F) <= p < 2g((s+1)p-F), for funds F not below zero |
| Decimals.BelowBoundIsFloor | matching/order_book.go:142-152 | below twice the grain it is the floor of funds by price, so funds never go negative |
| Decimals.NeverOverspendsExactly | matching/order_book.go:142-152 | it never overspends, for any funds, if and only if the price is below twice the grain |
| Decimals.OvershootBound | matching/order_book.go:142-152 | at any price one step overspends by at most p/(2g) funds units |
| Types.GrainSplits | matching/order_book.go:142-142 | a base tick times the grain is 10^16, the digits a division keeps |
| Types.MarketBuyPriceIs | matching/order_book.go:101-107 | the price a market buy accepts is 3.4028234663852886e38 |
| PriceTime.CompareIsTotalOrder | matching/order_book.go:316-352 | both comparators are total orders: reflexive only on equal keys, antisymmetric, transitive |
| PriceTime.SortedUnique | matching/order_book.go:263-275 | a queue is determined by its orders: two sorted queues with the same orders are equal |
| OrderDepths.OrderDepth.Add | matching/order_book.go:272-275 | map and queue change together to the sorted insertion of the order |
| OrderDepths.OrderDepth.DecrSize | matching/order_book.go:277-294 | unknown order or too large a size is an error that changes nothing; otherwise the size drops in both and the order goes at zero |
| DedupWindow.SetBitLaw | matching/window.go:58-75 | setting a bit changes that bit and no other |
| DedupWindow.Set | matching/window.go:48-56 | setting bit i of the byte slice changes only what reading bit i gives |
| DedupWindow.BitWindow.PutId | matching/window.go:119-133 | accepts or rejects as the window's set of taken residues says and records an accepted id; Min and Max stay |
| DedupWindow.TakenAreAcceptedResidues | matching/window.go:119-133 | starting empty, bit j is set exactly when some accepted id is congruent to j modulo Cap |
| DedupWindow.AcceptedExactly | matching/window.go:119-133 | an id in (Min, Max] is accepted exactly when no earlier accepted id shares its residue, hence at most once |
| Repeats.ExecutedOnce | matching/order_book.go:89-95 | over any run, ids repeated or not, an order with an id in (0, 10000] is executed at most once: a later placing changes neither book nor log |
| Repeats.AboveIsAlwaysExecuted | matching/window.go:119-133 | an id above 10000 is let through every time |
| Repeats.RepeatsChangeNothing | matching/order_book.go:89-95 | a run with ids in (0, 10000] is the run of the first placings alone, so that what holds of distinct ids holds of it |
| MatchLoop.WalkIsPrefix | matching/order_book.go:109-172 | the makers traded with are a prefix of the queue, all but possibly the last fully filled |
| MatchLoop.WalkTakesBest | matching/order_book.go:109-172 | walking with the iterator while removing equals taking the best order again and again |
| MatchLoop.WalkBalances | matching/order_book.go:109-172 | a taker's size or funds drop by exactly what its trades sum to; every trade crosses, is positive and with the other side |
| MarketBuy.GreedyIsOptimal | matching/order_book.go:136-152 | with asks below the bound no allocation within sizes and funds buys more base than the loop |
| MarketBuy.LeftoverBuysNothing | matching/order_book.go:136-152 | what is left cannot pay one base tick at the best remaining ask |
| BookInvariant.PanicsExactly | matching/order_book.go:136-142 | an accepted order makes the loop divide by zero exactly when it is a market buy with funds that reaches an ask priced zero |
| BookInvariant.ZeroPriceAskPanics | matching/order_book.go:142-142 | such a book is reached by one limit sell at price zero; the buy has one quote tick |
| BookInvariant.ApplyKeepsValid | matching/order_book.go:89-198 | an order keeps depths sorted, sizes positive, ids unique over both sides, and the best bid below the best ask |
| BookInvariant.CancelKeepsValid | matching/order_book.go:200-217 | so does a cancel, which removes exactly the named order |
| OrderBooks.OrderBook.MatchLoop | matching/order_book.go:109-172 | the in-place loop changes the depth, the taker, counters and log as the value-level walk says, and panics exactly on a hopeless price |
| OrderBooks.OrderBook.ApplyOrder | matching/order_book.go:89-198 | the object's new state and log are those of the value-level order, or it panics |
| OrderBooks.OrderBook.CancelOrder | matching/order_book.go:200-217 | the object's new state and log are those of the value-level cancel |
| OrderBooks.OrderBook.Snapshot | matching/order_book.go:219-238 | lists every resting order once, with counters and the window of the moment |
| SharedWindow.LateWindowExactly | matching/order_book.go:219-251 | with the bits of a later moment, as the shared slice gives them, the replay yields the uninterrupted log if and only if no order in between was let through within the window's range |
| OrderBooks.OrderBook.Restore | matching/order_book.go:240-251 | fills an empty book from a snapshot in listing order |
| LogGrammar.NumberedAt | matching/order_book.go:253-261 | entry i has sequence i+1 and a match's trade id is one more than the matches before it |
| LogGrammar.LifeOfMaker | matching/order_book.go:109-172 | what the entries of one order say about a maker is what happened to it |
| OrderLives.PlaceSound | matching/order_book.go:89-198 | placing a fresh order keeps book valid, log gapless, and the log explaining for each order what became of it |
| OrderLives.CancelSound | matching/order_book.go:200-217 | so does any cancel |
| OrderLives.RunSound | matching/order_book.go:89-217 | over every run of places and cancels with distinct ids the same holds |
| OrderLives.BoundedFundsSuffice | matching/order_book.go:136-152 | below the bound a market buy ends with funds not below zero |
| MarketTheorems.NeverCrossed | matching/order_book.go:114-117 | after any run the best bid is strictly below the best ask; queues are sorted, sizes positive, ids unique |
| MarketTheorems.GaplessLog | matching/order_book.go:253-261 | over any run sequences and trade ids count 1, 2, 3, ... |
| MarketTheorems.GrammarHolds | matching/order_book.go:157-216 | an order is unseen exactly when it was not placed or was refused, standing with exactly its unmatched size, or finished with matched plus remaining equal to its size; nothing follows its Done |
| MarketTheorems.UnseenExactly | matching/order_book.go:89-96 | over any run an order has no entries if and only if no placing of it got through the window |
| Reasons.CancelledExactly | matching/order_book.go:178-216 | over any run an order is done Cancelled exactly when something of its size, or of a market buy's funds, is left, and Filled otherwise |
| MarketTheorems.PriceTimePriority | matching/order_book.go:109-172 | an order trades with the front of the other queue, each maker in full but possibly the last, at the maker's price; the rest is untouched |
| TakerTheorems.TradesAllOnOffer | matching/order_book.go:98-172 | a limit order trades the smaller of its size and what is on offer within its price, a market sell the smaller of its size and all bids; if a market sell is not filled no bid is left |
| TakerTheorems.BuysWhileItCan | matching/order_book.go:136-152 | at any prices a market buy stops only when its funds F are too little for a base tick, p < 2g(p-F), at every remaining ask up to the largest 32-bit float |
| MarketTheorems.MarketBuyIsOptimal | matching/order_book.go:136-152 | in terms of the log: no affordable purchase gets more base, and it spends within its funds and to the last tick it can |
| MarketTheorems.DebtIsBounded | matching/order_book.go:136-152 | at any prices a whole market buy overspends by at most p/(2g) for some price p it paid |
| Recovery.RestoreIsExact | matching/order_book.go:219-251 | any listing of a snapshot, restored into a fresh book, gives the very book |
| Recovery.RestoreWithoutWindow | matching/order_book.go:240-251 | a snapshot without a window restores with an empty one that lets every id above zero through |
| Recovery.CrashRecovery | matching/engine.go:102-107 | cut a run anywhere, restore there and replay the rest: book, counters and logs are those of the uninterrupted run |
| LogReader.KafkaLogReader.Run | matching/kafka_log_reader.go:50-98 | what it delivers is consecutive and leaves nothing out; it is fatal exactly at a gap, and then has delivered all before it |
| LogReader.ReadsExactly | matching/kafka_log_reader.go:73-81 | what is delivered counts up one by one from the sequence given, each entry the first one above, none above left out; the reader stops exactly at an entry that is neither delivered before nor the successor of what was |
| LogReader.AppendStretch | matching/kafka_log_reader.go:73-81 | a repeated stretch of the log that starts no later than what was delivered delivers the rest of it once |
| LogReader.CrashFreeExactly | matching/kafka_log_reader.go:73-81 | when a stretch after s follows d delivered entries, the reader goes on along the log if and only if s <= d |
| EngineInvariant.OnLogKeeps | matching/engine.go:171-204 | a received entry extends one contiguous stretch; what is stored follows what was stored; a snapshot released here is fully stored |
| EngineInvariant.OnLogTakesNewOnly | matching/engine.go:171-189 | a new entry is buffered or stored, once and in order; a repeated one changes nothing |
| EngineInvariant.OnApproveKeeps | matching/engine.go:206-213 | a snapshot is kept back exactly when it contains something not received, dropping the older pending one |
| EngineInvariant.CommitKeeps | matching/engine.go:171-204 | the step keeps the whole engine invariant, and snapshots it releases are delivered to readers |
| EngineInvariant.RequestKeeps | matching/engine.go:143-158 | a snapshot pairs the offset with exactly the book after that order |
| EngineInvariant.PersistKeeps | matching/engine.go:228-241 | storing a snapshot never goes back to an older one |
| EngineInvariant.CrashRuns | matching/engine.go:69-107 | a restarted engine stands where the crash-free run stood after the snapshot's order, covered or not |
| EngineInvariant.CrashKeeps | matching/engine.go:69-107 | with any part of the buffer written, readers stay on the log if the stored snapshot is covered by the stored log |
| EngineRuns.Reachable | matching/engine.go:94-241 | every world of every execution with such crashes satisfies the invariant; stored log and snapshot never go back |
| EngineRuns.NothingLostOrRepeated | matching/engine.go:164-213 | readers get the crash-free log up to some entry, each once; buffer, queue and outbox continue it without a gap; a nonempty buffer implies a nonempty queue; a pending snapshot is newer than what is stored |
| EngineRuns.SnapshotsAreExact | matching/engine.go:143-158 | a stored snapshot is the book after its offset, and stored offsets and log sequences never go back |
| EngineRuns.EmptyBufferIsDurable | matching/engine.go:189-213 | while the buffer is empty, stored and released snapshots are covered by the stored log |
| EngineRuns.QuiescenceIsComplete | matching/engine.go:164-213 | at quiescence the whole crash-free log is delivered and no snapshot is pending |
| EngineRuns.CanFinish | matching/engine.go:110-213 | from any such world the engine can go on to quiescence |
| EngineCrashes.WholeLogExactly | matching/engine.go:69-213 | over every execution with crashes at any moments, at quiescence readers have the whole crash-free log if and only if every crash found the stored snapshot covered |
| EngineCrashes.ReadersGetAStretch | matching/kafka_log_reader.go:73-81 | after crashes at any moments, covered or not, what a reader gets is one stretch of the crash-free log, starting with the first entry stored |
| EngineCrashes.BeginningExactly | matching/kafka_log_reader.go:73-81 | it is a beginning of the log if and only if no crash found a snapshot stored and the log store still empty |
| EngineHazard.ApprovalIsNotDurable | matching/engine.go:200-204 | a reachable world whose stored snapshot has an entry the log store does not have |
| EngineHazard.ReadersMissTheFirst | matching/kafka_log_reader.go:73-81 | an execution whose log topic starts with the second entry, which a reader takes without complaint |
| Engines.Engine.constructor | matching/engine.go:69-107 | a new engine restores the stored snapshot and resumes after its offset |
| Engines.StoredRestores | matching/engine.go:83-91 | whatever snapshot an execution stored, a new engine can be made from it |
| Engines.Engine.ApplyNext | matching/engine.go:127-142 | one pass of the applier's order arm is the step machine's, all entries pushed; it panics exactly when the step is not enabled |
| Engines.ApplyArmRuns | matching/engine.go:127-142 | that is a run of single steps: apply, then push one by one |
| Engines.Engine.AnswerRequest | matching/engine.go:143-158 | takes a snapshot exactly when more than 1000 offsets passed |
| Engines.Engine.ReceiveLog | matching/engine.go:171-204 | one pass of the committer's log arm is the step machine's |
| Engines.Engine.ReceiveApproval | matching/engine.go:206-213 | one pass of its approval arm is the step machine's |
| Engines.Engine.PersistNext | matching/engine.go:228-241 | one pass of the snapshotter, whether the store succeeds or not |
| View.SaveNewOrder | pushing/order_book.go:83-103 | a new order keeps every level's size and count the sum and number of its orders |
| View.SaveKnownOrder | pushing/order_book.go:104-139 | changing or removing a known order keeps them, and a level goes exactly with its last order |
| View.ChangeTellsAll | pushing/order_book.go:141-148 | setting the emitted change on the old level map gives the new one |
| Stream.PublishValid | pushing/order_book_stream.go:94-136 | changes count up from one and replaying them gives the levels |
| Stream.StepPanicsExactly | pushing/order_book_stream.go:94-119 | an entry panics exactly if it matches an unknown order or takes an order below zero; a Done of an unknown order is skipped |
| ViewRefinement.ViewFollowsBook | pushing/order_book_stream.go:85-136 | for every run, feeding its log never panics, and the view's orders are the matching book's resting orders, its levels their sums |
| ViewRestart.RestoreIsExact | pushing/order_book.go:168-193 | any listing of a full snapshot rebuilds orders, levels and counters |
| ViewRestart.RestartIsInvisible | pushing/order_book_stream.go:63-69 | resuming after its offset and sequence ends in the same view as no restart, also over Done entries that were skipped |
| ViewRestart.ResumesJustAfter | pushing/order_book_stream.go:63-69 | the reader resumes with the entry after the last one saved |
| PushedBooks.PushedBook.SaveOrder | pushing/order_book.go:77-148 | the object's new state and change are those of the value-level step, or it panics |
| PushedBooks.PushedBook.ListLevels | pushing/order_book.go:150-166 | the best n levels of a side, best first, as many as there are |
| PushedBooks.PushedBook.SnapshotFull | pushing/order_book.go:168-183 | lists every order once with the counters |
| PushedBooks.TopIsComplete | pushing/order_book.go:150-166 | a side with at most n levels is listed completely |
| PushedBooks.TopIsBest | pushing/order_book.go:150-166 | asks are listed from the cheapest, bids from the dearest, and what is left out is worse |
| PushedBooks.OrderBookStream.OnMessage | pushing/order_book_stream.go:85-136 | one entry: panics exactly when the value-level step does, else follows it; snapshots lag by at most ten and ten thousand changes and are genuine |
| L2Client.SnapshotShowsAll | pushing/client.go:184-194 | a client that gets a genuine snapshot of at most 1000 levels a side shows exactly the server's levels |
| L2Client.ReactExactly | pushing/client.go:167-230 | the writer keeps a product in sync if and only if a request to a synced product meets no contradicting buffered change |
| L2Client.HarmlessRequests | pushing/client.go:170-194 | an empty buffer, or a snapshot at the buffer's own sequence, is always harmless |
| L2Client.AnyEntryResyncs | pushing/client.go:170-194 | after a loss any entry syncs the product exactly, once the snapshot has caught up |
| L2Client.UpdateIsExact | pushing/client.go:211-230 | whenever an update is sent the client shows the server's levels |
| L2Client.AlwaysInSync | pushing/client.go:141-232 | under any loss, repetition or reordering, over all products, messages since the last snapshot followed by the buffer give the server's level map at lastSeq |
| L2Client.PromptUpdate | pushing/client.go:211-230 | in every run, the next change in sequence of a synced product is shown at once when nothing waits behind it, and nothing stays buffered |
| L2Client.BuffersWhileBusy | pushing/client.go:214-230 | with something waiting, changes are held back until there are ten and then sent together in order |
| L2Client.GapAsksAgain | pushing/client.go:202-212 | in every run, a gap with nothing waiting leaves a request for the product in the queue, and the product waits for a snapshot as new as what it missed |
| L2Client.RunsEmptySynced | pushing/client.go:163-230 | a step that empties the queue leaves its product synced, unless no snapshot new enough could be had, and buffers nothing unless the entry told nothing new |
| L2Client.NeverGoesBack | pushing/client.go:177-200 | a product's lastSeq only grows, and a repeated or late change of a synced product changes nothing |
| L2ChangeWriters.L2ChangeWriter.HandleNext | pushing/client.go:163-230 | one pass of the writer's loop is the protocol's step |
| L2ChangeWriters.StaleBuffer | pushing/client.go:170-194 | a run in which a request with a nonempty buffer makes the client show a stale level |
| Orders.Round | service/order_service.go:38-56 | rounds to the nearest tick, a half away from zero |
| Orders.PlacedIsAdmitted | service/order_service.go:37-86 | whatever the limits, a placed order has amounts the engine takes, a positive hold within available money, and funds that cover a limit order exactly |
| Orders.PlacedAsRequested | service/order_service.go:37-97 | a request is turned away for the first check that fails on the rounded amounts and the limits, refused for holding nothing or more than is available, or placed with exactly the requested kind, side and rounded amounts |
| Orders.SellForNothingIsPlaced | service/order_service.go:42-45 | a limit sell at price zero is placed |
| Orders.OneMoves | service/order_service.go:152-228 | a fill's bills take from hold exactly what the order takes, overspent or not, and move each currency by the fill's effect |
| Orders.AllMove | service/order_service.go:147-228 | so do all fills of a call, for every order |
| Orders.SettlesAHundred | models/mysql/fill_store.go:33-40 | a call settles the order's unsettled fills in order, a hundred at most, up to its end |
| OrderServices.OrderService.PlaceOrder | service/order_service.go:27-105 | the tables change as the value-level order says, or nothing changes and the error tells why |
| OrderServices.OrderService.ExecuteFill | service/order_service.go:111-243 | the loop over at most 100 fills, stopping at the one that ends the order, changes order, bills and fills as the value-level step says |
| OrderServices.OrderService.HoldBalance | service/account_service.go:87-131 | moves money to hold, or refuses |
| OrderServices.OrderService.ExecuteBill | service/account_service.go:25-85 | books the first 100 bills of the owner in one sum |
| Accounts.HoldMoves | service/account_service.go:87-131 | holding stays within available money and makes or loses nothing |
| Accounts.BookingMoves | service/account_service.go:55-75 | booking moves money from bills to the account, and hold ends where the unsettled bills said |
| Accounts.BookingProgresses | service/account_service.go:46-75 | each call leaves a hundred bills fewer, or none |
| Accounts.BookingMakesAccounts | service/account_service.go:33-59 | a call with nothing to book changes nothing, a missing account is made by its first bill, and no other account changes |
| Tables.Query | models/mysql/fill_store.go:33-40 | the first n selected rows in id order |
| FairTrades.RunFair | matching/order_book.go:109-197 | every logged trade has positive size, a price not below zero, and two placed orders of opposite sides, the maker's side and price being the logged ones; other entries quote their orders |
| FillMakers.LifeIsFills | worker/fill_maker.go:60-102 | an order's fills add up to what its log entries say it traded |
| FillMakers.TwoFillsATrade | worker/fill_maker.go:60-85 | over any run each trade has exactly one taker fill, of the taker order, and one maker fill, of the maker order, with its size and price |
| FillMakers.FillKeysDistinct | models/mysql/fill_store.go:54-68 | no two fills have the same order and sequence, so the table's unique key turns none away |
| FillMakers.DoneHasItsFill | worker/fill_maker.go:91-102 | every Done makes a fill that says what it says |
| FillMakers.FlushesInTime | worker/fill_maker.go:104-128 | fills are stored once nothing waits or a thousand are buffered, and not before |
| FillMakers.FillsCancel | worker/fill_maker.go:60-85 | the fills of any log cancel out in each currency |
| FillMakers.EndsAreLast | worker/fill_maker.go:91-102 | no fill of an order follows its Done fill |
| FillMakers.FillMaker.FlushNext | worker/fill_maker.go:104-128 | nothing is lost or reordered between queue, buffer and table |
| Settlement.FillStepKeeps | service/order_service.go:111-243 | executing fills keeps hold decomposition, conservation, tallies and order of settling |
| Settlement.PlaceStepKeeps | service/order_service.go:27-105 | so does placing |
| Settlement.BillStepKeeps | service/account_service.go:25-85 | so does booking |
| Settlement.AlwaysBalanced | service/order_service.go:111-243 | every world of every run of placing, cancelling, matching, consuming, storing, settling and booking satisfies them, at any prices |
| SettlementTheorems.HoldIsExactly | service/order_service.go:147-228 | at any prices a hold is the unfinished orders' held less used amounts, plus what unsettled bills will take, less what finished orders used beyond what was held; available money is never negative |
| SettlementTheorems.AvailableIsExactly | service/order_service.go:152-190 | for every user, at any prices and every moment: available plus what unsettled bills will add is the deposit, less what placing took, plus what a buyer's settled fills brought in base and a seller's in quote, plus what ended orders did not use |
| SettlementTheorems.BillsExplainAccounts | service/account_service.go:62-74 | every account is what was deposited and what its settled bills say |
| SettlementTheorems.HoldIsExplained | service/order_service.go:147-228 | with limit prices below the bound the last part is nothing, and no part and no hold is negative |
| Overspending.HoldsAreRightExactly | service/order_service.go:147-228 | holds are right in every world of every run with limit prices up to a cap if and only if the cap is below twice the grain |
| SettlementTheorems.EndIsExact | service/order_service.go:189-226 | a finished order settled exactly what it traded, nothing of it is left, and its bills take the larger of what was held and used; below the bound, what was held |
| SettlementTheorems.MoneyIsConserved | service/order_service.go:152-190 | per currency, at any prices, money on accounts, in unsettled bills and in unsettled fills is what was deposited, at every moment |
| SettlementTheorems.AtRestAccountsBalance | service/account_service.go:55-75 | once all is settled the accounts hold exactly the deposits, and holds are what unfinished orders reserve less what finished ones overspent |
| SettlementTheorems.AtRestOrdersAreExact | service/order_service.go:147-195 | once all is settled an order has ended exactly when matching finished it, with exactly the amounts it traded |
| SettlementTheorems.EndStatusIsExact | service/order_service.go:193-200 | an order ends Cancelled exactly when something was left of it, and Filled otherwise |
| SettlementTheorems.AtRestStatusIsExact | worker/fill_maker.go:87-89 | once all is settled an order is Open exactly when it rests on the book, Cancelled or Filled as matching finished it, New when matching never saw it |
| SettlementRuns.CanSettle | service/order_service.go:111-243 | from every world settlement can come to rest |
| Exchange.ViewAlwaysValid | pushing/order_book_stream.go:85-136 | after every single entry of every run, also inside an order, the view has not panicked and its levels and published changes are exact |
| Exchange.EngineFeedsView | pushing/order_book_stream.go:63-136 | over every engine execution, crashes included, a view fed by the stored log never panics, stays exact, and at quiescence holds the engine's resting orders |
| Exchange.EngineFeedsSettlement | worker/fill_maker.go:52-58 | at every moment readers of a crashing engine and settlement have logs of which one begins the other; a settlement of the whole topic has all that readers get, and at quiescence just that |
| Overspending.PurchaseOverspends | matching/order_book.go:142-152 | a placed market buy that takes a cheap ask and then one at twice the grain spends one unit more than its funds |
| Overspending.HoldEndsBelowZero | service/order_service.go:203-211 | a run from deposits through placing, matching, settling and booking that ends at rest with a hold of minus one |
| ZeroPrice.EngineStops | matching/order_book.go:142-142 | a run from deposits in which the service places a sell at price zero and a buy of one tick, and the engine cannot process the buy |
| ZeroPrice.StuckForGood | matching/order_book.go:142-142 | after that nothing is matched, whatever else happens |

## Left out

- SettlementTheorems.HoldIsExplained: limit prices are assumed below twice the grain; `HoldIsExactly` is the equation without that, and
  `HoldsAreRightExactly` says that no higher cap would do.
- Settlement.AlwaysBalanced: settlement is crash-free. After a crash the fill maker resumes after the last stored fill although a match's two
  fills may fall in different inserts; the unique index and INSERT IGNORE of the fill table matter only then (`FillKeysDistinct`).
- EngineRuns.Reachable: crashes are those after which the stored snapshot is covered by the stored log; `WholeLogExactly` is about crashes at any
  moment.
- L2Client.AlwaysInSync: a request that reaches a synced product must meet no contradicting buffered change, `ReactExactly` being the exact
  condition, and snapshots are of at most 1000 levels a side.
- L2Client.AnyEntryResyncs: that another entry arrives is not promised; with several products in one queue a product's last changes may
  stay buffered until it changes again.
- MarketTheorems.NeverCrossed: order ids are assumed distinct over a run, as database keys are; `RepeatsChangeNothing` covers repeated ids up to 10000. Ids above the window's Max are always accepted,
  because `put` changes a copy of the window's bounds, so a sliding window is not claimed; `contains` is a stub.
- OrderBooks.OrderBook.ApplyOrder: the red-black tree and its iterator are a sorted sequence in which removing the visited order leaves the rest in
  place; orders in the depth are values in a map, so sharing of a maker between map and local variable is not modelled.
- OrderBooks.OrderBook.Snapshot: the window is copied with its bits, and engine executions store it as it was; the program shares the slice, so
  later bits get stored with it. `LateWindowExactly` says what that does to a restart.
- Decimals.BuyableBounds: base scales up to 15. At 16 there is no guard digit left and prices above one tick already round up.
- Engines.Engine.ReceiveLog: channel capacities and blocking are not modelled; queues are unbounded. The log store's failure is a crash.
- OrderServices.OrderService.HoldBalance: one atomic step. The program checks the balance before it locks the row; that race is not excluded.
- OrderServices.OrderService.ExecuteFill: one atomic step, though fills are read outside the transaction. Deadlocks, retries and the sharding of workers are left out.
- Orders.PlacedIsAdmitted: one product with two currencies and two sides; unknown products and misspelt sides are left out.
- PushedBooks.OrderBookStream.OnMessage: its invariant is promised when the messages keep the feed valid; `ViewAlwaysValid` shows that those of
  a matching run do, one by one. Storing full snapshots in Redis is left out.
- Settlement.MatchStep: settlement uses the matching functions directly; `EngineFeedsSettlement` says that a crashing engine gives it the same log.
- Kafka, Redis, MySQL, websockets, JSON, timestamps and product ids in log entries: stores are sequences and maps, serialisation is the identity.
- Tick, trade and ticker makers, subscriptions, REST controllers, users, tokens and configuration: easy folds or plumbing.
