# The BitWrk market, verified

BitWrk is a marketplace for computing power. Its server is an escrow market: a buy bid blocks
money, a batch matcher pairs bids, a protocol of messages decides the outcome of each
transaction, and timed tasks settle it. This project models that server and proves what it
promises over whole runs. It also covers the self-contained algorithms of the repository: modular
square roots, the stream of a render job, price statistics, the ticket store, money as text, and
the tiling of images.

`dafny verify dfyconfig.toml` checks everything.

## How the market is modelled

- **Ledger, bids, transactions** (`Ledger`, `Bids`, `Transactions`, with `LedgerProofs` and
  `TransactionProofs`): values and specification functions. Amounts are int64 with wrap-around;
  times are integers in nanoseconds; datastore keys are strings, and new keys come from outside.
- **State machine** (`Market`): everything the server stores, including the multiset of queued
  tasks, and each datastore transaction as one atomic step. An error leaves the state as it was.
  Steps may happen in any order. Tasks may run late and repeatedly, retirements may be attempted
  at any time, the keys handed to the matching step are arbitrary, and messages come from
  anybody with any content.
- **Invariant and theorems** (`MarketInvariant`, `MarketSteps`, `MarketSteps2`, `MarketRuns`,
  `MarketTheorems`, `MarketEntries`, `MarketOutcomes`, `MarketProgress`, `MarketFates`): what holds
  in every reachable state, exactly when each step succeeds and what it does to everybody's account,
  what lies between any two points of a run, and what holds over whole runs. `MarketWitness` holds
  runs in which things go wrong.
- **The code as it runs** (`Dao`, `Entities`, `Server`, `ServerQueue`, with `QueueProofs`): the datastore, the
  write-back cache, the mutable accounts, bids and transactions, and the request and task
  handlers, as classes and methods. Whether there may be outages is an input
  (`Datastore.reliable`, `HotZone.reliable`): if so, any access may fail. Each method is proved
  to commit exactly the specified step or to change nothing.
- **The matcher** (`HotHeap`, `HotQueue`, `Matcher`, `ServerBatch`): the heap, the merged queue and
  the matching loop, proved to be sessions of the reference order book (`OrderBook`), inside a
  datastore transaction that takes the market's batch step.
- **Storage** (`EntityCodec`): transactions and ledger entries as property lists.

The other modules stand alone: `Residues` and `SquareRoot`; `ChunkedStream`, `RenderJob` and
`TaggedStream`; `Prices`; `Handprints` and `Tickets`; `MoneyText`; `Tiling`.

## Where the code falls short of a plain promise

- A payment to the seller needs the seller's account to be empty or in the payment's currency.
  `MarketTheorems.PaidTxCanRetire` says exactly when settlement succeeds; otherwise the retirement
  stays queued (`MarketTheorems.DueTaskSettles`). `MarketWitness.SellerNotPaid` is a run in which
  that happens.
- A handed-over pair becomes a transaction exactly if both bids are still available and unexpired
  at the batch's time (`MarketTheorems.HandedOverPairsMatch`). In the run of
  `MarketWitness.PairTooLate` the older bid is retired first.
- An entry between two parts of one account names itself as its blocked predecessor until it is
  reloaded from the datastore (`EntityCodec.SelfLinkDisappears`; `MarketWitness.SelfLink` is the
  first deposit of a run). Histories do not follow that link, so they survive
  (`EntityCodec.HistoriesSurviveStorage`).
- With p = 3 mod 4 the root finder does not report that a number is no square; it returns a root of
  the negative instead, and the recovered point is off the curve without an error
  (`SquareRoot.BogusRoot`). With p = 1 mod 4 it panics unless p is 1 modulo 8, p - 1 is not a power
  of two, and some number below 22 is no square (`SquareRoot.Panics`). It also misses the root of a
  zero that is written as a non-zero multiple of p (`SquareRoot.MissedZero`). `SquareRoot.SqrtMod`
  and `SquareRoot.UncompressPoint` state all of this exactly. The comment in the source that the
  general branch is "probably not working" is not borne out.
- Renewing a node's interest can leave a ticket in the pool that the node could have had
  (`Tickets.RenewedInterestUnsettles`); `Tickets.RenewedInterest` says exactly when.
- Amounts of 10^17 or more can be written but not read back (`MoneyText.RoundTrip`,
  `MoneyText.TooMuchToRead`). Bids are stated in text, so their prices stay below that, and the
  prices of queued hot bids, which travel as text, always read back
  (`MarketTheorems.HotBidsReadBack`).
- A trade at the boundary of two time slots counts in the earlier one, unless a tile begins there
  (`Prices.SlotOfTrade`, with two such trades in `Prices.BoundaryTrades`).

## Model

| member | source | states |
|---|---|---|
| Prelude.Wrap | common/bitwrk/account.go:238-254 | Int64 arithmetic: the result is congruent modulo 2^64, and exact within the range |
| Ledger.ValidateCurrency | common/bitwrk/account.go:435-443 | The first currency is adopted, any other must be the same |
| Ledger.Validate | common/bitwrk/account.go:447-547 | Although the sum is accumulated with wrap-around, exactly those movements pass that have one currency, flow in the directions prescribed for their type, and sum to zero in exact integers |
| Ledger.CanApplyIsExact | common/bitwrk/account.go:222-254 | On healthy accounts the wrapped test admits a delta exactly if the exact balance stays in [0, MaxInt64] and the currency fits or may change |
| LedgerProofs.PlaceFacts | common/bitwrk/account.go:287-356 | A placed movement changes both sides by exactly its deltas, also when both are one account, and links to what was each account's last movement |
| LedgerProofs.PlaceConserves | common/bitwrk/account.go:287-356 | Per currency, money held, fees and deposits change in balance, across currency changes of empty accounts |
| LedgerProofs.HistoryGrows | common/bitwrk/account.go:287-356 | A new movement becomes the newest of the histories of its accounts and of no other, and balances stay explained |
| LedgerProofs.ChainUnique | common/bitwrk/account.go:287-356 | Following predecessors from one head visits one sequence of movements only |
| LedgerProofs.PlaceKeepsBooks | common/bitwrk/account.go:287-356 | Soundness, conservation and complete histories are kept by every placement |
| LedgerProofs.HoldingBounded | common/bitwrk/account.go:154-166 | No account holds more than was deposited in its currency |
| Bids.GuardPreventsOverflow | common/bitwrk/bid.go:138-143 | Below the guard's limit the fee's numerator cannot overflow |
| Bids.ParsedPrice | common/bitwrk/bid.go:163-187 | The price of a bid stated in text is not negative and below 10^17 |
| Bids.StatedBid | common/bitwrk/bid.go:123-187 | A stated bid is taken exactly if its type is known and its price reads as an amount that is not negative; its fee is 3 percent rounded up, and it expires two minutes after its creation |
| Bids.FeeIsLeast | common/bitwrk/bid.go:138-146 | The fee of an accepted price is the least f with denominator * f >= numerator * price, is not negative, and price plus fee fits int64 |
| Bids.FeeMonotone | common/bitwrk/bid.go:138-146 | A higher price has at least as high a fee |
| Bids.MatchKeyInjective | common/bitwrk/bid.go:256-265 | Two bids with the same match key have the same article and currency |
| Market.ServerRatioSane | server/server_bid.go:173-178 | The server's fee ratio admits the exact fee computation |
| TransactionProofs.TableSound | common/bitwrk/transaction.go:311-346 | Every transition of the rule table is one of the protocol |
| TransactionProofs.TableComplete | common/bitwrk/transaction.go:311-346 | Every step of the protocol is in the rule table |
| TransactionProofs.FoundRuleFits | common/bitwrk/transaction.go:371-391 | The rule found is that of the message's kind, with exactly its arguments and its sender |
| TransactionProofs.DeliverFollowsProtocol | common/bitwrk/transaction.go:371-463 | A message is accepted exactly if the transaction is active and not timed out, the sender and arguments mean a kind that the phase allows, and its handler succeeds; then the phase is the protocol's next |
| TransactionProofs.HashesTaken | common/bitwrk/transaction.go:534-538 | Exactly when the buyer's hashes are accepted, and that each argument ends up in the field of its name and nothing else changes |
| TransactionProofs.UrlTaken | common/bitwrk/transaction.go:529-532 | Exactly when the worker's URL is accepted, and what becomes of it |
| TransactionProofs.SecretTaken | common/bitwrk/transaction.go:540-550 | Exactly when the buyer's secret is accepted, and what becomes of it |
| TransactionProofs.ReceiptTaken | common/bitwrk/transaction.go:552-561 | Exactly when result hash, signature and key are accepted, and which field each ends up in |
| TransactionProofs.VerdictTaken | common/bitwrk/transaction.go:311-369 | Exactly when acceptance and the two rejections are accepted; they set the phase, make the transaction due at once and change nothing else |
| TransactionProofs.ProtocolAdvances | common/bitwrk/transaction.go:311-346 | Every step of the protocol raises the rank of the phase |
| TransactionProofs.TimeGranted | common/bitwrk/transaction.go:348-369 | Time grants on arrival keep the timeout within what the phase allows after the match |
| TransactionProofs.TimeoutKept | common/bitwrk/transaction.go:348-369 | Arrival in a phase keeps the timeout what the recorded messages make it, since no phase is reached twice |
| TransactionProofs.HandleGathersEvidence | common/bitwrk/transaction.go:528-560 | A handled message leaves on record the evidence that the next phase requires |
| TransactionProofs.SecretMeetsHashes | common/bitwrk/transaction.go:539-549 | Wherever the buyer's secret is allowed, both hashes it is checked against are on record |
| TransactionProofs.DeliverKeepsOk | common/bitwrk/transaction.go:417-463 | An accepted message keeps parties and terms, evidence, the exact timeout and the chain of messages, and strictly advances the phase |
| TransactionProofs.FewMessages | common/bitwrk/transaction.go:311-346 | At most five messages are accepted in the life of a transaction |
| TransactionProofs.PaymentIsJustified | common/bitwrk/transaction.go:667-681 | Where settlement pays the seller, the buyer's last message was an acceptance, or a receipt verifies for the buyer and the secret is published |
| TransactionProofs.FreshTxOk | common/bitwrk/transaction.go:566-619 | A new transaction starts with a sound record |
| OrderBook.HandledConserves | server/gae/gae_matching.go:300-346 | An incoming bid and all resting bids end up resting, dropped as expired, or matched, each exactly once |
| OrderBook.DealtMatches | server/gae/gae_matching.go:330-339 | From prices and expiries alone: a match happens if some living offer undercuts the bid, or has its price while all living offers at that price expire earlier; and it only happens if some living offer undercuts the bid, or has its price and expires earlier |
| OrderBook.HandledKeepsUncrossed | server/gae/gae_matching.go:300-346 | No resting buy is ever priced above a resting sell |
| OrderBook.SessionConserves | server/gae/gae_matching.go:291-346 | The fates of all bids add up over a whole batch |
| OrderBook.SessionKeepsUncrossed | server/gae/gae_matching.go:291-346 | The book stays uncrossed over a whole batch |
| OrderBook.SessionPairsFair | server/gae/gae_matching.go:330-339 | Every emitted pair has opposite sides, an unexpired older bid, and an older price at least as good as the newer bid asks for |
| OrderBook.SessionMatches | server/gae/gae_matching.go:291-346 | In a batch, every incoming bid that must match when its turn comes is in an emitted pair, and one that may not match has no partner |
| OrderBook.SessionOrigin | server/gae/gae_matching.go:291-346 | What rests after a batch was there before or came in |
| HotHeap.BelowTransitive | server/gae/gae_matching.go:61-73 | On one side of the book the order of hot bids is transitive |
| HotHeap.FirstIsHottest | server/gae/gae_matching.go:79-100 | The first entry of a heap is the hottest |
| HotHeap.HotBidsHeap.Push | server/gae/gae_matching.go:90-92 | The heap gains the bid and stays a heap |
| HotHeap.HotBidsHeap.Pop | server/gae/gae_matching.go:93-99 | The first entry is removed, and the rest stays a heap |
| HotHeap.HotBidsHeap.Down | server/gae/gae_matching.go:83-99 | Sinking restores the heap order below the top without changing the contents |
| HotQueue.HotBidsQueue.Init | server/gae/gae_matching.go:126-132 | Lazy initialisation runs the query once and fetches the first stored bid |
| HotQueue.HotBidsQueue.FetchNext | server/gae/gae_matching.go:134-147 | The next stored bid becomes the stored tip, in the query's order |
| HotQueue.HotBidsQueue.FrontIsBest | server/gae/gae_matching.go:149-184 | The tip merged from the heap and the price-sorted iterator is best-priced among everything resting on its side |
| HotQueue.HotBidsQueue.FrontIsHottest | server/gae/gae_matching.go:149-184 | Neither the stored tip nor any cached bid is hotter than the merged tip: among equal prices the earlier expiry is served first |
| HotQueue.HotBidsQueue.Tip | server/gae/gae_matching.go:170-184 | Reading the tip changes nothing that rests |
| HotQueue.HotBidsQueue.Pop | server/gae/gae_matching.go:187-201 | Exactly the tip is removed, and nothing of the other side is disturbed |
| HotQueue.HotBidsQueue.PopStoredTip | server/gae/gae_matching.go:189-194 | A stored tip is deleted from the datastore and replaced by the next |
| HotQueue.HotBidsQueue.Insert | server/gae/gae_matching.go:204-210 | The side gains exactly the bid |
| HotQueue.HotBidsQueue.Persist | server/gae/gae_matching.go:213-224 | Exactly the cached bids are added to the stored ones |
| HotQueue.HotBidsQueue.Flush | server/gae/gae_matching.go:226-233 | Lists the keys of all cached bids, hottest first, and empties the cache |
| Matcher.SkipExpired | server/gae/gae_matching.go:312-328 | Only expired bids are dropped, until the tip is alive or the side is empty |
| Matcher.HandleBid | server/gae/gae_matching.go:302-346 | An incoming bid is matched with a best living offer if that is cheaper, or dearer for a sell, than the bid asks, or costs the same and expires earlier; otherwise it rests, and what is left either is nothing or has a best living offer without that property |
| Matcher.MatchAll | server/gae/gae_matching.go:291-346 | The loop over the incoming bids is a session of the reference order book, and the emitted keys are those of its pairs |
| Matcher.Store | server/gae/gae_matching.go:348-355 | What is stored afterwards is what was left and still alive, plus the new resting bids, whose keys are listed |
| Matcher.DeleteExpired | server/gae/gae_matching.go:268-287 | Exactly the bids that had expired when the transaction began are deleted, including ones popped already |
| Matcher.MatchIncomingBids | server/gae/gae_matching.go:268-355 | Matching, storing and purging of a batch do what the batch step of the market specifies, with its pairs and placed keys, or fail in an outage and leave the zone as it was |
| Matcher.BatchConserves | server/gae/gae_matching.go:235-362 | Every stored or incoming bid ends in exactly one of stored, matched, dropped or purged |
| ServerBatch.MatchZone | server/gae/gae_matching.go:254-362 | The whole transaction, with the apply-changes task it schedules, takes the batch step on the store, or leaves store and zone as they were; the latter only in an outage |
| MarketFates.EveryBidAccounted | server/gae/gae_matching.go:235-362 | Over any run, every bid that came into a zone rests in it, was paired, or was removed as expired, in exactly one way each time it came |
| Dao.CachedDao.constructor | common/bitwrk/dao.go:86-97 | A new cache shows what the store holds |
| Dao.CachedDao.GetAccount | common/bitwrk/dao.go:99-122 | Reads what was written or stored; a missing account becomes a default one that will be saved |
| Dao.CachedDao.SaveAccount | common/bitwrk/dao.go:124-131 | Later reads see the account; an account without a participant is refused |
| Dao.CachedDao.GetMovement | common/bitwrk/dao.go:133-146 | Reads what was written or stored and changes nothing visible |
| Dao.CachedDao.SaveMovement | common/bitwrk/dao.go:148-155 | Later reads see the movement |
| Dao.CachedDao.GetDeposit | common/bitwrk/dao.go:161-172 | Reads what was written or stored and changes nothing visible |
| Dao.CachedDao.SaveDeposit | common/bitwrk/dao.go:174-178 | Later reads see the deposit |
| Dao.CachedDao.Flush | common/bitwrk/dao.go:188-215 | Wherever it fails the visible state is unchanged and it can be retried; on success the store equals the cache, and flushing again changes nothing |
| Dao.CacheRead | common/bitwrk/dao.go:62-84 | A cached read and a read through the cache agree with one plain map |
| Dao.CacheFlush | common/bitwrk/dao.go:188-215 | Writing one dirty entry back changes nothing visible |
| Entities.ParticipantAccount.ApplyTo | common/bitwrk/account.go:243-254 | Writes the balance through its part exactly as specified, or refuses and changes nothing |
| Entities.PlaceSide | common/bitwrk/account.go:321-348 | One side of a movement, read and saved through the cache |
| Entities.PlaceAccountMovement | common/bitwrk/account.go:287-356 | Step by step through the cache, the books become what placement specifies, also for equal participants |
| Entities.PlaceDepositVia | common/bitwrk/deposit.go:142-191 | A deposit is credited once; the same deposit again is accepted without effect, a different one under the same uid is refused |
| Entities.BidEntity.CheckBalanceOf | common/bitwrk/bid.go:190-214 | The check on the account as the cache shows it is the specified one; MarketOutcomes.BidAccepted says what that admits |
| Entities.BidEntity.Book | common/bitwrk/bid.go:216-229 | A buy blocks its price and fee, a sell nothing |
| Entities.BidEntity.Retire | common/bitwrk/bid.go:231-254 | An open bid expires and an open buy gets its money back; other bids are left alone |
| Entities.TransactionEntity.FindMatchingRule | common/bitwrk/transaction.go:371-391 | The loop finds the first rule whose sender and arguments fit |
| Entities.TransactionEntity.FindMatchingTransition | common/bitwrk/transaction.go:393-400 | The loop finds the transition of the current phase |
| Entities.TransactionEntity.RunHandler | common/bitwrk/transaction.go:466-560 | The handlers set the fields as specified, and a panic counts as a failure; TransactionProofs.HashesTaken and its neighbours say which argument ends up where |
| Entities.TransactionEntity.OnArrival | common/bitwrk/transaction.go:348-369 | The timeout becomes what arrival specifies; MarketTheorems.TimeoutIsExact says what that amounts to |
| Entities.TransactionEntity.SendMessage | common/bitwrk/transaction.go:417-463 | The transaction and the record of the message become what delivery specifies |
| Entities.TransactionEntity.Book | common/bitwrk/transaction.go:624-640 | Frees what the buyer's bid blocked beyond price and fee; a negative difference is an error |
| Entities.TransactionEntity.Retire | common/bitwrk/transaction.go:653-689 | Settles as specified, once, and not before the timeout; MarketEntries.SettledByPhase and MarketOutcomes.TxRetirementOutcome say what that means phase by phase |
| Entities.JoinBids | common/bitwrk/transaction.go:566-619 | A matching pair becomes a transaction on the older bid's terms, and both bids are matched; otherwise nothing changes |
| Server.CreateDeposit | common/bitwrk/deposit.go:155-191 | Commits exactly the deposit step or nothing; without outages it commits exactly if the step succeeds |
| Server.StoreBid | server/gae/gae_main.go:67-118 | Commits exactly the step that blocks the money, stores the bid, schedules its retirement and queues it for matching, or nothing; without outages it commits exactly if the step succeeds |
| Server.MarkPlaced | server/gae/gae_main.go:192-227 | Commits exactly the placing of a queued bid or nothing; without outages it commits exactly if the step succeeds |
| Server.RetireStoredBid | server/gae/gae_main.go:151-190 | Commits exactly the retirement of a bid or nothing; without outages it commits exactly if the step succeeds |
| Server.MatchStoredBids | server/gae/gae_matching.go:365-438 | Commits exactly the creation of a transaction from two bids or nothing; without outages it commits exactly if the step succeeds |
| Server.UpdateStoredTransaction | server/gae/gae_main.go:278-313 | Commits exactly the delivery of a message with its record and a new retirement task, or nothing; without outages it commits exactly if the step succeeds |
| Server.RetireStoredTransaction | server/gae/gae_main.go:229-254 | Commits exactly the settlement of a transaction or nothing; without outages it commits exactly if the step succeeds |
| ServerQueue.PlaceAll | server/server_queue.go:83-93 | Placing a list of bids takes possible steps only; without outages the state becomes that of placing them one by one, skipping failures |
| ServerQueue.HandleApplyChanges | server/server_queue.go:75-114 | Every step taken is a possible one and was asked for; without outages the state becomes that of placing all listed bids and then matching all pairs, in order, skipping failures |
| ServerQueue.HandleRetireTransaction | server/server_queue.go:39-57 | Acknowledges settlement, and attempts that come too early or too late; otherwise nothing has changed, and without outages only because the settlement itself fails |
| ServerQueue.HandleRetireBid | server/server_queue.go:59-73 | Acknowledges a retired bid; otherwise nothing has changed, and without outages only because the retirement itself fails |
| ServerQueue.DeliverTask | server/server_queue.go:39-114 | Whatever a delivered task does is a sequence of possible steps and keeps the invariant; without outages the state becomes exactly what the task asks for |
| QueueProofs.AppliedPairs | server/server_queue.go:107-113 | After the delivery of an apply-changes task without outages, a pair has its transaction exactly if both bids were available and unexpired when its turn came |
| QueueProofs.AvailablePairs | server/server_queue.go:107-113 | A pair whose bids are open when the task is delivered, and are in no earlier pair of it, has its transaction afterwards |
| QueueProofs.AppliedPlacings | server/server_queue.go:83-93 | After the delivery no bid the task lists as placed is still in the queue |
| MarketSteps2.EnqueueKeeps | server/gae/gae_main.go:67-118 | Enqueueing a bid keeps the whole invariant |
| MarketSteps2.MatchKeeps | server/gae/gae_matching.go:365-438 | Matching keeps the whole invariant for arbitrary key pairs |
| MarketSteps2.MatchJoins | common/bitwrk/transaction.go:566-640 | A successful match links two different bids to a new transaction and frees exactly the excess of the buyer's bid |
| MarketSteps2.MessageKeeps | server/gae/gae_main.go:278-313 | An accepted message keeps the whole invariant |
| MarketSteps2.RetireTxKeeps | server/gae/gae_main.go:229-254 | Settlement keeps the whole invariant |
| MarketSteps.RetireBidKeeps | server/gae/gae_main.go:151-190 | Retiring a bid keeps the whole invariant |
| MarketSteps.DepositKeeps | common/bitwrk/deposit.go:155-191 | A deposit keeps the whole invariant |
| MarketRuns.BatchKeeps | server/gae/gae_matching.go:235-362 | A batch keeps the whole invariant |
| MarketRuns.TaskKeeps | server/server_queue.go:39-114 | Running and acknowledging a task keeps the whole invariant |
| MarketRuns.AckKeeps | server/server_queue.go:39-73 | A task may be forgotten once nothing open depends on it |
| MarketRuns.RetirementOutcome | common/bitwrk/transaction.go:642-665 | An active transaction is never called retired, and too young only before its timeout |
| MarketRuns.StepKeeps | server/gae/gae_main.go:67-313 | Every possible step, successful or not, keeps the invariant |
| MarketRuns.RunKeeps | server/server_queue.go:39-114 | The invariant holds throughout every run, with tasks late, repeated and in any order |
| MarketRuns.ReachableOk | server/server_queue.go:39-114 | The invariant holds in every reachable state |
| MarketTheorems.EscrowIsExact | common/bitwrk/bid.go:216-254 | Each participant's blocked amount is the sum of price and fee over open buys and active purchases, and the account's currency is that of every positive obligation |
| MarketTheorems.MoneyIsConserved | common/bitwrk/account.go:479-547 | Per currency, balances and fees add up to net deposits, and all balances lie in [0, MaxInt64] |
| MarketTheorems.HistoriesAreComplete | common/bitwrk/account.go:287-356 | Each account's chain of movements ends, visits exactly its movements newest first, is unique, and sums to both balances |
| MarketTheorems.MovedExactlyOnce | common/bitwrk/transaction.go:624-689 | Every booking, reimbursement, settlement, excess and deposit has moved money exactly once if it happened and never otherwise, and each movement is the whole request its cause calls for: accounts, both deltas, fee, world and currency |
| MarketEntries.EntriesMeanWhatTheySay | common/bitwrk/bid.go:216-254 | Every ledger entry says, in plain amounts, what its bid, transaction or deposit calls for: accounts, both deltas, fee, world and currency by type |
| MarketEntries.SettledByPhase | common/bitwrk/transaction.go:653-689 | A retired transaction was ended by exactly one entry: in the phases Finished and Unverified it moves the price to the seller out of the buyer's blocked money and keeps the fee, in every other phase it returns price and fee to the buyer; an active one was ended by none |
| MarketOutcomes.DepositOutcome | common/bitwrk/deposit.go:142-191 | Exactly when a deposit is credited, which error it meets otherwise, and that only its account changes, by its amount |
| MarketOutcomes.BidAccepted | common/bitwrk/bid.go:190-229 | Exactly when a stated bid is accepted, from its author's account alone: a sell if its price could be received, a buy if price and fee are available; the error otherwise, and what an accepted bid blocks, stores and schedules |
| MarketOutcomes.MatchOutcome | common/bitwrk/transaction.go:566-640 | For arbitrary keys and times: exactly when two bids are joined, which error they meet otherwise, the transaction's parties, terms and timeout, both matched bids, and the buyer's excess made available |
| MarketOutcomes.BidRetirementOutcome | common/bitwrk/bid.go:231-254 | An open bid expires and an open buy gets exactly price and fee back; a matched or expired one stays as it is |
| MarketOutcomes.TxRetirementOutcome | common/bitwrk/transaction.go:642-689 | Never twice, never before the timeout, and then by phase, with the resulting balances of everybody; it fails only if the seller's account cannot take the payment |
| MarketTheorems.OneTransactionPerBid | server/gae/gae_matching.go:365-438 | A bid is matched exactly if it is in a transaction, and it is in at most one |
| MarketTheorems.BooksNeverCross | server/gae/gae_matching.go:291-362 | In every reachable state no resting buy is priced above a resting sell, and resting bids mirror stored bids |
| MarketTheorems.OpenBidCanRetire | common/bitwrk/bid.go:231-254 | While net deposits fit int64, retiring an open buy always succeeds |
| MarketTheorems.FailedTxCanRetire | common/bitwrk/transaction.go:653-689 | While net deposits fit int64, reimbursing the buyer of a failed transaction always succeeds |
| MarketTheorems.PaidTxCanRetire | common/bitwrk/transaction.go:653-689 | While net deposits fit int64, paying the seller succeeds exactly if the seller's account can take the currency |
| MarketTheorems.HandedOverPairsMatch | server/gae/gae_matching.go:365-438 | A pair handed over by the matcher becomes a transaction exactly if both bids are still available, and its booking never sees a negative difference |
| MarketTheorems.HandedOverPairsFair | server/gae/gae_matching.go:330-339 | For every such transaction, ask <= price <= bid |
| MarketTheorems.ForcedMatchHandedOver | server/gae/gae_matching.go:291-362 | In a batch on any reachable state, a bid that prices and expiries force to match is in a pair of the scheduled apply-changes task; one they do not allow to match has no partner |
| MarketTheorems.RestingIsPlaced | server/gae/gae_matching.go:342-362 | A bid that rests in its zone after a batch without having been stored there before is listed as placed in the scheduled task |
| MarketTheorems.PaidOnlyWithEvidence | common/bitwrk/transaction.go:667-681 | Every payment to a seller rests on the buyer's acceptance or on a receipt verified for the buyer |
| MarketTheorems.NothingIsStranded | server/gae/gae_queue.go:71-82 | Every active transaction has a task due at its current timeout, at most 23 minutes after the match and with at most five messages, and every open bid has a task due at its expiry |
| MarketTheorems.TimeoutIsExact | common/bitwrk/transaction.go:348-369 | The timeout of every transaction follows exactly from its recorded messages: 60 seconds after the match, plus 2, 5 and 15 minutes for having reached Transmitting, Working and Unverified; in the final phases it is the arrival of the last message |
| MarketTheorems.DueTaskSettles | server/server_queue.go:39-57 | The due task settles the transaction unless the seller's account cannot take the payment, in which case it stays queued; by phase, either the seller receives the price or the buyer gets price and fee back, the buyer's blocked money goes down by price and fee, and no other account changes |
| MarketTheorems.DueBidTaskSettles | server/server_queue.go:59-73 | The due retirement of an open bid is pending, and running it makes the bid expire: every bid ends matched or expired |
| MarketTheorems.HotBidsReadBack | server/gae/gae_main.go:90-102 | The price of every queued hot bid, written as text in any unit of its currency, reads back as it was |
| MarketWitness.SellerNotPaid | common/bitwrk/transaction.go:653-689 | A run to a due, paying transaction whose seller cannot take the payment: its settlement fails and stays queued |
| MarketWitness.PairTooLate | server/gae/gae_matching.go:365-438 | A run in which a handed-over pair no longer matches, because the older bid was retired first |
| MarketWitness.SelfLink | common/bitwrk/account.go:321-348 | A run whose first entry names itself as its blocked predecessor and is reloaded without that link |
| MarketProgress.StepForward | server/gae/gae_main.go:67-313 | No step undoes anything settled |
| MarketProgress.RunForward | server/server_queue.go:39-114 | Between any two points of a run, matched bids stay in their transaction, expired bids stay expired, retired transactions, deposits and ledger entries stay as they are |
| MarketProgress.DepositIdempotent | common/bitwrk/deposit.go:155-191 | A deposit placed again, at any later time, changes nothing |
| EntityCodec.Save | server/gae/gae_codec.go:251-291 | Writes the property list of a transaction; panics for a receipt without a key |
| EntityCodec.Load | server/gae/gae_codec.go:178-247 | The loop over the properties sets the fields one by one |
| EntityCodec.TxRoundTrip | server/gae/gae_codec.go:178-291 | Saving and loading a transaction is the identity exactly if receipt and key go together, price and fee share a currency, and the URL parses |
| EntityCodec.ReachableTxRoundTrip | server/gae/gae_codec.go:178-291 | Every transaction of every reachable state survives saving and loading |
| EntityCodec.SaveMovement | server/gae/gae_codec.go:420-470 | Writes the property list of a ledger entry |
| EntityCodec.LoadMovement | server/gae/gae_codec.go:361-418 | Sets the fields one by one and completes an entry within one account |
| EntityCodec.MovementReload | server/gae/gae_codec.go:361-470 | What an entry becomes by saving and loading |
| EntityCodec.MovementRoundTrip | server/gae/gae_codec.go:361-470 | Exactly which entries come back unchanged |
| EntityCodec.SelfLinkDisappears | server/gae/gae_codec.go:412-447 | An entry within one account names itself until it is reloaded |
| EntityCodec.HistoriesSurviveStorage | server/gae/gae_codec.go:412-447 | After storing and reloading all entries every account has the same history, and it still explains both balances |
| Residues.Inverse | common/bitcoin/recoverkey.go:46-208 | Modulo a prime every unit has an inverse |
| Residues.PairedProduct | common/bitcoin/recoverkey.go:26-37 | A set paired off to products a multiplies to a power of a |
| Residues.EulersCriterion | common/bitcoin/recoverkey.go:26-37 | The power (p - 1) / 2 of a unit is one for squares and minus one otherwise |
| SquareRoot.Legendre | common/bitcoin/recoverkey.go:26-37 | Modulo an odd prime the symbol is 0 for zero, 1 for squares, -1 otherwise |
| SquareRoot.SplitPowerOfTwo | common/bitcoin/recoverkey.go:53-58 | The scan for a set bit finds p - 1 = 2^e q with q odd |
| SquareRoot.EasyRoot | common/bitcoin/recoverkey.go:62-72 | With p = 3 mod 4, one exponentiation is a root of a square and otherwise of the negative |
| SquareRoot.FindNonResidue | common/bitcoin/recoverkey.go:84-123 | Finds a non-residue below 22 or panics if there is none; the error for too many iterations never occurs |
| SquareRoot.StartApproach | common/bitcoin/recoverkey.go:125-170 | The loop's invariant holds at its start |
| SquareRoot.Approach | common/bitcoin/recoverkey.go:172-205 | Each round keeps a b = x^2 and the orders of y and b while e strictly falls |
| SquareRoot.Descend | common/bitcoin/recoverkey.go:171-206 | The loops end, every returned x is a root of a, and squares are never refused |
| SquareRoot.SqrtMod | common/bitcoin/recoverkey.go:46-208 | For every prime and every number: root, error or panic, and exactly when |
| SquareRoot.UncompressPoint | common/bitcoin/recoverkey.go:211-228 | With p = 3 mod 4 a point is always returned, on the curve exactly if the equation has a solution over x; with general p exactly then, and an error otherwise; the parity is the requested one unless y is zero |
| SquareRoot.BogusRoot | common/bitcoin/recoverkey.go:62-72 | Modulo 3 a root of 2 is returned that is none, and a point off the curve |
| SquareRoot.Panics | common/bitcoin/recoverkey.go:73-159 | Modulo 5, 17 and 53881 squares lead to a panic, for one reason each |
| SquareRoot.MissedZero | common/bitcoin/recoverkey.go:154-206 | Modulo 41 the root of 41 is missed |
| ChunkedStream.Chunked.Write | bitwrk-blender/render_bitwrk/chunked.py:26-34 | Non-empty data becomes one more chunk; what was sent is the encoding of the chunks |
| ChunkedStream.Chunked.Close | bitwrk-blender/render_bitwrk/chunked.py:36-37 | The stream ends with the empty chunk |
| ChunkedStream.HexValue | bitwrk-blender/render_bitwrk/chunked.py:31 | The hexadecimal length reads back as itself |
| ChunkedStream.Unchunked.ReadLength | bitwrk-blender/render_bitwrk/blender-slave.py:48-67 | Succeeds exactly on digits of an acceptable value followed by CR LF, with that value |
| ChunkedStream.Unchunked.NextChunk | bitwrk-blender/render_bitwrk/blender-slave.py:76-82 | Going on to the next chunk loses nothing; the empty chunk ends the stream |
| ChunkedStream.Unchunked.TakePart | bitwrk-blender/render_bitwrk/blender-slave.py:83-90 | Takes bytes of the current chunk only |
| ChunkedStream.Unchunked.Read | bitwrk-blender/render_bitwrk/blender-slave.py:69-91 | Reads of any size deliver the written bytes in order, fewer only at the end |
| RenderJob.PackUnpackInt | bitwrk-blender/render_bitwrk/tagged.py:104-105 | Signed 32-bit numbers survive packing |
| RenderJob.ResourceRoundTrip | bitwrk-blender/render_bitwrk/blender-slave.py:260-298 | An acceptable resource chunk parses to its resource and leaves what follows it |
| RenderJob.ResourceRefused | bitwrk-blender/render_bitwrk/blender-slave.py:260-298 | Any other resource chunk is refused |
| RenderJob.RoundTrip | bitwrk-blender/render_bitwrk/blender-slave.py:202-245 | Parsing a printed job gives back every field and every byte |
| RenderJob.RoundTripRefused | bitwrk-blender/render_bitwrk/blender-slave.py:202-245 | A job with too many resources or an unacceptable one is refused |
| TaggedStream.Tagged.WriteData | bitwrk-blender/render_bitwrk/tagged.py:92-102 | Sends tag, length and value; refuses bad tags and values too long |
| TaggedStream.Tagged.WriteInt | bitwrk-blender/render_bitwrk/tagged.py:104-105 | Sends a packed number |
| TaggedStream.Tagged.WriteFile | bitwrk-blender/render_bitwrk/tagged.py:74-90 | Sends a whole file however its reads are cut |
| TaggedStream.Tagged.WriteResource | bitwrk-blender/render_bitwrk/tagged.py:30-72 | Sends a resource once per path and remembers its alias; refuses what is too big |
| TaggedStream.BundleResources | bitwrk-blender/render_bitwrk/tagged.py:107-126 | Sends exactly the resources not sent before |
| TaggedStream.BundledOnce | bitwrk-blender/render_bitwrk/tagged.py:40-47 | No path is bundled twice |
| TaggedStream.BundledAll | bitwrk-blender/render_bitwrk/tagged.py:40-47 | Every requested resource is bundled, or one with the same path |
| TaggedStream.Dispatch | bitwrk-blender/render_bitwrk/render.py:59-71 | Sends the fields of a job in order and terminates the stream in any case |
| TaggedStream.ReadResource | bitwrk-blender/render_bitwrk/blender-slave.py:260-298 | Reads from the stream what the format's parser takes from the payload |
| TaggedStream.WorkField | bitwrk-blender/render_bitwrk/blender-slave.py:213-245 | Handles one field as the format's parser does |
| TaggedStream.Work | bitwrk-blender/render_bitwrk/blender-slave.py:202-245 | Reads a whole job from a chunked stream as the format's parser reads its payload, up to a clean end |
| TaggedStream.Transmit | bitwrk-blender/render_bitwrk/blender-slave.py:202-298 | Whatever the sender accepts arrives as it was sent, for all cuts into writes and reads, exactly if the receiver has no reason to refuse it |
| Prices.NestedAll | server/query/query_prices.go:84-96 | Every coarser interval is a multiple of every finer one |
| Prices.SumMeaning | server/query/query_prices.go:49-62 | A slot's sum is the wrapped sum of its own trades |
| Prices.LeastMeaning | server/query/query_prices.go:49-62 | A slot's minimum is attained by and not above any of its trades |
| Prices.GreatestMeaning | server/query/query_prices.go:49-62 | A slot's maximum is attained by and not below any of its trades |
| Prices.Slot.AddPrice | server/query/query_prices.go:49-62 | The accumulators are those of one trade more |
| Prices.Slot.Advance | server/query/query_prices.go:65-73 | The next slot begins where this one ends, with the same width |
| Prices.QueryTile | server/query/query_prices.go:319-353 | The trades of a tile are summed up in its non-empty slots |
| Prices.QueryPrices | server/query/query_prices.go:274-361 | The recursion ends and equals one pass over consecutive finest tiles; it panics exactly for too fine a tile |
| Prices.StartTileSuffices | server/query/query_prices.go:207-214 | A request never starts with too fine a tile |
| Prices.EveryTradeOnce | server/query/query_prices.go:274-361 | Within the row limits every trade of the interval is counted in exactly one slot |
| Prices.SlotsInOrder | server/query/query_prices.go:319-353 | Slots are aligned, not empty, and ordered and disjoint up to end points; each holds only trades after its beginning, or at it if a tile begins there, up to and including its end |
| Prices.SlotOfTrade | server/query/query_prices.go:329-339 | The slot of a trade is determined by its time; on a boundary it is the earlier one unless a tile begins there |
| Prices.BoundaryTrades | server/query/query_prices.go:329-339 | Two trades on boundaries, one of them where a tile begins, and their slots |
| Handprints.InsertSmallest | client/assist/assist.go:305-315 | Inserting a key into the smallest of a set gives the smallest of the larger set |
| Handprints.Handprint.constructor | client/assist/assist.go:291-302 | A handprint is the four smallest distinct keys padded with 0xff, whatever the order of chunks |
| Handprints.Handprint.Insert | client/assist/assist.go:305-315 | The loop over the fingers shifts greater keys up and drops the last |
| Handprints.Handprint.Matches | client/assist/assist.go:318-334 | True exactly if the multiset intersection has at least n members |
| Tickets.LeavingKeeps | client/assist/assist.go:168-183 | Removing a node with its edges and tickets makes no pooled ticket grantable |
| Tickets.TicketMan.ResetNode | client/assist/assist.go:168-183 | Removes exactly the node, its edges and its tickets |
| Tickets.TicketMan.Match | client/assist/assist.go:230-256 | Grants exactly what the rules allow: not to the source, only to the interested, once per edge, for a matching file |
| Tickets.TicketMan.InitNode | client/assist/assist.go:105-120 | A ticket leaves the pool exactly if it is granted to the new node, edges grow by exactly the grants, all of which obey the rules, and nothing grantable is left |
| Tickets.TicketMan.SetNodeInterested | client/assist/assist.go:122-130 | Withdrawing interest leaves nothing grantable |
| Tickets.TicketMan.ExitNode | client/assist/assist.go:132-136 | Leaving removes exactly the node, its edges and its tickets |
| Tickets.TicketMan.NewTicket | client/assist/assist.go:138-166 | A ticket is granted to one suitable node if there is any, and pooled exactly if there is none |
| Tickets.Run | client/assist/assist.go:105-183 | Any run does what its operations specify; no ticket ever goes to its source, pool and edges mention registered nodes only, past edges count all grants, and if interest is only withdrawn no pooled ticket could be granted to anybody |
| Tickets.RenewedInterest | client/assist/assist.go:122-130 | After interest is renewed nothing is grantable exactly if no pooled ticket suits the node |
| Tickets.RenewedInterestUnsettles | client/assist/assist.go:122-130 | Performs a run in which renewed interest leaves a grantable ticket in the pool |
| MoneyText.Parse | common/money/money.go:155-195 | Accepts exactly matching texts of known units with few enough digits, with their exact decimal value, and never overflows int64 |
| MoneyText.AcceptedRange | common/money/money.go:168-191 | Accepted amounts are below 10^17 |
| MoneyText.TooMuchToRead | common/money/money.go:153-295 | An amount of 10^17 that is written and refused |
| MoneyText.FormatAmount | common/money/money.go:275-295 | The loop writes the exact decimal expansion without trailing zeros |
| MoneyText.Format | common/money/money.go:256-272 | Symbol, sign and amount; panics when currencies differ |
| MoneyText.RoundTrip | common/money/money.go:153-295 | For every unit of its currency, reading a written amount gives it back exactly if it is below 10^17, and is refused otherwise |
| MoneyText.SelectUnit | common/money/money.go:216-253 | Selects the largest selectable unit without a leading zero, or else the smallest selectable |
| Tiling.InitialFeasible | bitwrk-blender/render_bitwrk/tiling.py:32-52 | The initial tiling is feasible, so nothing is raised |
| Tiling.FeasibleUpward | bitwrk-blender/render_bitwrk/tiling.py:36-38 | Cutting more finely keeps a tiling feasible |
| Tiling.OptimalTiling | bitwrk-blender/render_bitwrk/tiling.py:31-62 | Ends with a feasible tiling none of whose neighbours below is feasible, by always taking the first feasible candidate |
| Tiling.NothingBelow | bitwrk-blender/render_bitwrk/tiling.py:31-62 | No other feasible tiling has at most as many columns and rows |
| Tiling.MakeTiles | bitwrk-blender/render_bitwrk/render.py:232-246 | The nested loops list the tiles of such a tiling row by row; every pixel lies in exactly one of them, and none is empty or too large |
| Tiling.EveryPixelOnce | bitwrk-blender/render_bitwrk/render.py:237-244 | Every pixel lies in exactly one tile |
| Tiling.TilesProper | bitwrk-blender/render_bitwrk/render.py:237-244 | Every tile lies inside the image, is not empty, and has at most the allowed area |

## Left out

- HTTP handlers, templates, JavaScript, the Blender user interface and subprocesses, logging: plumbing.
- The App Engine APIs: the datastore is maps with atomic transactions, the task queues a multiset of tasks, and leased hot bids any part of the queue; unless the datastore is declared to stay available, a failure can happen at any access.
- SHA-256, signatures, base64, URL syntax, UTF-8, MD5: uninterpreted functions and predicates handed in from outside.
- The signed documents of bids and deposits, their nonces, and the parsing of deposits from strings; the relations between participants in `common/bitwrk/dao.go`.
- Codecs of accounts, bids, hot bids and deposits, whose fields are copied one to one; phase codes out of range in a stored transaction are refused in the model.
- Joining and splitting the keys of an apply-changes task, and its timestamp as text: the queued work holds the pairs themselves.
- The order in which equally priced stored bids are delivered: the query may return them in any order.
- The memcache layer of price queries, whose key does not contain the end of the interval; the article filter of the query.
- `VarUInt64Encode`, recovery of public keys beyond the curve point, address encoding.
- Client-side trading, local matching, mandates and transmission tokens: locks are released around network calls, and the code does not keep tokens conserved there.
- Global optimality of a tiling, and rounding of floating-point square roots and quotients: exact arithmetic is used.
- Locks in the ticket store: its operations are atomic there and here. The grant function is a record of grants, and handprints are immutable values in it.
- MoneyText.SelectUnit: for the most negative int64 the selected unit is the smallest selectable one, as in the code, and says nothing about its size.
- ServerBatch.MatchZone: leasing queued hot bids and deleting the leases, which happens whether or not the transaction succeeds, are not part of the method; the queue of the model never shrinks, so a bid may come in again or never, and bids that fail to decode are simply not among the incoming ones.
- Server.UpdateStoredTransaction: a rejected message is not recorded, as in the code, so histories of messages list accepted ones only.
