/** Whole runs of the market: the invariant holds in every reachable state, and what follows
    from it for participants. */
module MarketRuns {
  import opened Prelude
  import opened Ledger
  import opened LedgerProofs
  import opened Bids
  import opened Transactions
  import opened OrderBook
  import opened Market
  import opened MarketInvariant
  import opened MarketSteps
  import opened MarketSteps2

  // ---------------------------------------------------------------- batches

  lemma EmptyZoneOk(bids: map<string, Bid>, matchKey: string)
    ensures ZoneOk(bids, matchKey, EMPTY_BOOK)
  {
  }

  lemma ZonesOk(s: State, matchKey: string)
    requires HotOk(s.bids, s.tasks, s.hotQueue, s.zones)
    ensures ZoneOk(s.bids, matchKey, ZoneOf(s, matchKey))
  {
    EmptyZoneOk(s.bids, matchKey);
  }

  lemma SessionMirrors(s: State, b: Batch, x: HotBid)
    requires HotOk(s.bids, s.tasks, s.hotQueue, s.zones) && BatchPossible(s, b)
    requires From(x, b.books[0], Incoming(b.events))
    ensures Mirrors(s.bids, b.matchKey, x)
  {
    ZonesOk(s, b.matchKey);
    if x in Incoming(b.events) {
      assert (b.matchKey, x) in s.hotQueue;
    }
  }

  lemma PurgedBookOk(last: Book, purged: Book)
    requires last.Sided() && last.Uncrossed()
    ensures var zone := Book(last.buys - purged.buys, last.sells - purged.sells);
            && zone.Sided() && zone.Uncrossed()
            && (forall x :: x in zone.buys ==> x in last.buys) && (forall x :: x in zone.sells ==> x in last.sells)
  {
  }

  lemma BatchZoneOk(s: State, b: Batch)
    requires HotOk(s.bids, s.tasks, s.hotQueue, s.zones) && BatchPossible(s, b)
    ensures ZoneOk(s.bids, b.matchKey, ZoneAfter(b))
  {
    hide HotOk;
    ZonesOk(s, b.matchKey);
    hide Mirrors;
    SessionKeepsUncrossed(b.books, b.time, b.events);
    var last := b.books[|b.events|];
    PurgedBookOk(last, b.purged);
    var zone := ZoneAfter(b);
    forall x | x in zone.buys || x in zone.sells ensures Mirrors(s.bids, b.matchKey, x) {
      assert x in last.buys || x in last.sells;
      SessionOrigin(b.books, b.time, b.events, x);
      SessionMirrors(s, b, x);
    }
  }

  lemma MirroredPairFair(bids: map<string, Bid>, matchKey: string, time: int, newer: HotBid, older: HotBid)
    requires Mirrors(bids, matchKey, newer) && Mirrors(bids, matchKey, older) && FairPair(newer, older, time)
    ensures FairKeys(bids, time, newer.bidKey, older.bidKey)
  {
    var n, o := bids[newer.bidKey], bids[older.bidKey];
    MatchKeyInjective(n.article, n.price.currency, o.article, o.price.currency);
  }

  lemma BatchPairsFair(s: State, b: Batch)
    requires HotOk(s.bids, s.tasks, s.hotQueue, s.zones) && BatchPossible(s, b)
    ensures PairsFair(s.bids, b.time, KeyPairs(Matches(b.events)))
  {
    hide HotOk, FairKeys, FairPair, Mirrors;
    ZonesOk(s, b.matchKey);
    var pairs := Matches(b.events);
    forall pair | pair in KeyPairs(pairs) ensures FairKeys(s.bids, b.time, pair.0, pair.1) {
      var i :| 0 <= i < |pairs| && pair == KeyPairs(pairs)[i];
      assert (pairs[i].0, pairs[i].1) in pairs;
      SessionPairsFair(b.books, b.time, b.events, pairs[i].0, pairs[i].1);
      SessionMirrors(s, b, pairs[i].0);
      SessionMirrors(s, b, pairs[i].1);
      MirroredPairFair(s.bids, b.matchKey, b.time, pairs[i].0, pairs[i].1);
    }
  }

  lemma BatchHotOk(s: State, b: Batch)
    requires HotOk(s.bids, s.tasks, s.hotQueue, s.zones) && BatchPossible(s, b)
    ensures var s' := FinishBatch(s, b); HotOk(s'.bids, s'.tasks, s'.hotQueue, s'.zones)
  {
    hide ZoneOk, PairsFair, Mirrors, Session, Matches, Incoming, ZoneAfter, KeyPairs, Keys, Book.All;
    BatchZoneOk(s, b);
    BatchPairsFair(s, b);
  }

  lemma TasksGrow(tasks: multiset<Task>, more: multiset<Task>, bids: map<string, Bid>, txs: map<string, Tx>)
    requires TasksPending(tasks, bids, txs)
    ensures TasksPending(tasks + more, bids, txs)
  {
  }

  lemma BatchKeeps(crypto: Crypto, s: State, b: Batch)
    requires Invariant(crypto, s) && BatchPossible(s, b)
    ensures Invariant(crypto, FinishBatch(s, b))
  {
    hide BooksOk, BidsOk, TxsLinked, BidsLinked, Escrowed, CurrenciesAgree, TasksPending, TxsOk, HotOk, Explained, SettledOnce,
         ZoneAfter, BatchTasks;
    BatchHotOk(s, b);
    TasksGrow(s.tasks, BatchTasks(b), s.bids, s.txs);
  }

  // ---------------------------------------------------------------- tasks

  /** Acknowledging a task is safe once nothing depends on it any more. */
  lemma AckKeeps(crypto: Crypto, s: State, task: Task)
    requires Invariant(crypto, s)
    requires task.RetireBidTask? && task.bid in s.bids ==> !IsOpen(s.bids[task.bid])
    requires task.RetireTxTask? && task.tx in s.txs && s.txs[task.tx].state == Active ==>
               task.eta != s.txs[task.tx].timeout
    ensures Invariant(crypto, s.(tasks := s.tasks - multiset{task}))
  {
    hide BooksOk, BidsOk, TxsLinked, BidsLinked, Escrowed, CurrenciesAgree, TxsOk, HotOk, Explained, SettledOnce, TasksPending;
    var left := s.tasks - multiset{task};
    HotKept(s.bids, s.tasks, s.hotQueue, s.zones, s.bids, left);
    AckedTasks(s.tasks, s.bids, s.txs, task);
  }

  lemma AckedTasks(tasks: multiset<Task>, bids: map<string, Bid>, txs: map<string, Tx>, task: Task)
    requires TasksPending(tasks, bids, txs)
    requires task.RetireBidTask? && task.bid in bids ==> !IsOpen(bids[task.bid])
    requires task.RetireTxTask? && task.tx in txs && txs[task.tx].state == Active ==> task.eta != txs[task.tx].timeout
    ensures TasksPending(tasks - multiset{task}, bids, txs)
  {
  }

  lemma TasksUntouchedByRetirement(s: State, key: string, now: int, moveKey: string)
    ensures RetireBidStep(s, key, now, moveKey).Ok? ==> RetireBidStep(s, key, now, moveKey).value.tasks == s.tasks
    ensures RetireTransaction(s, key, now, moveKey).Ok? ==> RetireTransaction(s, key, now, moveKey).value.tasks == s.tasks
  {
    hide Place;
  }

  lemma CreatedAfterEpoch(crypto: Crypto, s: State, key: string)
    requires Invariant(crypto, s) && key in s.bids
    ensures s.bids[key].created >= 0
  {
    assert BidOk(s.bids[key]);
  }

  lemma RetiredBidNotOpen(s: State, key: string, now: int, moveKey: string)
    requires key in s.bids && s.bids[key].created >= 0
    requires RetireBidStep(s, key, now, moveKey).Ok?
    ensures var s' := RetireBidStep(s, key, now, moveKey).value;
            key in s'.bids && !IsOpen(s'.bids[key])
  {
    hide Place;
  }

  lemma RetirementOutcome(s: State, key: string, now: int, moveKey: string)
    requires key in s.txs && s.txs[key].state == Active
    ensures RetireTransaction(s, key, now, moveKey) == Err(TooYoung) ==> now < s.txs[key].timeout
    ensures RetireTransaction(s, key, now, moveKey) != Err(AlreadyRetired)
    ensures RetireTransaction(s, key, now, moveKey).Ok? ==>
              key in RetireTransaction(s, key, now, moveKey).value.txs &&
              RetireTransaction(s, key, now, moveKey).value.txs[key].state == Retired
  {
    hide Sound, CanApply;
  }

  lemma TaskKeeps(crypto: Crypto, s: State, task: Task, now: int, moveKey: string)
    requires Invariant(crypto, s) && task in s.tasks && moveKey !in s.books.movements
    requires !task.ApplyTask? ==> task.eta <= now
    requires TaskDone(s, task, now, moveKey).Ok?
    ensures Invariant(crypto, TaskDone(s, task, now, moveKey).value)
  {
    hide Invariant, RetireBidStep, RetireTransaction, IsOpen;
    match task
    case ApplyTask(_, _, _) =>
      AckKeeps(crypto, s, task);
    case RetireBidTask(key, _) =>
      var s' := RetireBidStep(s, key, now, moveKey).value;
      TasksUntouchedByRetirement(s, key, now, moveKey);
      RetireBidKeeps(crypto, s, key, now, moveKey);
      if key in s.bids {
        CreatedAfterEpoch(crypto, s, key);
        RetiredBidNotOpen(s, key, now, moveKey);
      }
      BidsOnlyFromStore(s, key, now, moveKey);
      AckKeeps(crypto, s', task);
    case RetireTxTask(key, _) =>
      TasksUntouchedByRetirement(s, key, now, moveKey);
      if key in s.txs && s.txs[key].state == Active {
        RetirementOutcome(s, key, now, moveKey);
      }
      TxsOnlyFromStore(s, key, now, moveKey);
      if RetireTransaction(s, key, now, moveKey).Ok? {
        RetireTxKeeps(crypto, s, key, now, moveKey);
        AckKeeps(crypto, RetireTransaction(s, key, now, moveKey).value, task);
      } else {
        AckKeeps(crypto, s, task);
      }
  }

  lemma BidsOnlyFromStore(s: State, key: string, now: int, moveKey: string)
    ensures RetireBidStep(s, key, now, moveKey).Ok? ==> key in s.bids
  {
  }

  lemma TxsOnlyFromStore(s: State, key: string, now: int, moveKey: string)
    ensures RetireTransaction(s, key, now, moveKey).Ok? ==> key in s.txs && s.txs[key].state == Active
  {
    hide Place;
  }

  // ---------------------------------------------------------------- all runs

  lemma InitialOk(crypto: Crypto)
    ensures Invariant(crypto, INITIAL)
  {
    var books := INITIAL.books;
    forall c ensures TotalHeld(books, c) + FeesCollected(books, c) == NetDeposits(books, c) {
      SumZero(Holdings(books.accounts, c));
      SumZero(FeesBy(books.movements, c));
      SumZero(WorldBy(books.movements, c));
    }
    forall p ensures HasHistory(books, p) {
      assert IsHistory(books.movements, AccountOf(books.accounts, p), p, []);
    }
    forall p ensures AccountOf(books.accounts, p).blocked == Obligations(INITIAL.bids, INITIAL.txs, p) {
      SumZero(BidDues(INITIAL.bids, p));
      SumZero(TxDues(INITIAL.txs, p));
    }
    forall c ensures Moves(books.movements, c) == {} {
    }
  }

  lemma StepKeeps(crypto: Crypto, s: State, step: Step)
    requires Invariant(crypto, s) && Possible(s, step)
    ensures Invariant(crypto, After(crypto, s, step))
  {
    hide Invariant, PlaceDeposit, EnqueueBid, PlaceBid, RetireBidStep, MatchBids, UpdateTransaction, RetireTransaction,
         FinishBatch, TaskDone, ParseBid, BidOk;
    if Attempt(crypto, s, step).Ok? {
      match step
      case DoDeposit(uid, deposit, moveKey) => DepositKeeps(crypto, s, uid, deposit, moveKey);
      case DoEnqueue(bidType, article, price, participant, now, bidKey, moveKey) =>
        var b := ParseBid(bidType, article, price, participant, now, SERVER_DEFAULTS).value;
        ParsedBidFields(bidType, article, price, participant, now);
        EnqueuedParticipant(s, b, bidKey, moveKey);
        ParsedBidOk(bidType, article, price, participant, now);
        EnqueueKeeps(crypto, s, b, bidKey, moveKey);
      case DoBatch(batch) => BatchKeeps(crypto, s, batch);
      case DoPlace(key) => PlaceBidKeeps(crypto, s, key);
      case DoMatch(time, newKey, oldKey, txKey, moveKey) => MatchKeeps(crypto, s, time, newKey, oldKey, txKey, moveKey);
      case DoMessage(key, now, address, arguments) => MessageKeeps(crypto, s, key, now, address, arguments);
      case DoRetireBid(key, now, moveKey) => RetireBidKeeps(crypto, s, key, now, moveKey);
      case DoRetireTx(key, now, moveKey) => RetireTxKeeps(crypto, s, key, now, moveKey);
      case DoTask(task, now, moveKey) => TaskKeeps(crypto, s, task, now, moveKey);
    }
  }

  /** The invariant holds throughout every run. */
  lemma {:induction false} RunKeeps(crypto: Crypto, states: seq<State>, steps: seq<Step>)
    requires Run(crypto, states, steps)
    ensures Invariant(crypto, states[|steps|])
  {
    hide Invariant, After, Possible;
    if steps == [] {
      InitialOk(crypto);
    } else {
      var n := |steps| - 1;
      RunKeeps(crypto, states[..|steps|], steps[..n]);
      StepKeeps(crypto, states[n], steps[n]);
    }
  }

  lemma ReachableOk(crypto: Crypto, s: State)
    requires Reachable(crypto, s)
    ensures Invariant(crypto, s)
  {
    hide Invariant, After, Possible;
    var states, steps :| Run(crypto, states, steps) && states[|steps|] == s;
    RunKeeps(crypto, states, steps);
  }
}
