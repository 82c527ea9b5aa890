/** Nothing that is settled is ever undone: how any later state of a run relates to an earlier
    one. */
module MarketProgress {
  import opened Prelude
  import opened Amounts
  import opened Ledger
  import opened Bids
  import opened Transactions
  import opened TransactionProofs
  import opened OrderBook
  import opened Market
  import opened MarketInvariant
  import opened MarketSteps

  /** A bid keeps its terms, and once matched or expired it never changes again. */
  predicate BidForward(b: Bid, b': Bid) {
    && SameTerms(b, b')
    && (!IsOpen(b) ==> b' == b)
    && (b.state == Placed ==> b'.state != InQueue)
  }

  predicate BidsForward(bids: map<string, Bid>, bids': map<string, Bid>) {
    forall k :: k in bids ==> k in bids' && BidForward(bids[k], bids'[k])
  }

  predicate MovementsForward(movements: map<string, Movement>, movements': map<string, Movement>) {
    forall k :: k in movements ==> k in movements' && movements'[k] == movements[k]
  }

  predicate Forward(s: State, s': State) {
    && BidsForward(s.bids, s'.bids)
    && TxsEvolve(s.txs, s'.txs)
    && DepositsEvolve(s.deposits, s'.deposits)
    && MovementsForward(s.books.movements, s'.books.movements)
  }

  lemma PlaceForward(books: Books, now: int, r: Request, key: string)
    requires key !in books.movements && Place(books, now, r, key).Ok?
    ensures MovementsForward(books.movements, Place(books, now, r, key).value.movements)
  {
    hide Sound, ApplySide;
  }

  lemma DeliverForward(crypto: Crypto, tx: Tx, now: int, address: string, arguments: Arguments)
    requires Deliver(crypto, tx, now, address, arguments).1.accepted
    ensures SameDeal(tx, Deliver(crypto, tx, now, address, arguments).0) && tx.state == Active
  {
    hide FindRule, FindTransition, Handle, Arrive, Identify;
    var rule := FindRule(RULES, tx, address, arguments).value;
    HandleKeepsDeal(crypto, rule.kind, tx, arguments);
    var transition := FindTransition(rule.transitions, tx.phase).value;
    ArriveFacts(Handle(crypto, rule.kind, tx, arguments).value
                .(phase := transition.postPhase, revision := tx.revision + 1), now);
  }

  lemma DepositForward(s: State, uid: string, d: Deposit, moveKey: string)
    requires moveKey !in s.books.movements
    ensures PlaceDeposit(s, uid, d, moveKey).Ok? ==> Forward(s, PlaceDeposit(s, uid, d, moveKey).value)
  {
    hide Place;
    if PlaceDeposit(s, uid, d, moveKey).Ok? && uid !in s.deposits {
      PlaceForward(s.books, d.created, DepositRequest(uid, d), moveKey);
    }
  }

  lemma MessageForward(crypto: Crypto, s: State, key: string, now: int, address: string, arguments: Arguments)
    ensures UpdateTransaction(crypto, s, key, now, address, arguments).Ok? ==>
            Forward(s, UpdateTransaction(crypto, s, key, now, address, arguments).value)
  {
    hide Deliver;
    if UpdateTransaction(crypto, s, key, now, address, arguments).Ok? {
      DeliverForward(crypto, s.txs[key], now, address, arguments);
    }
  }

  lemma PlaceBidForward(s: State, key: string)
    ensures PlaceBid(s, key).Ok? ==> Forward(s, PlaceBid(s, key).value)
  {
  }

  /** Steps that touch tasks, zones or the account list only. */
  lemma SideForward(s: State, s': State, s'': State)
    requires Forward(s, s')
    requires s''.bids == s'.bids && s''.txs == s'.txs && s''.deposits == s'.deposits
    requires s''.books.movements == s'.books.movements
    ensures Forward(s, s'')
  {
  }

  lemma StepForward(crypto: Crypto, s: State, step: Step)
    requires Possible(s, step)
    ensures Forward(s, After(crypto, s, step))
  {
    hide PlaceDeposit, EnqueueBid, PlaceBid, RetireBidStep, MatchBids, UpdateTransaction, RetireTransaction,
         ParseBid, ZoneAfter, BatchTasks, Forward, Handled, Incoming;
    ForwardReflexive(s);
    match step
    case DoDeposit(uid, d, moveKey) => DepositForward(s, uid, d, moveKey);
    case DoEnqueue(bidType, article, price, participant, now, bidKey, moveKey) =>
      if ParseBid(bidType, article, price, participant, now, SERVER_DEFAULTS).Ok? {
        EnqueueForward(s, ParseBid(bidType, article, price, participant, now, SERVER_DEFAULTS).value, bidKey, moveKey);
      }
    case DoBatch(batch) => SideForward(s, s, FinishBatch(s, batch));
    case DoPlace(key) => PlaceBidForward(s, key);
    case DoMatch(time, newKey, oldKey, txKey, moveKey) => MatchForward(s, time, newKey, oldKey, txKey, moveKey);
    case DoMessage(key, now, address, arguments) => MessageForward(crypto, s, key, now, address, arguments);
    case DoRetireBid(key, now, moveKey) => RetireBidForward(s, key, now, moveKey);
    case DoRetireTx(key, now, moveKey) => RetireTxForward(s, key, now, moveKey);
    case DoTask(task, now, moveKey) => TaskForward(s, task, now, moveKey);
  }

  lemma TaskForward(s: State, task: Task, now: int, moveKey: string)
    requires moveKey !in s.books.movements
    ensures TaskDone(s, task, now, moveKey).Ok? ==> Forward(s, TaskDone(s, task, now, moveKey).value)
  {
    hide RetireBidStep, RetireTransaction, Forward;
    if TaskDone(s, task, now, moveKey).Ok? {
      var s'' := TaskDone(s, task, now, moveKey).value;
      ForwardReflexive(s);
      match task
      case ApplyTask(_, _, _) => SideForward(s, s, s'');
      case RetireBidTask(key, _) =>
        RetireBidForward(s, key, now, moveKey);
        SideForward(s, RetireBidStep(s, key, now, moveKey).value, s'');
      case RetireTxTask(key, _) =>
        RetireTxForward(s, key, now, moveKey);
        SideForward(s, if RetireTransaction(s, key, now, moveKey).Ok? then RetireTransaction(s, key, now, moveKey).value else s, s'');
    }
  }

  lemma EnqueueForward(s: State, b: Bid, bidKey: string, moveKey: string)
    requires bidKey !in s.bids && moveKey !in s.books.movements
    ensures EnqueueBid(s, b, bidKey, moveKey).Ok? ==> Forward(s, EnqueueBid(s, b, bidKey, moveKey).value)
  {
    hide Place, CanApply, Touch, MatchKey;
    if EnqueueBid(s, b, bidKey, moveKey).Ok? && b.bidType == Buy {
      var price := b.price.Add(b.fee);
      var accounts := CheckBalance(s.books.accounts, b).value;
      PlaceForward(s.books.(accounts := accounts), b.created, BidRequest(b, bidKey, BidBooked, price.Neg(), price), moveKey);
    }
  }

  lemma RetireBidForward(s: State, key: string, now: int, moveKey: string)
    requires moveKey !in s.books.movements
    ensures RetireBidStep(s, key, now, moveKey).Ok? ==> Forward(s, RetireBidStep(s, key, now, moveKey).value)
  {
    hide Place;
    if RetireBidStep(s, key, now, moveKey).Ok? && IsOpen(s.bids[key]) && s.bids[key].bidType == Buy
       && s.bids[key].created >= 0 {
      PlaceForward(s.books, now, RefundRequest(s.bids[key], key), moveKey);
    }
  }

  lemma RetireTxForward(s: State, key: string, now: int, moveKey: string)
    requires moveKey !in s.books.movements
    ensures RetireTransaction(s, key, now, moveKey).Ok? ==> Forward(s, RetireTransaction(s, key, now, moveKey).value)
  {
    hide Place, SettlementRequest;
    if RetireTransaction(s, key, now, moveKey).Ok? {
      PlaceForward(s.books, now, SettlementRequest(s.txs[key], key), moveKey);
    }
  }

  lemma BookTxForward(books: Books, tx: Tx, t: string, b: Bid, moveKey: string)
    requires moveKey !in books.movements && BookTx(books, tx, t, b, moveKey).Ok?
    ensures MovementsForward(books.movements, BookTx(books, tx, t, b, moveKey).value.movements)
  {
    hide Place;
    var delta := b.price.Add(b.fee).Sub(tx.price.Add(tx.fee));
    if delta.amount != 0 {
      PlaceForward(books, tx.matched,
                   TxRequest(TxBooked, tx.buyer, tx.buyer, delta, delta.Neg(), Zero(tx.price.currency), t), moveKey);
    }
  }

  lemma MatchForward(s: State, time: int, newKey: string, oldKey: string, t: string, moveKey: string)
    requires t !in s.txs && moveKey !in s.books.movements
    ensures MatchBids(s, time, newKey, oldKey, t, moveKey).Ok? ==>
            Forward(s, MatchBids(s, time, newKey, oldKey, t, moveKey).value)
  {
    hide BookTx;
    if MatchBids(s, time, newKey, oldKey, t, moveKey).Ok? {
      var (tx, newBid, oldBid) := NewTransaction(time, newKey, oldKey, s.bids[newKey], AsPlaced(s.bids[oldKey])).value;
      BookTxForward(s.books, tx, t, if newBid.bidType == Buy then newBid else oldBid, moveKey);
    }
  }

  lemma ForwardTransitive(a: State, b: State, c: State)
    requires Forward(a, b) && Forward(b, c)
    ensures Forward(a, c)
  {
    forall k | k in a.bids ensures k in c.bids && BidForward(a.bids[k], c.bids[k]) {
      assert BidForward(a.bids[k], b.bids[k]) && BidForward(b.bids[k], c.bids[k]);
    }
    forall t | t in a.txs
      ensures t in c.txs && SameDeal(a.txs[t], c.txs[t]) && (a.txs[t].state == Retired ==> c.txs[t] == a.txs[t])
    {
      assert SameDeal(a.txs[t], b.txs[t]) && SameDeal(b.txs[t], c.txs[t]);
    }
    forall k | k in a.books.movements ensures k in c.books.movements && c.books.movements[k] == a.books.movements[k] {
      assert b.books.movements[k] == a.books.movements[k];
    }
  }

  /** Whatever happens between two points of a run, in whatever order and however often tasks
      are executed: a matched bid stays in its one transaction, an expired bid stays expired, a
      retired transaction and every ledger entry stay as they are. */
  lemma {:induction false} RunForward(crypto: Crypto, states: seq<State>, steps: seq<Step>, i: nat, j: nat)
    requires Run(crypto, states, steps) && i <= j <= |steps|
    ensures Forward(states[i], states[j])
    decreases j
  {
    hide After, Possible, Forward;
    if i == j {
      ForwardReflexive(states[i]);
    } else {
      RunForward(crypto, states, steps, i, j - 1);
      StepForward(crypto, states[j - 1], steps[j - 1]);
      ForwardTransitive(states[i], states[j - 1], states[j]);
    }
  }

  lemma ForwardReflexive(s: State)
    ensures Forward(s, s)
  {
  }

  /** Placing a deposit again, in any later state, is accepted and changes nothing; a different
      deposit under the same uid is refused. */
  lemma DepositIdempotent(crypto: Crypto, states: seq<State>, steps: seq<Step>, i: nat, j: nat,
                          uid: string, d: Deposit, again: Deposit, moveKey: string)
    requires Run(crypto, states, steps) && i <= j <= |steps|
    requires uid in states[i].deposits && states[i].deposits[uid] == d
    ensures PlaceDeposit(states[j], uid, again, moveKey) ==
            if SameDeposit(d, again) then Ok(states[j]) else Err(DifferentDeposit)
  {
    hide After, Possible, Place;
    RunForward(crypto, states, steps, i, j);
  }
}
