/** The remaining steps keep the invariant: enqueueing and matching bids, messages, settlement,
    matcher batches and task execution. */
module MarketSteps2 {
  import opened Prelude
  import opened Amounts
  import MoneyText
  import opened Ledger
  import opened LedgerProofs
  import opened Bids
  import opened Transactions
  import opened TransactionProofs
  import opened OrderBook
  import opened Market
  import opened MarketInvariant
  import opened MarketSteps

  // ---------------------------------------------------------------- enqueueing a bid

  lemma TouchChangesNothing(accounts: map<string, Account>, p: string)
    ensures forall q :: AccountOf(Touch(accounts, p), q) == AccountOf(accounts, q)
  {
  }

  lemma TouchKeepsEscrow(s: State, p: string)
    requires AllEscrowed(s)
    ensures AllEscrowed(s.(books := s.books.(accounts := Touch(s.books.accounts, p))))
  {
    var accounts := Touch(s.books.accounts, p);
    TouchChangesNothing(s.books.accounts, p);
    forall q ensures AccountOf(accounts, q).blocked == Obligations(s.bids, s.txs, q) {
      assert AccountOf(s.books.accounts, q).blocked == Obligations(s.bids, s.txs, q);
    }
  }

  lemma TouchKeeps(crypto: Crypto, s: State, p: string)
    requires Invariant(crypto, s) && p != ""
    ensures Invariant(crypto, s.(books := s.books.(accounts := Touch(s.books.accounts, p))))
  {
    hide BooksOk, BidsOk, TxsLinked, BidsLinked, Escrowed, CurrenciesAgree, TasksPending, TxsOk, HotOk, Explained, SettledOnce, Touch;
    TouchKeepsBooks(s.books, p);
    TouchKeepsEscrow(s, p);
  }

  /** A bid is added under a fresh key. */
  predicate BidAdded(bids: map<string, Bid>, bids': map<string, Bid>, k: string, b: Bid) {
    && k !in bids
    && bids' == bids[k := b]
    && BidOk(b) && b.state == InQueue
  }

  lemma AddedBidLinks(bids: map<string, Bid>, bids': map<string, Bid>, txs: map<string, Tx>, k: string, b: Bid)
    requires BidsOk(bids) && TxsLinked(bids, txs) && BidsLinked(bids, txs) && BidAdded(bids, bids', k, b)
    ensures BidsOk(bids') && TxsLinked(bids', txs) && BidsLinked(bids', txs) && BidsEvolve(bids, bids')
  {
    hide Linked, InTx, BidOk, SameTerms;
    forall t | t in txs ensures Linked(bids', t, txs[t]) {
      StillLinked(bids, bids', txs[t], t, k, b);
    }
    forall j | j in bids' ensures InTx(txs, j, bids'[j]) {
      if j == k { NotYetInTx(txs, k, b); }
    }
    forall j | j in bids ensures SameTerms(bids[j], bids'[j]) {
      TermsOfItself(bids[j]);
    }
  }

  lemma StillLinked(bids: map<string, Bid>, bids': map<string, Bid>, tx: Tx, t: string, k: string, b: Bid)
    requires Linked(bids, t, tx) && BidAdded(bids, bids', k, b)
    ensures Linked(bids', t, tx)
  {
  }

  lemma NotYetInTx(txs: map<string, Tx>, k: string, b: Bid)
    requires BidOk(b) && b.state == InQueue
    ensures InTx(txs, k, b)
  {
  }

  lemma TermsOfItself(b: Bid)
    ensures SameTerms(b, b)
  {
  }

  lemma AddedBidObligations(bids: map<string, Bid>, bids': map<string, Bid>, txs: map<string, Tx>, k: string, b: Bid)
    requires BidAdded(bids, bids', k, b)
    ensures forall p :: Obligations(bids', txs, p) == Obligations(bids, txs, p) + DueFrom(b, p)
  {
    forall p ensures Obligations(bids', txs, p) == Obligations(bids, txs, p) + DueFrom(b, p) {
      DuesAfterBid(bids, k, b, p);
    }
  }

  lemma AddedBidTasks(s: State, s': State, k: string, b: Bid)
    requires TasksPending(s.tasks, s.bids, s.txs) && HotOk(s.bids, s.tasks, s.hotQueue, s.zones)
    requires BidAdded(s.bids, s'.bids, k, b) && BidsEvolve(s.bids, s'.bids)
    requires s'.txs == s.txs && s'.zones == s.zones
    requires s'.tasks == s.tasks + multiset{RetireBidTask(k, b.expires)}
    requires s'.hotQueue == s.hotQueue + {(MatchKey(b.article, b.price.currency), NewHotBid(k, b))}
    ensures TasksPending(s'.tasks, s'.bids, s'.txs) && HotOk(s'.bids, s'.tasks, s'.hotQueue, s'.zones)
  {
    hide MatchKey, ZoneOk, PairsFair;
    HotKept(s.bids, s.tasks, s.hotQueue, s.zones, s'.bids, s'.tasks);
    assert Mirrors(s'.bids, MatchKey(b.article, b.price.currency), NewHotBid(k, b));
  }

  lemma AddedBidCurrencies(accounts: map<string, Account>, bids: map<string, Bid>, bids': map<string, Bid>,
                           txs: map<string, Tx>, k: string, b: Bid)
    requires CurrenciesAgree(accounts, bids, txs) && BidAdded(bids, bids', k, b)
    requires Due(b) > 0 ==> AccountOf(accounts, b.participant).currency == b.price.currency
    ensures CurrenciesAgree(accounts, bids', txs)
  {
  }

  function BookingRequest(b: Bid, key: string): Request
    requires b.price.currency == b.fee.currency
  {
    BidRequest(b, key, BidBooked, b.price.Add(b.fee).Neg(), b.price.Add(b.fee))
  }

  lemma BookingAccounted(s: State, s': State, k: string, b: Bid, moveKey: string)
    requires AllExplained(s) && AllSettled(s)
    requires BidAdded(s.bids, s'.bids, k, b) && BidsEvolve(s.bids, s'.bids) && b.bidType == Buy
    requires TxsLinked(s.bids, s.txs) && s'.deposits == s.deposits && s'.txs == s.txs
    requires moveKey !in s.books.movements && moveKey in s'.books.movements
    requires s'.books.movements == s.books.movements[moveKey := s'.books.movements[moveKey]]
    requires s'.books.movements[moveKey].request == BookingRequest(b, k)
    ensures AllExplained(s') && AllSettled(s')
  {
    hide Explained, SettledOnce, TxsLinked, BidAdded;
    AddedFacts(s, s', k, b);
    forall c | c != BidCause(k) ensures Expects(s', c) == Expects(s, c) {
      AddedExpects(s, s', k, b, c);
    }
    MoveAccounted(s, s', BookingRequest(b, k), moveKey, BidCause(k));
  }

  lemma AddedFacts(s: State, s': State, k: string, b: Bid)
    requires BidAdded(s.bids, s'.bids, k, b)
    ensures s'.bids == s.bids[k := b] && k !in s.bids && b.state == InQueue
    ensures b.price.currency == b.fee.currency
  {
  }

  lemma AddedExpects(s: State, s': State, k: string, b: Bid, c: Cause)
    requires BidAdded(s.bids, s'.bids, k, b) && TxsLinked(s.bids, s.txs)
    requires s'.deposits == s.deposits && s'.txs == s.txs
    requires c != BidCause(k) || b.bidType == Sell
    ensures Expects(s', c) == Expects(s, c)
  {
    match c
    case TxCause(t) => if t in s.txs { assert Linked(s.bids, t, s.txs[t]); }
    case _ =>
  }

  lemma OfferAccounted(s: State, s': State, k: string, b: Bid)
    requires AllExplained(s) && AllSettled(s)
    requires BidAdded(s.bids, s'.bids, k, b) && BidsEvolve(s.bids, s'.bids) && b.bidType == Sell
    requires TxsLinked(s.bids, s.txs) && s'.deposits == s.deposits && s'.txs == s.txs
    requires s'.books.movements == s.books.movements
    ensures AllExplained(s') && AllSettled(s')
  {
    hide Explained, SettledOnce, TxsLinked, BidAdded;
    ExplainedKept(s, s');
    forall c ensures Expects(s', c) == Expects(s, c) {
      AddedExpects(s, s', k, b, c);
    }
    SettledUnchanged(s, s');
  }

  /** Everything but money and accounting when a bid is enqueued. */
  predicate Enqueued(s: State, s': State, k: string, b: Bid) {
    && BidAdded(s.bids, s'.bids, k, b)
    && s' == s.(books := s'.books, bids := s'.bids,
                tasks := s.tasks + multiset{RetireBidTask(k, b.expires)},
                hotQueue := s.hotQueue + {(MatchKey(b.article, b.price.currency), NewHotBid(k, b))})
  }

  lemma BookedBuyKeeps(crypto: Crypto, s: State, s': State, k: string, b: Bid, moveKey: string)
    requires Invariant(crypto, s) && moveKey !in s.books.movements
    requires Enqueued(s, s', k, b) && b.bidType == Buy
    requires b.price.currency == b.fee.currency
    requires Place(s.books, b.created, BookingRequest(b, k), moveKey) == Ok(s'.books)
    ensures Invariant(crypto, s')
  {
    hide BooksOk, BidsOk, TxsLinked, BidsLinked, Escrowed, CurrenciesAgree, TasksPending, TxsOk, HotOk, Explained, SettledOnce,
         Obligations, Place, BidAdded, MatchKey, AllMoved, BidsEvolve;
    AddedBidLinks(s.bids, s'.bids, s.txs, k, b);
    AddedBidTasks(s, s', k, b);
    AllDuesNonNegative(s.bids, s.txs);
    BookingDelta(s, s', k, b);
    AddedBidObligations(s.bids, s'.bids, s.txs, k, b);
    MoneyMoves(s, s', b.created, BookingRequest(b, k), moveKey);
    assert AccountsMoved(s.books.accounts, s'.books.accounts, BookingRequest(b, k), b.participant) by {
      MovedAt(s.books.accounts, s'.books.accounts, BookingRequest(b, k), b.participant);
    }
    AddedBidCurrencies(s'.books.accounts, s.bids, s'.bids, s.txs, k, b);
    BookingAccounted(s, s', k, b, moveKey);
  }

  lemma MovedAt(accounts: map<string, Account>, accounts': map<string, Account>, r: Request, p: string)
    requires AllMoved(accounts, accounts', r)
    ensures AccountsMoved(accounts, accounts', r, p)
  {
  }

  lemma BookingDelta(s: State, s': State, k: string, b: Bid)
    requires BidAdded(s.bids, s'.bids, k, b) && b.bidType == Buy
    ensures b.price.currency == b.fee.currency
    ensures BookingRequest(b, k).blockedDelta == Money(Due(b), b.price.currency)
    ensures forall p :: DeltaFor(BookingRequest(b, k), p, Blocked) == DueFrom(b, p)
  {
    BidTotal(b);
  }

  lemma OfferKeeps(crypto: Crypto, s: State, s': State, k: string, b: Bid)
    requires Invariant(crypto, s)
    requires Enqueued(s, s', k, b) && b.bidType == Sell && s'.books == s.books
    ensures Invariant(crypto, s')
  {
    hide BooksOk, BidsOk, TxsLinked, BidsLinked, Escrowed, CurrenciesAgree, TasksPending, TxsOk, HotOk, Explained, SettledOnce,
         Obligations, BidAdded, MatchKey, BidsEvolve;
    AddedBidLinks(s.bids, s'.bids, s.txs, k, b);
    AddedBidTasks(s, s', k, b);
    AddedBidObligations(s.bids, s'.bids, s.txs, k, b);
    EscrowUnmoved(s.books.accounts, s.bids, s.txs, s'.bids, s'.txs);
    AddedBidCurrencies(s.books.accounts, s.bids, s'.bids, s.txs, k, b);
    OfferAccounted(s, s', k, b);
  }

  lemma EnqueueKeeps(crypto: Crypto, s: State, b: Bid, k: string, moveKey: string)
    requires Invariant(crypto, s) && moveKey !in s.books.movements && k !in s.bids
    requires BidOk(b) && b.state == InQueue
    requires EnqueueBid(s, b, k, moveKey).Ok?
    ensures Invariant(crypto, EnqueueBid(s, b, k, moveKey).value)
  {
    hide Invariant, Place, MatchKey, Touch, CanApply;
    var s' := EnqueueBid(s, b, k, moveKey).value;
    var touched := s.(books := s.books.(accounts := Touch(s.books.accounts, b.participant)));
    TouchKeeps(crypto, s, b.participant);
    assert BidAdded(s.bids, s'.bids, k, b);
    if b.bidType == Buy {
      BookedBuyKeeps(crypto, touched, s', k, b, moveKey);
    } else {
      OfferKeeps(crypto, touched, s', k, b);
    }
  }

  lemma ParsedBidOk(bidType: string, article: string, price: string, participant: string, now: int)
    requires now >= 0 && participant != "" && ParseBid(bidType, article, price, participant, now, SERVER_DEFAULTS).Ok?
    ensures var b := ParseBid(bidType, article, price, participant, now, SERVER_DEFAULTS).value;
            BidOk(b) && b.state == InQueue
  {
    ParsedPrice(bidType, article, price, participant, now, SERVER_DEFAULTS);
    hide MoneyText.Reading, FeeAmount;
  }

  lemma ParsedBidFields(bidType: string, article: string, price: string, participant: string, now: int)
    requires ParseBid(bidType, article, price, participant, now, SERVER_DEFAULTS).Ok?
    ensures ParseBid(bidType, article, price, participant, now, SERVER_DEFAULTS).value.participant == participant
  {
    hide MoneyText.Reading, FeeAmount;
  }

  lemma EnqueuedParticipant(s: State, b: Bid, k: string, moveKey: string)
    requires EnqueueBid(s, b, k, moveKey).Ok?
    ensures b.participant != ""
  {
    hide Place, CanApply, MatchKey;
  }

  // ---------------------------------------------------------------- changing one transaction

  /** A transaction advances without touching its deal. */
  predicate TxAdvances(txs: map<string, Tx>, txs': map<string, Tx>, t: string) {
    && t in txs && t in txs'
    && txs' == txs[t := txs'[t]]
    && SameDeal(txs[t], txs'[t])
    && txs[t].state == Active
  }

  lemma TxLinksKept(bids: map<string, Bid>, txs: map<string, Tx>, txs': map<string, Tx>, t: string)
    requires TxsLinked(bids, txs) && BidsLinked(bids, txs) && TxAdvances(txs, txs', t)
    ensures TxsLinked(bids, txs') && BidsLinked(bids, txs') && TxsEvolve(txs, txs')
  {
    forall u | u in txs' ensures Linked(bids, u, txs'[u]) {
      assert Linked(bids, u, txs[u]);
    }
    forall j | j in bids ensures InTx(txs', j, bids[j]) {
      assert InTx(txs, j, bids[j]);
    }
  }

  lemma ObligationsAfterTx(bids: map<string, Bid>, txs: map<string, Tx>, txs': map<string, Tx>, t: string)
    requires TxAdvances(txs, txs', t)
    ensures forall p :: Obligations(bids, txs', p) == Obligations(bids, txs, p) +
              (if p == txs[t].buyer then TxDue(txs'[t]) - TxDue(txs[t]) else 0)
  {
    forall p ensures Obligations(bids, txs', p) == Obligations(bids, txs, p) +
              (if p == txs[t].buyer then TxDue(txs'[t]) - TxDue(txs[t]) else 0) {
      DuesAfterTx(txs, t, txs'[t], p);
    }
  }

  lemma CurrenciesAfterTx(accounts: map<string, Account>, bids: map<string, Bid>, txs: map<string, Tx>,
                          txs': map<string, Tx>, t: string)
    requires CurrenciesAgree(accounts, bids, txs) && TxAdvances(txs, txs', t) && TxDue(txs'[t]) <= TxDue(txs[t])
    ensures CurrenciesAgree(accounts, bids, txs')
  {
  }

  // ---------------------------------------------------------------- messages

  lemma MessageTxsOk(crypto: Crypto, s: State, s': State, t: string, now: int, address: string, arguments: Arguments)
    requires TxsOk(crypto, s.txs, s.messages) && t in s.txs
    requires var (tx, m) := Deliver(crypto, s.txs[t], now, address, arguments);
             && m.accepted && s'.txs == s.txs[t := tx]
             && s'.messages == s.messages[t := MessagesOf(s, t) + [m]]
    ensures TxsOk(crypto, s'.txs, s'.messages) && TxAdvances(s.txs, s'.txs, t) && s'.txs[t].state == Active
  {
    hide TxOk, Deliver;
    DeliverKeepsOk(crypto, s.txs[t], MessagesOf(s, t), now, address, arguments);
    forall u | u in s'.txs ensures TxOk(crypto, s'.txs[u], MessagesOf(s', u)) {
      if u != t { assert TxOk(crypto, s.txs[u], MessagesOf(s, u)); }
    }
  }

  lemma MessageTasks(tasks: multiset<Task>, tasks': multiset<Task>, bids: map<string, Bid>, txs: map<string, Tx>,
                     txs': map<string, Tx>, t: string)
    requires TasksPending(tasks, bids, txs) && TxAdvances(txs, txs', t)
    requires tasks' == tasks + multiset{RetireTxTask(t, txs'[t].timeout)}
    ensures TasksPending(tasks', bids, txs')
  {
  }

  lemma MessageAccounted(s: State, s': State, t: string)
    requires AllExplained(s) && AllSettled(s)
    requires TxAdvances(s.txs, s'.txs, t) && TxsEvolve(s.txs, s'.txs) && s'.txs[t].state == Active
    requires s'.books == s.books && s'.bids == s.bids && s'.deposits == s.deposits
    ensures AllExplained(s') && AllSettled(s')
  {
    hide Explained, SettledOnce;
    ExplainedKept(s, s');
    SettledUnchanged(s, s');
  }

  lemma MessageKeeps(crypto: Crypto, s: State, t: string, now: int, address: string, arguments: Arguments)
    requires Invariant(crypto, s) && UpdateTransaction(crypto, s, t, now, address, arguments).Ok?
    ensures Invariant(crypto, UpdateTransaction(crypto, s, t, now, address, arguments).value)
  {
    hide BooksOk, BidsOk, TxsLinked, BidsLinked, Escrowed, CurrenciesAgree, TasksPending, TxsOk, HotOk, Explained, SettledOnce,
         Obligations, Deliver, TxsEvolve;
    var s' := UpdateTransaction(crypto, s, t, now, address, arguments).value;
    MessageTxsOk(crypto, s, s', t, now, address, arguments);
    TxLinksKept(s.bids, s.txs, s'.txs, t);
    ObligationsAfterTx(s.bids, s.txs, s'.txs, t);
    EscrowUnmoved(s.books.accounts, s.bids, s.txs, s'.bids, s'.txs);
    CurrenciesAfterTx(s.books.accounts, s.bids, s.txs, s'.txs, t);
    MessageTasks(s.tasks, s'.tasks, s.bids, s.txs, s'.txs, t);
    HotKept(s.bids, s.tasks, s.hotQueue, s.zones, s'.bids, s'.tasks);
    MessageAccounted(s, s', t);
  }

  // ---------------------------------------------------------------- settlement

  lemma RetiredTxsOk(crypto: Crypto, txs: map<string, Tx>, txs': map<string, Tx>, messages: map<string, seq<Tmessage>>, t: string)
    requires TxsOk(crypto, txs, messages) && t in txs
    requires txs' == txs[t := txs[t].(state := Retired, revision := txs[t].revision + 1)]
    ensures TxsOk(crypto, txs', messages)
  {
    forall u | u in txs' ensures TxOk(crypto, txs'[u], if u in messages then messages[u] else []) {
      assert TxOk(crypto, txs[u], if u in messages then messages[u] else []);
      LeadsToSameDeal(txs[u], txs'[u], if u in messages then messages[u] else [], txs[u].phase);
    }
  }

  lemma SettlementAccounted(s: State, s': State, t: string, moveKey: string)
    requires AllExplained(s) && AllSettled(s)
    requires t in s.txs && s.txs[t].state == Active && s.txs[t].price.currency == s.txs[t].fee.currency
    requires s' == s.(books := s'.books, txs := s.txs[t := s.txs[t].(state := Retired, revision := s.txs[t].revision + 1)])
    requires moveKey !in s.books.movements && moveKey in s'.books.movements
    requires s'.books.movements == s.books.movements[moveKey := s'.books.movements[moveKey]]
    requires s'.books.movements[moveKey].request == SettlementRequest(s.txs[t], t)
    ensures AllExplained(s') && AllSettled(s')
  {
    hide Explained, SettledOnce;
    assert SettlementRequest(s'.txs[t], t) == SettlementRequest(s.txs[t], t);
    MoveAccounted(s, s', SettlementRequest(s.txs[t], t), moveKey, TxEndCause(t));
  }

  lemma SettlementDelta(bids: map<string, Bid>, txs: map<string, Tx>, t: string)
    requires BidsOk(bids) && TxsLinked(bids, txs) && t in txs && txs[t].state == Active
    ensures txs[t].price.currency == txs[t].fee.currency
    ensures forall p :: DeltaFor(SettlementRequest(txs[t], t), p, Blocked) == -TxDueFrom(txs[t], p)
  {
    TxAmounts(bids, t, txs[t]);
  }

  lemma RetireTxKeeps(crypto: Crypto, s: State, t: string, now: int, moveKey: string)
    requires Invariant(crypto, s) && moveKey !in s.books.movements
    requires RetireTransaction(s, t, now, moveKey).Ok?
    ensures Invariant(crypto, RetireTransaction(s, t, now, moveKey).value)
  {
    hide BooksOk, BidsOk, TxsLinked, BidsLinked, Escrowed, CurrenciesAgree, TasksPending, TxsOk, HotOk, Explained, SettledOnce,
         Obligations, Place, TxsEvolve, SettlementRequest;
    var s' := RetireTransaction(s, t, now, moveKey).value;
    assert TxAdvances(s.txs, s'.txs, t);
    RetiredTxsOk(crypto, s.txs, s'.txs, s.messages, t);
    TxLinksKept(s.bids, s.txs, s'.txs, t);
    ObligationsAfterTx(s.bids, s.txs, s'.txs, t);
    AllDuesNonNegative(s.bids, s.txs);
    SettlementDelta(s.bids, s.txs, t);
    MoneyMoves(s, s', now, SettlementRequest(s.txs[t], t), moveKey);
    CurrenciesAfterTx(s'.books.accounts, s.bids, s.txs, s'.txs, t);
    RetiredTasks(s.tasks, s.bids, s.txs, s'.txs, t);
    SettlementAccounted(s, s', t, moveKey);
  }

  lemma RetiredTasks(tasks: multiset<Task>, bids: map<string, Bid>, txs: map<string, Tx>, txs': map<string, Tx>, t: string)
    requires TasksPending(tasks, bids, txs) && TxAdvances(txs, txs', t) && txs'[t].state == Retired
    ensures TasksPending(tasks, bids, txs')
  {
  }

  // ---------------------------------------------------------------- matching two bids

  function AsMatched(b: Bid, time: int, t: string): Bid {
    b.(matched := Some(time), state := Matched, transaction := Some(t))
  }

  /** Two open bids, a buy and a sell, are joined in a new transaction. */
  predicate Joined(bids: map<string, Bid>, bids': map<string, Bid>, txs: map<string, Tx>, txs': map<string, Tx>,
                   time: int, t: string, tx: Tx) {
    && t !in txs && txs' == txs[t := tx]
    && tx.buyerBid in bids && tx.sellerBid in bids && tx.buyerBid != tx.sellerBid
    && var b, s := bids[tx.buyerBid], bids[tx.sellerBid];
    && bids' == bids[tx.buyerBid := AsMatched(b, time, t)][tx.sellerBid := AsMatched(s, time, t)]
    && b.bidType == Buy && s.bidType == Sell
    && IsOpen(b) && IsOpen(s)
    && tx.buyer == b.participant && tx.seller == s.participant
    && b.article == s.article == tx.article
    && b.price.currency == s.price.currency == tx.price.currency
    && ((tx.price == b.price && tx.fee == b.fee) || (tx.price == s.price && tx.fee == s.fee))
    && TxTotal(tx) <= Total(b)
    && tx.state == Active
  }

  lemma JoinedBidsOk(bids: map<string, Bid>, bids': map<string, Bid>, txs: map<string, Tx>, txs': map<string, Tx>,
                     time: int, t: string, tx: Tx)
    requires BidsOk(bids) && Joined(bids, bids', txs, txs', time, t, tx)
    ensures BidsOk(bids') && BidsEvolve(bids, bids') && TxsEvolve(txs, txs')
    ensures bids[tx.buyerBid].transaction == None && bids[tx.sellerBid].transaction == None
  {
    hide FeeAmount;
    forall j | j in bids' ensures BidOk(bids'[j]) {
      assert BidOk(bids[j]);
    }
    assert BidOk(bids[tx.buyerBid]) && BidOk(bids[tx.sellerBid]);
  }

  lemma JoinedLinked(bids: map<string, Bid>, bids': map<string, Bid>, txs: map<string, Tx>, txs': map<string, Tx>,
                     time: int, t: string, tx: Tx)
    requires Joined(bids, bids', txs, txs', time, t, tx)
    requires bids[tx.buyerBid].transaction == None && bids[tx.sellerBid].transaction == None
    requires TxsLinked(bids, txs) && BidsLinked(bids, txs)
    ensures TxsLinked(bids', txs') && BidsLinked(bids', txs')
  {
    forall u | u in txs' ensures Linked(bids', u, txs'[u]) {
      if u != t { assert Linked(bids, u, txs[u]); }
    }
    forall j | j in bids' ensures InTx(txs', j, bids'[j]) {
      assert InTx(txs, j, bids[j]);
    }
  }

  lemma JoinedObligations(bids: map<string, Bid>, bids': map<string, Bid>, txs: map<string, Tx>, txs': map<string, Tx>,
                          time: int, t: string, tx: Tx)
    requires Joined(bids, bids', txs, txs', time, t, tx)
    ensures forall p :: Obligations(bids', txs', p) == Obligations(bids, txs, p) +
              (if p == tx.buyer then TxTotal(tx) - Total(bids[tx.buyerBid]) else 0)
  {
    var b, s := bids[tx.buyerBid], bids[tx.sellerBid];
    var middle := bids[tx.buyerBid := AsMatched(b, time, t)];
    forall p ensures Obligations(bids', txs', p) == Obligations(bids, txs, p) +
              (if p == tx.buyer then TxTotal(tx) - Total(bids[tx.buyerBid]) else 0) {
      DuesAfterBid(bids, tx.buyerBid, AsMatched(b, time, t), p);
      DuesAfterBid(middle, tx.sellerBid, AsMatched(s, time, t), p);
      DuesAfterTx(txs, t, tx, p);
    }
  }

  lemma JoinedTasks(s: State, s': State, time: int, t: string, tx: Tx)
    requires Joined(s.bids, s'.bids, s.txs, s'.txs, time, t, tx)
    requires TasksPending(s.tasks, s.bids, s.txs)
    requires s'.tasks == s.tasks + multiset{RetireTxTask(t, tx.timeout)}
    ensures TasksPending(s'.tasks, s'.bids, s'.txs)
  {
  }

  lemma JoinedTxsOk(crypto: Crypto, txs: map<string, Tx>, messages: map<string, seq<Tmessage>>, t: string, tx: Tx)
    requires TxsOk(crypto, txs, messages) && t !in txs && TxOk(crypto, tx, [])
    ensures TxsOk(crypto, txs[t := tx], messages)
  {
    hide TxOk;
  }

  /** The buyer's account is in the transaction's currency because its bid was. */
  lemma JoinedCurrencies(accounts: map<string, Account>, accounts': map<string, Account>, bids: map<string, Bid>,
                         bids': map<string, Bid>, txs: map<string, Tx>, txs': map<string, Tx>, time: int, t: string, tx: Tx)
    requires CurrenciesAgree(accounts', bids, txs)
    requires Joined(bids, bids', txs, txs', time, t, tx)
    ensures CurrenciesAgree(accounts', bids', txs')
  {
    assert TxDue(tx) > 0 ==> Due(bids[tx.buyerBid]) > 0;
  }

  lemma JoinedExpects(s: State, s': State, time: int, t: string, tx: Tx, c: Cause)
    requires Joined(s.bids, s'.bids, s.txs, s'.txs, time, t, tx)
    requires TxsLinked(s.bids, s.txs) && s'.deposits == s.deposits
    ensures c != TxCause(t) ==> Expects(s', c) == Expects(s, c)
    ensures !Expects(s, TxCause(t))
    ensures Expects(s', TxCause(t)) <==> Total(s.bids[tx.buyerBid]) > TxTotal(tx)
  {
    match c
    case TxCause(u) => if u in s.txs { assert Linked(s.bids, u, s.txs[u]); }
    case _ =>
  }

  lemma JoinedUnbooked(s: State, s': State, time: int, t: string, tx: Tx)
    requires AllExplained(s) && AllSettled(s)
    requires Joined(s.bids, s'.bids, s.txs, s'.txs, time, t, tx)
    requires BidsEvolve(s.bids, s'.bids) && TxsEvolve(s.txs, s'.txs)
    requires TxsLinked(s.bids, s.txs) && s'.deposits == s.deposits
    requires s'.books == s.books && Total(s.bids[tx.buyerBid]) == TxTotal(tx)
    ensures AllExplained(s') && AllSettled(s')
  {
    hide Explained, SettledOnce, Joined, TxsLinked, BidsEvolve, TxsEvolve, Expected;
    DepositsUnchanged(s, s');
    ExplainedKept(s, s');
    forall c ensures Expects(s', c) == Expects(s, c) {
      JoinedExpects(s, s', time, t, tx, c);
    }
    SettledUnchanged(s, s');
  }

  lemma DepositsUnchanged(s: State, s': State)
    requires s'.deposits == s.deposits
    ensures DepositsEvolve(s.deposits, s'.deposits)
  {
  }

  lemma ExcessAmounts(b: Bid, tx: Tx, t: string)
    requires BidOk(b) && 0 <= TxTotal(tx) <= Total(b)
    requires SameMoney(b, tx)
    requires tx.price.Add(tx.fee) == Money(TxTotal(tx), tx.price.currency)
    ensures ExcessRequest(b, tx, t).availableDelta == Money(Total(b) - TxTotal(tx), tx.price.currency)
    ensures ExcessRequest(b, tx, t).blockedDelta == Money(TxTotal(tx) - Total(b), tx.price.currency)
  {
    BidTotal(b);
  }

  lemma JoinedBooked(s: State, s': State, time: int, t: string, tx: Tx, r: Request, moveKey: string)
    requires AllExplained(s) && AllSettled(s)
    requires Joined(s.bids, s'.bids, s.txs, s'.txs, time, t, tx)
    requires BidsEvolve(s.bids, s'.bids) && TxsEvolve(s.txs, s'.txs)
    requires TxsLinked(s.bids, s.txs) && s'.deposits == s.deposits
    requires Total(s.bids[tx.buyerBid]) > TxTotal(tx)
    requires SameMoney(s.bids[tx.buyerBid], tx) && r == ExcessRequest(s.bids[tx.buyerBid], tx, t)
    requires r.availableDelta.amount == Total(s.bids[tx.buyerBid]) - TxTotal(tx)
    requires moveKey !in s.books.movements && moveKey in s'.books.movements
    requires s'.books.movements == s.books.movements[moveKey := s'.books.movements[moveKey]]
    requires s'.books.movements[moveKey].request == r
    ensures AllExplained(s') && AllSettled(s')
  {
    hide Explained, SettledOnce, TxsLinked, BidsEvolve, TxsEvolve, Expected;
    DepositsUnchanged(s, s');
    assert Fits(r, s'.deposits, s'.bids, s'.txs);
    hide Joined, Fits;
    forall c
      ensures c != TxCause(t) ==> Expects(s', c) == Expects(s, c)
      ensures !Expects(s, TxCause(t)) && Expects(s', TxCause(t))
    {
      JoinedExpects(s, s', time, t, tx, c);
    }
    MoveAccounted(s, s', r, moveKey, TxCause(t));
  }

  /** The state after two bids were joined, apart from the books. */
  predicate Joining(s: State, s': State, time: int, t: string, tx: Tx) {
    && Joined(s.bids, s'.bids, s.txs, s'.txs, time, t, tx)
    && s' == s.(books := s'.books, bids := s'.bids, txs := s'.txs,
                tasks := s.tasks + multiset{RetireTxTask(t, tx.timeout)})
  }

  /** Everything that does not depend on whether the transaction books a movement. */
  lemma JoiningKeeps(crypto: Crypto, s: State, s': State, time: int, t: string, tx: Tx)
    requires Invariant(crypto, s) && Joining(s, s', time, t, tx) && TxOk(crypto, tx, [])
    ensures BidsOk(s'.bids) && BidsEvolve(s.bids, s'.bids) && TxsEvolve(s.txs, s'.txs)
    ensures TxsLinked(s'.bids, s'.txs) && BidsLinked(s'.bids, s'.txs)
    ensures TasksPending(s'.tasks, s'.bids, s'.txs) && TxsOk(crypto, s'.txs, s'.messages)
    ensures HotOk(s'.bids, s'.tasks, s'.hotQueue, s'.zones)
    ensures DuesNonNegative(s.bids, s.txs)
  {
    hide BooksOk, BidsOk, TxsLinked, BidsLinked, Escrowed, CurrenciesAgree, TasksPending, TxsOk, HotOk, Explained, SettledOnce,
         TxOk, BidsEvolve, TxsEvolve;
    JoinedBidsOk(s.bids, s'.bids, s.txs, s'.txs, time, t, tx);
    JoinedLinked(s.bids, s'.bids, s.txs, s'.txs, time, t, tx);
    JoinedTasks(s, s', time, t, tx);
    JoinedTxsOk(crypto, s.txs, s.messages, t, tx);
    HotKept(s.bids, s.tasks, s.hotQueue, s.zones, s'.bids, s'.tasks);
    AllDuesNonNegative(s.bids, s.txs);
  }

  lemma EvenMatchKeeps(crypto: Crypto, s: State, s': State, time: int, t: string, tx: Tx)
    requires Invariant(crypto, s) && Joining(s, s', time, t, tx) && TxOk(crypto, tx, [])
    requires s'.books == s.books && Total(s.bids[tx.buyerBid]) == TxTotal(tx)
    ensures Invariant(crypto, s')
  {
    hide BooksOk, BidsOk, TxsLinked, BidsLinked, Escrowed, CurrenciesAgree, TasksPending, TxsOk, HotOk, Explained, SettledOnce,
         TxOk, BidsEvolve, TxsEvolve, Joined, Obligations;
    JoiningKeeps(crypto, s, s', time, t, tx);
    JoinedObligations(s.bids, s'.bids, s.txs, s'.txs, time, t, tx);
    EscrowUnmoved(s.books.accounts, s.bids, s.txs, s'.bids, s'.txs);
    JoinedCurrencies(s.books.accounts, s'.books.accounts, s.bids, s'.bids, s.txs, s'.txs, time, t, tx);
    JoinedUnbooked(s, s', time, t, tx);
  }

  lemma ExcessMatchKeeps(crypto: Crypto, s: State, s': State, time: int, t: string, tx: Tx, r: Request, moveKey: string)
    requires Invariant(crypto, s) && Joining(s, s', time, t, tx) && TxOk(crypto, tx, [])
    requires moveKey !in s.books.movements && Place(s.books, tx.matched, r, moveKey) == Ok(s'.books)
    requires Total(s.bids[tx.buyerBid]) > TxTotal(tx)
    requires SameMoney(s.bids[tx.buyerBid], tx) && r == ExcessRequest(s.bids[tx.buyerBid], tx, t)
    requires r.availableDelta.amount == Total(s.bids[tx.buyerBid]) - TxTotal(tx)
    requires r.blockedDelta.amount == TxTotal(tx) - Total(s.bids[tx.buyerBid])
    ensures Invariant(crypto, s')
  {
    hide BooksOk, BidsOk, TxsLinked, BidsLinked, Escrowed, CurrenciesAgree, TasksPending, TxsOk, HotOk, Explained, SettledOnce,
         TxOk, BidsEvolve, TxsEvolve, Joined, Obligations, Place;
    JoiningKeeps(crypto, s, s', time, t, tx);
    JoinedObligations(s.bids, s'.bids, s.txs, s'.txs, time, t, tx);
    MoneyMoves(s, s', tx.matched, r, moveKey);
    JoinedCurrencies(s.books.accounts, s'.books.accounts, s.bids, s'.bids, s.txs, s'.txs, time, t, tx);
    JoinedBooked(s, s', time, t, tx, r, moveKey);
  }

  /** What the buyer's bid blocked beyond the transaction's total is freed, if it is anything. */
  predicate ExcessFreed(s: State, s': State, t: string, tx: Tx, moveKey: string) {
    && tx.buyerBid in s.bids
    && var b := s.bids[tx.buyerBid];
    && SameMoney(b, tx)
    && var r := ExcessRequest(b, tx, t);
    && r.availableDelta.amount == Total(b) - TxTotal(tx) && r.availableDelta.currency == tx.price.currency
    && r.blockedDelta.amount == TxTotal(tx) - Total(b) && r.blockedDelta.currency == tx.price.currency
    && (if Total(b) == TxTotal(tx) then s'.books == s.books
        else Total(b) > TxTotal(tx) && Place(s.books, tx.matched, ExcessRequest(b, tx, t), moveKey) == Ok(s'.books))
  }

  lemma MatchedPair(s: State, time: int, newKey: string, oldKey: string, t: string, moveKey: string)
    requires BidsOk(s.bids) && t !in s.txs
    requires MatchBids(s, time, newKey, oldKey, t, moveKey).Ok?
    ensures newKey in s.bids && oldKey in s.bids
    ensures NewTransaction(time, newKey, oldKey, s.bids[newKey], AsPlaced(s.bids[oldKey])).Ok?
    ensures var s' := MatchBids(s, time, newKey, oldKey, t, moveKey).value;
            var tx := NewTransaction(time, newKey, oldKey, s.bids[newKey], AsPlaced(s.bids[oldKey])).value.0;
            t in s'.txs && s'.txs[t] == tx && Joining(s, s', time, t, tx)
  {
    hide Place, BidOk;
    var n, o := s.bids[newKey], s.bids[oldKey];
    var s' := MatchBids(s, time, newKey, oldKey, t, moveKey).value;
    var tx := s'.txs[t];
    BidTotalAt(s.bids, newKey);
    BidTotalAt(s.bids, oldKey);
    assert newKey != oldKey;
    var b, sell := s.bids[tx.buyerBid], s.bids[tx.sellerBid];
    assert s'.bids == s.bids[tx.buyerBid := AsMatched(b, time, t)][tx.sellerBid := AsMatched(sell, time, t)];
  }

  lemma MatchFrees(s: State, time: int, newKey: string, oldKey: string, t: string, moveKey: string)
    requires BidsOk(s.bids) && t !in s.txs
    requires MatchBids(s, time, newKey, oldKey, t, moveKey).Ok?
    requires newKey in s.bids && oldKey in s.bids
    requires NewTransaction(time, newKey, oldKey, s.bids[newKey], AsPlaced(s.bids[oldKey])).Ok?
    ensures ExcessFreed(s, MatchBids(s, time, newKey, oldKey, t, moveKey).value, t,
                        NewTransaction(time, newKey, oldKey, s.bids[newKey], AsPlaced(s.bids[oldKey])).value.0, moveKey)
  {
    hide Place, BidOk;
    BidTotalAt(s.bids, newKey);
    BidTotalAt(s.bids, oldKey);
  }

  /** What a successful match does, in terms of the two bids. */
  lemma MatchJoins(s: State, time: int, newKey: string, oldKey: string, t: string, moveKey: string)
    requires BidsOk(s.bids) && t !in s.txs
    requires MatchBids(s, time, newKey, oldKey, t, moveKey).Ok?
    ensures newKey in s.bids && oldKey in s.bids
    ensures NewTransaction(time, newKey, oldKey, s.bids[newKey], AsPlaced(s.bids[oldKey])).Ok?
    ensures var s' := MatchBids(s, time, newKey, oldKey, t, moveKey).value;
            var tx := NewTransaction(time, newKey, oldKey, s.bids[newKey], AsPlaced(s.bids[oldKey])).value.0;
            && t in s'.txs && s'.txs[t] == tx
            && Joining(s, s', time, t, tx)
            && ExcessFreed(s, s', t, tx, moveKey)
  {
    hide BidsOk, MatchBids, NewTransaction, Joining, ExcessFreed;
    MatchedPair(s, time, newKey, oldKey, t, moveKey);
    MatchFrees(s, time, newKey, oldKey, t, moveKey);
  }

  lemma MatchKeeps(crypto: Crypto, s: State, time: int, newKey: string, oldKey: string, t: string, moveKey: string)
    requires Invariant(crypto, s) && t !in s.txs && moveKey !in s.books.movements
    requires MatchBids(s, time, newKey, oldKey, t, moveKey).Ok?
    ensures Invariant(crypto, MatchBids(s, time, newKey, oldKey, t, moveKey).value)
  {
    var s' := MatchBids(s, time, newKey, oldKey, t, moveKey).value;
    assert BidsOk(s.bids);
    hide Invariant, MatchBids, BidsOk, Joining, Joined, Place, TxOk, NewTransaction;
    MatchJoins(s, time, newKey, oldKey, t, moveKey);
    var tx := s'.txs[t];
    var b := s.bids[tx.buyerBid];
    FreshTxOk(crypto, time, newKey, oldKey, s.bids[newKey], AsPlaced(s.bids[oldKey]));
    if Total(b) == TxTotal(tx) {
      EvenMatchKeeps(crypto, s, s', time, t, tx);
    } else {
      ExcessMatchKeeps(crypto, s, s', time, t, tx, ExcessRequest(b, tx, t), moveKey);
    }
  }
}
