/** Runs of the market in which something goes wrong as the theorems allow: a seller that cannot
    be paid, and a pair that no longer matches. */
module MarketWitness {
  import opened Prelude
  import opened Amounts
  import MoneyText
  import opened Ledger
  import opened LedgerProofs
  import opened Bids
  import opened Transactions
  import opened TransactionProofs
  import opened OrderBook
  import opened Market
  import opened MarketRuns
  import opened MarketTheorems
  import EntityCodec

  // ---------------------------------------------------------------- the cast

  const BUYER := "buyer"
  const SELLER := "seller"
  const PRICE := Money(100, BTC)
  const FEE := Money(3, BTC)
  const PRICE_TEXT := MoneyText.Text(PRICE, MoneyText.UNITS[0], true)
  const LIFE: int := 120 * SECOND

  const BUY_BID := Bid(Buy, InQueue, "a", PRICE, FEE, BUYER, 0, LIFE, None, None)
  const SELL_BID := Bid(Sell, InQueue, "a", PRICE, FEE, SELLER, 1, 1 + LIFE, None, None)

  const FUNDS := Deposit(Bitcoin, Money(103, BTC), BUYER, "", 0)
  const EUROS := Deposit(Bitcoin, Money(1, EUR), SELLER, "", 2)

  /** Both bids come out of their text as expected. */
  lemma StatedBids()
    ensures ParseBid("BUY", "a", PRICE_TEXT, BUYER, 0, SERVER_DEFAULTS) == Ok(BUY_BID)
    ensures ParseBid("SELL", "a", PRICE_TEXT, SELLER, 1, SERVER_DEFAULTS) == Ok(SELL_BID)
  {
    hide MoneyText.Reading, MoneyText.Text, MoneyText.Pow10;
    MoneyText.RoundTrip(PRICE, MoneyText.UNITS[0]);
    MoneyText.Powers();
    assert FeeAmount(SERVER_DEFAULTS, 100) == 3;
    assert "SELL" != "BUY";
  }

  lemma Continue(crypto: Crypto, s: State, step: Step, s': State)
    requires Reachable(crypto, s) && Possible(s, step) && Attempt(crypto, s, step) == Ok(s')
    ensures Reachable(crypto, s')
  {
    hide Possible, Attempt;
    var states, steps :| Run(crypto, states, steps) && states[|steps|] == s;
    assert Run(crypto, states + [s'], steps + [step]);
  }

  lemma StartReachable(crypto: Crypto)
    ensures Reachable(crypto, INITIAL)
  {
    assert Run(crypto, [INITIAL], []);
  }

  /** A movement between the parts of one account. */
  lemma PlaceOwn(books: Books, now: int, r: Request, key: string, a1: Account, a2: Account)
    requires Sound(r) && r.availableAccount == r.blockedAccount != ""
    requires AccountOf(books.accounts, r.availableAccount).participant == r.availableAccount
    requires Apply(AccountOf(books.accounts, r.availableAccount), Available, r.availableDelta) == Ok(a1)
    requires Apply(a1.(last := Some(key)), Blocked, r.blockedDelta) == Ok(a2)
    ensures Place(books, now, r, key) ==
      Ok(Books(books.accounts[r.availableAccount := a2.(last := Some(key))],
               books.movements[key := Movement(r, now, AccountOf(books.accounts, r.availableAccount).last, Some(key))]))
  {
    hide Sound, CanApply;
    var p := r.availableAccount;
    var accounts := books.accounts[p := a1.(last := Some(key))];
    assert accounts[p := a2.(last := Some(key))] == books.accounts[p := a2.(last := Some(key))];
  }

  // ---------------------------------------------------------------- up to two open bids

  const FUNDED := Books(
    map[BUYER := Account(BUYER, Some("m"), BTC, 103, 0)],
    map["m" := Movement(DepositRequest("d", FUNDS), 0, None, Some("m"))])

  const S1 := INITIAL.(books := FUNDED, deposits := map["d" := FUNDS])

  lemma Fund()
    ensures PlaceDeposit(INITIAL, "d", FUNDS, "m") == Ok(S1)
  {
    PlaceOwn(INITIAL.books, 0, DepositRequest("d", FUNDS), "m",
             Account(BUYER, None, BTC, 103, 0), Account(BUYER, Some("m"), BTC, 103, 0));
  }

  /** The first deposit's entry names itself as its blocked predecessor, until it is reloaded. */
  lemma SelfLink(crypto: Crypto)
    ensures Reachable(crypto, S1)
    ensures S1.books.movements["m"].blockedPredecessor == Some("m")
    ensures EntityCodec.Reload(S1.books.movements["m"]).blockedPredecessor == None
  {
    hide Reachable, PlaceDeposit;
    StartReachable(crypto);
    Fund();
    Continue(crypto, INITIAL, DoDeposit("d", FUNDS, "m"), S1);
  }

  const BOOKING := BidRequest(BUY_BID, "buy", BidBooked, Money(-103, BTC), Money(103, BTC))

  const BLOCKED := Books(
    map[BUYER := Account(BUYER, Some("mm"), BTC, 0, 103)],
    FUNDED.movements["mm" := Movement(BOOKING, 0, Some("m"), Some("mm"))])

  const ZONE := MatchKey("a", BTC)
  const HOT_BUY := NewHotBid("buy", BUY_BID)
  const HOT_SELL := NewHotBid("sell", SELL_BID)

  const S2 := S1.(books := BLOCKED, bids := map["buy" := BUY_BID],
                  tasks := multiset{RetireBidTask("buy", LIFE)}, hotQueue := {(ZONE, HOT_BUY)})

  lemma EnqueueBuy()
    ensures EnqueueBid(S1, BUY_BID, "buy", "mm") == Ok(S2)
  {
    PlaceOwn(FUNDED, 0, BOOKING, "mm", Account(BUYER, Some("m"), BTC, 0, 0), Account(BUYER, Some("mm"), BTC, 0, 103));
    hide Place, MatchKey, NewHotBid;
    assert FUNDED.accounts[BUYER := FUNDED.accounts[BUYER]] == FUNDED.accounts;
    assert CheckBalance(FUNDED.accounts, BUY_BID) == Ok(FUNDED.accounts);
    var price := BUY_BID.price.Add(BUY_BID.fee);
    assert price == Money(103, BTC) && price.Neg() == Money(-103, BTC);
    assert BidRequest(BUY_BID, "buy", BidBooked, price.Neg(), price) == BOOKING;
    assert BLOCKED.accounts == FUNDED.accounts[BUYER := Account(BUYER, Some("mm"), BTC, 0, 103)];
    assert Place(FUNDED, 0, BOOKING, "mm") == Ok(BLOCKED);
    assert BookBid(FUNDED, BUY_BID, "buy", "mm") == Ok(BLOCKED);
    assert Reserve(FUNDED, BUY_BID, "buy", "mm") == Ok(BLOCKED);
    assert S1.bids["buy" := BUY_BID] == S2.bids;
    assert S1.tasks + multiset{RetireBidTask("buy", BUY_BID.expires)} == S2.tasks;
    assert S1.hotQueue + {(ZONE, HOT_BUY)} == S2.hotQueue;
    assert BUY_BID.participant != "";
  }

  const S3 := S2.(books := BLOCKED.(accounts := BLOCKED.accounts[SELLER := DefaultAccount(SELLER)]),
                  bids := S2.bids["sell" := SELL_BID],
                  tasks := S2.tasks + multiset{RetireBidTask("sell", 1 + LIFE)},
                  hotQueue := S2.hotQueue + {(ZONE, HOT_SELL)})

  lemma EnqueueSell()
    ensures EnqueueBid(S2, SELL_BID, "sell", "mmm") == Ok(S3)
  {
    hide Place, MatchKey, NewHotBid;
  }

  lemma TwoBids(crypto: Crypto)
    ensures Reachable(crypto, S3)
  {
    hide Reachable, PlaceDeposit, EnqueueBid, ParseBid;
    StatedBids();
    StartReachable(crypto);
    Fund();
    Continue(crypto, INITIAL, DoDeposit("d", FUNDS, "m"), S1);
    EnqueueBuy();
    Continue(crypto, S1, DoEnqueue("BUY", "a", PRICE_TEXT, BUYER, 0, "buy", "mm"), S2);
    EnqueueSell();
    Continue(crypto, S2, DoEnqueue("SELL", "a", PRICE_TEXT, SELLER, 1, "sell", "mmm"), S3);
  }

  // ---------------------------------------------------------------- a seller that cannot be paid

  const TX := Tx(0, "buy", "sell", BUYER, SELLER, "a", PRICE, FEE, 2, Active, Establishing, 2 + 60 * SECOND,
                 None, None, None, None, None, None)

  const S4 := S3.(bids := S3.bids["sell" := SELL_BID.(matched := Some(2), state := Matched, transaction := Some("t"))]
                                 ["buy" := BUY_BID.(matched := Some(2), state := Matched, transaction := Some("t"))],
                  txs := map["t" := TX],
                  tasks := S3.tasks + multiset{RetireTxTask("t", 2 + 60 * SECOND)})

  lemma MatchThem()
    ensures MatchBids(S3, 2, "sell", "buy", "t", "mmm") == Ok(S4)
  {
    hide Place;
    assert "buy" != "sell";
    assert S3.bids["buy"] == BUY_BID && S3.bids["sell"] == SELL_BID;
    assert BookTx(S3.books, TX, "t", BUY_BID.(matched := Some(2), state := Matched), "mmm") == Ok(S3.books);
    assert S3.txs["t" := TX] == S4.txs;
  }

  const PAID_IN := Books(
    S4.books.accounts[SELLER := Account(SELLER, Some("mmm"), EUR, 1, 0)],
    S4.books.movements["mmm" := Movement(DepositRequest("dd", EUROS), 2, None, Some("mmm"))])

  const S5 := S4.(books := PAID_IN, deposits := S4.deposits["dd" := EUROS])

  /** The seller receives money in another currency. */
  lemma PayInEuros()
    ensures PlaceDeposit(S4, "dd", EUROS, "mmm") == Ok(S5)
  {
    assert BUYER != SELLER && "d" != "dd";
    PlaceOwn(S4.books, 2, DepositRequest("dd", EUROS), "mmm",
             Account(SELLER, None, EUR, 1, 0), Account(SELLER, Some("mmm"), EUR, 1, 0));
    hide Place;
  }

  const ACCEPTANCE: Arguments := map["acceptresult" := "on"]

  const ACCEPTED := TX.(phase := Finished, revision := 1, timeout := 3)

  lemma Accept(crypto: Crypto)
    ensures Deliver(crypto, TX, 3, BUYER, ACCEPTANCE).0 == ACCEPTED
    ensures Deliver(crypto, TX, 3, BUYER, ACCEPTANCE).1.accepted
  {
    assert ACCEPTANCE.Keys == Names(AcceptResult) && BUYER == Sender(TX, AcceptResult);
    FoundRule(TX, BUYER, ACCEPTANCE, AcceptResult);
    hide FindRule, SenderFits, NamesFit;
    assert FindTransition(RuleFor(AcceptResult).transitions, Establishing) == Some(Transition(Establishing, Finished));
  }

  /** The state after the buyer has accepted the result. */
  function Due(crypto: Crypto): State {
    After(crypto, S5, DoMessage("t", 3, BUYER, ACCEPTANCE))
  }

  lemma AcceptedState(crypto: Crypto)
    ensures UpdateTransaction(crypto, S5, "t", 3, BUYER, ACCEPTANCE) == Ok(Due(crypto))
    ensures Due(crypto).txs == map["t" := ACCEPTED] && Due(crypto).books == PAID_IN
  {
    hide Deliver;
    Accept(crypto);
    assert S5.txs["t" := ACCEPTED] == map["t" := ACCEPTED];
  }

  lemma DueReachable(crypto: Crypto)
    ensures Reachable(crypto, Due(crypto))
  {
    hide Reachable, PlaceDeposit, MatchBids, UpdateTransaction, Due;
    TwoBids(crypto);
    MatchThem();
    Continue(crypto, S3, DoMatch(2, "sell", "buy", "t", "mmm"), S4);
    PayInEuros();
    Continue(crypto, S4, DoDeposit("dd", EUROS, "mmm"), S5);
    AcceptedState(crypto);
    Continue(crypto, S5, DoMessage("t", 3, BUYER, ACCEPTANCE), Due(crypto));
  }

  lemma WorldFunded(c: Currency)
    ensures Sum(WorldBy(FUNDED.movements, c)) == if c == BTC then -103 else 0
  {
    var first := Movement(DepositRequest("d", FUNDS), 0, None, Some("m"));
    SumZero(WorldBy(map[], c));
    WorldGrows(map[], "m", first, c);
    assert FUNDED.movements == map[]["m" := first];
  }

  lemma WorldBlocked(c: Currency)
    ensures Sum(WorldBy(BLOCKED.movements, c)) == Sum(WorldBy(FUNDED.movements, c))
  {
    assert "mm" !in FUNDED.movements;
    WorldGrows(FUNDED.movements, "mm", Movement(BOOKING, 0, Some("m"), Some("mm")), c);
  }

  lemma WorldPaidIn(c: Currency)
    ensures Sum(WorldBy(PAID_IN.movements, c)) >= Sum(WorldBy(BLOCKED.movements, c)) - 1
  {
    assert "mmm" !in BLOCKED.movements;
    WorldGrows(BLOCKED.movements, "mmm", Movement(DepositRequest("dd", EUROS), 2, None, Some("mmm")), c);
  }

  lemma SmallDeposits(crypto: Crypto)
    ensures DepositsFit(Due(crypto))
  {
    hide WorldBy, Due, FUNDED, BLOCKED, PAID_IN;
    AcceptedState(crypto);
    forall c ensures NetDeposits(PAID_IN, c) <= MAX64 {
      WorldFunded(c);
      WorldBlocked(c);
      WorldPaidIn(c);
    }
  }

  lemma SellerHoldsEuros()
    ensures !CanTake(AccountOf(PAID_IN.accounts, SELLER), PRICE)
  {
    hide S4, BLOCKED;
  }

  lemma MovementKeys()
    ensures PAID_IN.movements.Keys == {"m", "mm", "mmm"}
  {
    assert BLOCKED.movements.Keys == {"m", "mm"};
    assert S4.books.movements == BLOCKED.movements;
    hide BLOCKED, S4;
  }

  lemma DueFacts(crypto: Crypto, moveKey: string)
    requires moveKey !in {"m", "mm", "mmm"}
    ensures var s := Due(crypto);
      && "t" in s.txs && s.txs["t"] == ACCEPTED
      && !CanTake(AccountOf(s.books.accounts, SELLER), PRICE)
      && moveKey !in s.books.movements
  {
    hide Due, PAID_IN, ACCEPTED, AccountOf, CanTake;
    AcceptedState(crypto);
    SellerHoldsEuros();
    MovementKeys();
  }

  /** A seller that cannot be paid: after a deposit, a buy, a sell, their match, a deposit of the
      seller in another currency and the buyer's acceptance, the due settlement fails. */
  lemma SellerNotPaid(crypto: Crypto, moveKey: string) returns (s: State)
    requires moveKey !in {"m", "mm", "mmm"}
    ensures Reachable(crypto, s) && DepositsFit(s)
    ensures "t" in s.txs && s.txs["t"].state == Active && s.txs["t"].timeout <= 3 && PaysSeller(s.txs["t"])
    ensures !CanTake(AccountOf(s.books.accounts, s.txs["t"].seller), s.txs["t"].price)
    ensures Possible(s, DoRetireTx("t", 3, moveKey))
    ensures RetireTransaction(s, "t", 3, moveKey).Err? && RetireTransaction(s, "t", 3, moveKey) != Err(TooYoung)
    ensures RetireTxTask("t", 3) in s.tasks && TaskDone(s, RetireTxTask("t", 3), 3, moveKey).Err?
  {
    hide Reachable, Due, DepositsFit, RetireTransaction, TaskDone, CanTake, AccountOf;
    s := Due(crypto);
    DueReachable(crypto);
    SmallDeposits(crypto);
    DueFacts(crypto, moveKey);
    PaidTxCanRetire(crypto, s, "t", 3, moveKey);
    DueTaskSettles(crypto, s, "t", 3, moveKey);
    NothingIsStranded(crypto, s);
    DueIsNotEarly(s, moveKey);
  }

  lemma DueIsNotEarly(s: State, moveKey: string)
    requires "t" in s.txs && s.txs["t"].timeout <= 3
    ensures RetireTransaction(s, "t", 3, moveKey) != Err(TooYoung)
  {
    hide Sound, CanApply;
  }

  // ---------------------------------------------------------------- a pair that no longer matches

  const RESTING := Book(multiset{HOT_BUY}, multiset{})

  /** Both bids come in, and the sell meets the resting buy. */
  const BATCH := Batch(ZONE, 2, [EMPTY_BOOK, RESTING, EMPTY_BOOK],
                       [Event(HOT_BUY, multiset{}, None), Event(HOT_SELL, multiset{}, Some(HOT_BUY))], [], EMPTY_BOOK)

  lemma BatchEvents()
    ensures Handled(EMPTY_BOOK, RESTING, 2, BATCH.events[0])
    ensures Handled(RESTING, EMPTY_BOOK, 2, BATCH.events[1])
    ensures Session(BATCH.books, 2, BATCH.events)
  {
    assert Dealt(multiset{}, multiset{}, multiset{HOT_BUY}, multiset{}, 2, BATCH.events[0]);
    assert Dealt(multiset{}, multiset{HOT_BUY}, multiset{}, multiset{}, 2, BATCH.events[1]);
    hide Dealt;
  }

  lemma BatchLists()
    ensures Incoming(BATCH.events) == [HOT_BUY, HOT_SELL]
    ensures Matches(BATCH.events) == [(HOT_SELL, HOT_BUY)]
    ensures KeyPairs(Matches(BATCH.events)) == [("sell", "buy")]
  {
    var one := BATCH.events[..1];
    assert BATCH.events[..|BATCH.events| - 1] == one;
    assert one[..|one| - 1] == [];
    assert Incoming(one) == [HOT_BUY] && Matches(one) == [];
  }

  lemma BatchIsPossible()
    ensures BatchPossible(S3, BATCH)
  {
    hide Session, Incoming, MatchKey, HOT_BUY, HOT_SELL;
    BatchEvents();
    BatchLists();
    assert EMPTY_BOOK.All() == multiset{};
  }

  const HANDED_OVER := ApplyTask(2, [("sell", "buy")], [])

  lemma BatchHandsOver()
    ensures FinishBatch(S3, BATCH).tasks == S3.tasks + multiset{HANDED_OVER}
    ensures FinishBatch(S3, BATCH).bids == S3.bids && FinishBatch(S3, BATCH).books == S3.books
  {
    hide Matches, KeyPairs, ZoneAfter;
    BatchLists();
    assert Keys([]) == [];
  }

  lemma FitsSoFar()
    ensures DepositsFit(FinishBatch(S3, BATCH))
  {
    hide WorldBy, BLOCKED, FUNDED, FinishBatch;
    BatchHandsOver();
    forall c ensures NetDeposits(S3.books, c) <= MAX64 {
      WorldFunded(c);
      WorldBlocked(c);
    }
  }

  /** A pair that was handed over in good order no longer matches once the older bid has been
      retired: nothing makes the two kinds of queued work happen in any particular order. */
  lemma PairTooLate(crypto: Crypto, t: string, moveKey: string) returns (s: State)
    ensures Reachable(crypto, s) && HANDED_OVER in s.tasks && ("sell", "buy") in HANDED_OVER.matched
    ensures MatchBids(s, HANDED_OVER.time, "sell", "buy", t, moveKey) == Err(NonMatchingBids)
  {
    hide Reachable, FinishBatch, BatchPossible, DepositsFit, RetireBidStep, TaskDone;
    var s4 := FinishBatch(S3, BATCH);
    var task := RetireBidTask("buy", LIFE);
    TwoBids(crypto);
    BatchIsPossible();
    Continue(crypto, S3, DoBatch(BATCH), s4);
    BatchHandsOver();
    FitsSoFar();
    OpenBuy();
    DueBidTaskSettles(crypto, s4, "buy", LIFE, "mmm");
    s := TaskDone(s4, task, LIFE, "mmm").value;
    Continue(crypto, s4, DoTask(task, LIFE, "mmm"), s);
    TaskRemoved(s4, task, LIFE, "mmm", HANDED_OVER);
    ExpiredDoesNotMatch(s, t, moveKey);
  }

  lemma OpenBuy()
    ensures "sell" in S3.bids && "buy" in S3.bids && IsOpen(S3.bids["buy"]) && S3.bids["buy"].expires == LIFE
    ensures "mmm" !in S3.books.movements
  {
  }

  lemma TaskRemoved(s: State, task: Task, now: int, moveKey: string, other: Task)
    requires task.RetireBidTask? && other.ApplyTask? && other in s.tasks && TaskDone(s, task, now, moveKey).Ok?
    ensures other in TaskDone(s, task, now, moveKey).value.tasks
    ensures forall k :: k in s.bids ==> k in TaskDone(s, task, now, moveKey).value.bids
  {
    hide RetireBidStep;
    BidsStay(s, task.bid, now, moveKey);
    TasksUntouchedByRetirement(s, task.bid, now, moveKey);
  }

  lemma BidsStay(s: State, key: string, now: int, moveKey: string)
    ensures RetireBidStep(s, key, now, moveKey).Ok? ==>
              forall k :: k in s.bids ==> k in RetireBidStep(s, key, now, moveKey).value.bids
  {
    hide RetireBid;
  }

  lemma ExpiredDoesNotMatch(s: State, t: string, moveKey: string)
    requires "buy" in s.bids && s.bids["buy"].state == Expired && "sell" in s.bids
    ensures MatchBids(s, 2, "sell", "buy", t, moveKey) == Err(NonMatchingBids)
  {
  }
}
