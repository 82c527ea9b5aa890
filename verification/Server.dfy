/** The server's datastore transactions as it runs them: load, change in place, write back
    through the cache, and roll back on any error. Each one refines its atomic step. */
module Server {
  import opened Prelude
  import opened Amounts
  import opened Ledger
  import opened LedgerProofs
  import opened Bids
  import opened Transactions
  import opened OrderBook
  import opened Market
  import opened Dao
  import opened Entities

  /** A transaction either commits what the step specifies or leaves the store as it was. It may
      fail for reasons of its own only by being unavailable, and not on a reliable store: there it
      succeeds exactly if the step does, and fails with the step's error. */
  predicate Committed(reliable: bool, before: State, after: State, step: Result<State>, e: Option<Error>) {
    && (reliable ==> e != Some(Unavailable))
    && (e.None? ==> step == Ok(after))
    && (e.Some? ==> after == before)
    && (e.Some? && e.value != Unavailable ==> step == Err(e.value))
  }

  /** What a transaction's body must achieve; after an error its writes do not matter. */
  predicate Prepared(reliable: bool, after: State, step: Result<State>, e: Option<Error>) {
    && (reliable ==> e != Some(Unavailable))
    && (e.None? ==> step == Ok(after))
    && (e.Some? && e.value != Unavailable ==> step == Err(e.value))
  }

  lemma AccountsKeyed(accounts: map<string, Account>)
    requires AccountsOk(accounts)
    ensures Keyed(accounts) && "" !in accounts
  {
  }

  lemma NoUnnamedAccount(books: Books, now: int, r: Request, key: string)
    requires AccountsOk(books.accounts) && Place(books, now, r, key).Ok?
    ensures "" !in Place(books, now, r, key).value.accounts
  {
    PlaceFacts(books, now, r, key);
  }

  // ---------------------------------------------------------------- deposits

  method CreateDeposit(store: Datastore, uid: string, d: Deposit, moveKey: string) returns (e: Option<Error>)
    requires AccountsOk(store.accounts)
    modifies store
    ensures Committed(store.reliable, old(store.View()), store.View(), PlaceDeposit(old(store.View()), uid, d, moveKey), e)
  {
    var before := store.View();
    e := DepositBody(store, uid, d, moveKey);
    if e.Some? { store.Restore(before); }
  }

  method DepositBody(store: Datastore, uid: string, d: Deposit, moveKey: string) returns (e: Option<Error>)
    requires AccountsOk(store.accounts)
    modifies store
    ensures Prepared(store.reliable, store.View(), PlaceDeposit(old(store.View()), uid, d, moveKey), e)
  {
    hide Place, CacheOk, Visible;
    var dao := new CachedDao(store, true);
    e := PlaceDepositVia(dao, uid, d, moveKey);
    if e.Some? { return; }
    ghost var s := store.View();
    if uid !in s.deposits {
      NoUnnamedAccount(s.books, d.created, DepositRequest(uid, d), moveKey);
    }
    dao.SavedAreVisible("");
    e := dao.Flush();
  }

  // ---------------------------------------------------------------- bids

  method StoreBid(store: Datastore, b: Bid, bidKey: string, moveKey: string) returns (e: Option<Error>)
    requires AccountsOk(store.accounts)
    modifies store
    ensures Committed(store.reliable, old(store.View()), store.View(), EnqueueBid(old(store.View()), b, bidKey, moveKey), e)
  {
    var before := store.View();
    e := EnqueueBody(store, b, bidKey, moveKey);
    if e.Some? { store.Restore(before); }
  }

  method EnqueueBody(store: Datastore, b: Bid, bidKey: string, moveKey: string) returns (e: Option<Error>)
    requires AccountsOk(store.accounts)
    modifies store
    ensures Prepared(store.reliable, store.View(), EnqueueBid(old(store.View()), b, bidKey, moveKey), e)
  {
    hide Reserve, CacheOk, Visible, MatchKey, NewHotBid, AccountsOk;
    AccountsKeyed(store.accounts);
    var dao := new CachedDao(store, true);
    e := ReserveMoney(store, dao, b, bidKey, moveKey);
    if e.Some? { return; }
    ReservedNames(old(store.View()).books, b, bidKey, moveKey);
    e := QueueBid(store, b, bidKey);
    if e.Some? { return; }
    dao.SavedAreVisible("");
    e := dao.Flush();
  }

  /** Schedules the bid's retirement and hands it to the matcher. */
  method QueueBid(store: Datastore, b: Bid, bidKey: string) returns (e: Option<Error>)
    modifies store`tasks, store`hotQueue
    ensures e == None || e == Some(Unavailable)
    ensures store.reliable ==> e == None
    ensures e.None? ==>
      && store.tasks == old(store.tasks) + multiset{RetireBidTask(bidKey, b.expires)}
      && store.hotQueue == old(store.hotQueue) + {(MatchKey(b.article, b.price.currency), NewHotBid(bidKey, b))}
  {
    var ok := store.Access();
    if !ok { return Some(Unavailable); }
    store.tasks := store.tasks + multiset{RetireBidTask(bidKey, b.expires)};
    ok := store.Access();
    if !ok { return Some(Unavailable); }
    store.hotQueue := store.hotQueue + {(MatchKey(b.article, b.price.currency), NewHotBid(bidKey, b))};
    return None;
  }

  method ReserveMoney(store: Datastore, dao: CachedDao, b: Bid, bidKey: string, moveKey: string) returns (e: Option<Error>)
    requires dao.Valid() && dao.delegate == store && dao.Deposits() == store.deposits
    modifies store`bids, dao
    ensures dao.Valid() && dao.Deposits() == store.deposits
    ensures e.None? ==>
      && Reserve(old(dao.Books()), b, bidKey, moveKey) == Ok(dao.Books())
      && store.bids == old(store.bids)[bidKey := b]
    ensures store.reliable ==> e != Some(Unavailable)
    ensures e.Some? && e.value != Unavailable ==> Reserve(old(dao.Books()), b, bidKey, moveKey) == Err(e.value)
  {
    hide CheckBalance, BookBid, CacheOk, Visible;
    var bid := new BidEntity(b);
    e := bid.CheckBalanceOf(dao);
    if e.Some? { return; }
    var ok := store.Access();
    if !ok { return Some(Unavailable); }
    store.bids := store.bids[bidKey := b];
    e := bid.Book(dao, bidKey, moveKey);
  }

  /** Only a bid without a participant leaves an account without one to be saved. */
  lemma ReservedNames(books: Books, b: Bid, bidKey: string, moveKey: string)
    requires AccountsOk(books.accounts) && Reserve(books, b, bidKey, moveKey).Ok?
    ensures "" in Reserve(books, b, bidKey, moveKey).value.accounts <==> b.participant == ""
  {
    hide CanApply, Sound, Apply;
    var touched := books.(accounts := CheckBalance(books.accounts, b).value);
    if b.bidType == Buy {
      var price := b.price.Add(b.fee);
      PlacedNames(touched, b.created, BidRequest(b, bidKey, BidBooked, price.Neg(), price), moveKey);
    }
  }

  lemma PlacedNames(books: Books, now: int, r: Request, key: string)
    requires Keyed(books.accounts) && Place(books, now, r, key).Ok?
    requires r.availableAccount == r.blockedAccount
    ensures Place(books, now, r, key).value.accounts.Keys == books.accounts.Keys + {r.availableAccount}
    ensures r.availableAccount != ""
  {
    hide Sound, CanApply;
  }

  method MarkPlaced(store: Datastore, key: string) returns (e: Option<Error>)
    modifies store
    ensures Committed(store.reliable, old(store.View()), store.View(), PlaceBid(old(store.View()), key), e)
  {
    if key !in store.bids { return Some(NoSuchObject); }
    var bid := new BidEntity(store.bids[key]);
    if bid.state != InQueue { return None; }
    bid.state := Placed;
    var ok := store.Access();
    if !ok { return Some(Unavailable); }
    store.bids := store.bids[key := bid.View()];
    return None;
  }

  method RetireStoredBid(store: Datastore, key: string, now: int, moveKey: string) returns (e: Option<Error>)
    requires AccountsOk(store.accounts)
    modifies store
    ensures Committed(store.reliable, old(store.View()), store.View(), RetireBidStep(old(store.View()), key, now, moveKey), e)
  {
    var before := store.View();
    e := RetireBidBody(store, key, now, moveKey);
    if e.Some? { store.Restore(before); }
  }

  method RetireBidBody(store: Datastore, key: string, now: int, moveKey: string) returns (e: Option<Error>)
    requires AccountsOk(store.accounts)
    modifies store
    ensures Prepared(store.reliable, store.View(), RetireBidStep(old(store.View()), key, now, moveKey), e)
  {
    hide Place, CacheOk, Visible, AccountsOk;
    AccountsKeyed(store.accounts);
    var dao := new CachedDao(store, true);
    if key !in store.bids { return Some(NoSuchObject); }
    var bid := new BidEntity(store.bids[key]);
    if bid.state == Matched { return None; }
    if bid.created < 0 { return None; }
    ghost var s := store.View();
    e := bid.Retire(dao, key, now, moveKey);
    if e.Some? { return; }
    RetiredBidNames(s.books, s.bids[key], key, now, moveKey);
    var ok := store.Access();
    if !ok { return Some(Unavailable); }
    store.bids := store.bids[key := bid.View()];
    dao.SavedAreVisible("");
    e := dao.Flush();
    assert s.bids[key := s.bids[key]] == s.bids;
  }

  lemma RetiredBidNames(books: Books, b: Bid, key: string, now: int, moveKey: string)
    requires AccountsOk(books.accounts) && RetireBid(books, b, key, now, moveKey).Ok?
    ensures "" !in RetireBid(books, b, key, now, moveKey).value.0.accounts
    ensures !IsOpen(b) ==> RetireBid(books, b, key, now, moveKey).value == (books, b)
  {
    hide Place;
    if IsOpen(b) && b.bidType == Buy {
      var price := b.price.Add(b.fee);
      NoUnnamedAccount(books, now, BidRequest(b, key, BidReimbursed, price, price.Neg()), moveKey);
    }
  }

  // ---------------------------------------------------------------- transactions

  method MatchStoredBids(store: Datastore, time: int, newKey: string, oldKey: string, txKey: string, moveKey: string)
    returns (e: Option<Error>)
    requires AccountsOk(store.accounts)
    modifies store
    ensures Committed(store.reliable, old(store.View()), store.View(),
                      MatchBids(old(store.View()), time, newKey, oldKey, txKey, moveKey), e)
  {
    var before := store.View();
    e := MatchBody(store, time, newKey, oldKey, txKey, moveKey);
    if e.Some? { store.Restore(before); }
  }

  method MatchBody(store: Datastore, time: int, newKey: string, oldKey: string, txKey: string, moveKey: string)
    returns (e: Option<Error>)
    requires AccountsOk(store.accounts)
    modifies store
    ensures Prepared(store.reliable, store.View(), MatchBids(old(store.View()), time, newKey, oldKey, txKey, moveKey), e)
  {
    hide BookTx, NewTransaction, AccountsOk, AsPlaced;
    if newKey !in store.bids || oldKey !in store.bids { return Some(NoSuchObject); }
    var newBid := new BidEntity(store.bids[newKey]);
    var oldBid := new BidEntity(store.bids[oldKey]);
    if oldBid.state == InQueue {
      oldBid.state := Placed;
    }
    IsPlaced(store.bids[oldKey]);
    assert oldBid.View() == AsPlaced(store.bids[oldKey]);
    var tx := JoinBids(time, newKey, oldKey, newBid, oldBid);
    if tx.Err? { return Some(tx.error); }
    var ok := store.Access();
    if !ok { return Some(Unavailable); }
    ghost var newMatched, oldMatched := newBid.View(), oldBid.View();
    RecordMatch(store, newKey, oldKey, newBid, oldBid, tx.value, txKey);
    var buyerBid := if newBid.bidType == Buy then newBid else oldBid;
    BookTxIgnoresState(store.View().books, tx.value, txKey, buyerBid.View(),
                       if newBid.bidType == Buy then newMatched else oldMatched, moveKey);
    e := BookAndFlush(store, tx.value, txKey, buyerBid.View(), moveKey);
  }

  lemma IsPlaced(b: Bid)
    ensures AsPlaced(b) == b.(state := if b.state == InQueue then Placed else b.state)
  {
  }

  /** Stores the transaction and both its bids, and schedules its retirement. */
  method RecordMatch(store: Datastore, newKey: string, oldKey: string, newBid: BidEntity, oldBid: BidEntity, tx: Tx,
                     txKey: string)
    requires newBid != oldBid
    modifies store`txs, store`bids, store`tasks, newBid`transaction, oldBid`transaction
    ensures newBid.View() == old(newBid.View()).(transaction := Some(txKey))
    ensures oldBid.View() == old(oldBid.View()).(transaction := Some(txKey))
    ensures store.txs == old(store.txs)[txKey := tx]
    ensures store.bids == old(store.bids)[newKey := newBid.View()][oldKey := oldBid.View()]
    ensures store.tasks == old(store.tasks) + multiset{RetireTxTask(txKey, tx.timeout)}
  {
    store.txs := store.txs[txKey := tx];
    newBid.transaction := Some(txKey);
    oldBid.transaction := Some(txKey);
    store.bids := store.bids[newKey := newBid.View()][oldKey := oldBid.View()];
    store.tasks := store.tasks + multiset{RetireTxTask(txKey, tx.timeout)};
  }

  method BookAndFlush(store: Datastore, tx: Tx, txKey: string, buyerBid: Bid, moveKey: string) returns (e: Option<Error>)
    requires AccountsOk(store.accounts)
    modifies store`accounts, store`deposits, store`movements
    ensures e.None? ==>
      && BookTx(old(store.View()).books, tx, txKey, buyerBid, moveKey) == Ok(store.View().books)
      && store.deposits == old(store.deposits)
    ensures store.reliable ==> e != Some(Unavailable)
    ensures e.Some? && e.value != Unavailable ==>
      BookTx(old(store.View()).books, tx, txKey, buyerBid, moveKey) == Err(e.value)
  {
    hide Place, CacheOk, Visible, BookTx;
    var dao := new CachedDao(store, true);
    var entity := new TransactionEntity(tx);
    ghost var books := store.View().books;
    e := entity.Book(dao, txKey, buyerBid, moveKey);
    if e.Some? { return; }
    BookedNames(books, tx, txKey, buyerBid, moveKey);
    dao.SavedAreVisible("");
    e := dao.Flush();
  }

  lemma BookTxIgnoresState(books: Books, tx: Tx, key: string, b: Bid, b': Bid, moveKey: string)
    requires b.price == b'.price && b.fee == b'.fee
    ensures BookTx(books, tx, key, b, moveKey) == BookTx(books, tx, key, b', moveKey)
  {
  }

  lemma BookedNames(books: Books, tx: Tx, key: string, b: Bid, moveKey: string)
    requires AccountsOk(books.accounts) && BookTx(books, tx, key, b, moveKey).Ok?
    ensures "" !in BookTx(books, tx, key, b, moveKey).value.accounts
  {
    hide Place;
    var delta := b.price.Add(b.fee).Sub(tx.price.Add(tx.fee));
    if delta.amount != 0 {
      NoUnnamedAccount(books, tx.matched,
                       TxRequest(TxBooked, tx.buyer, tx.buyer, delta, delta.Neg(), Zero(tx.price.currency), key), moveKey);
    }
  }

  method UpdateStoredTransaction(crypto: Crypto, store: Datastore, key: string, now: int, address: string,
                                 arguments: Arguments) returns (e: Option<Error>)
    modifies store
    ensures Committed(store.reliable, old(store.View()), store.View(),
                      UpdateTransaction(crypto, old(store.View()), key, now, address, arguments), e)
  {
    hide Deliver;
    var before := store.View();
    if key !in store.txs { return Some(NoSuchObject); }
    var tx := new TransactionEntity(store.txs[key]);
    var m := tx.SendMessage(crypto, now, address, arguments);
    if !m.accepted { return Some(Rejected); }
    var ok := store.Access();
    if !ok { return Some(Unavailable); }
    store.messages := store.messages[key := MessagesOf(before, key) + [m]];
    store.txs := store.txs[key := tx.View()];
    ok := store.Access();
    if !ok {
      store.Restore(before);
      return Some(Unavailable);
    }
    store.tasks := store.tasks + multiset{RetireTxTask(key, tx.timeout)};
    return None;
  }

  method RetireStoredTransaction(store: Datastore, key: string, now: int, moveKey: string) returns (e: Option<Error>)
    requires AccountsOk(store.accounts)
    modifies store
    ensures Committed(store.reliable, old(store.View()), store.View(), RetireTransaction(old(store.View()), key, now, moveKey), e)
  {
    var before := store.View();
    e := RetireTxBody(store, key, now, moveKey);
    if e.Some? { store.Restore(before); }
  }

  method RetireTxBody(store: Datastore, key: string, now: int, moveKey: string) returns (e: Option<Error>)
    requires AccountsOk(store.accounts)
    modifies store
    ensures Prepared(store.reliable, store.View(), RetireTransaction(old(store.View()), key, now, moveKey), e)
  {
    hide Place, CacheOk, Visible, SettlementRequest, AccountsOk;
    AccountsKeyed(store.accounts);
    var dao := new CachedDao(store, true);
    if key !in store.txs { return Some(NoSuchObject); }
    var tx := new TransactionEntity(store.txs[key]);
    ghost var s := store.View();
    e := tx.Retire(dao, key, now, moveKey);
    if e.Some? { return; }
    NoUnnamedAccount(s.books, now, SettlementRequest(s.txs[key], key), moveKey);
    var ok := store.Access();
    if !ok { return Some(Unavailable); }
    store.txs := store.txs[key := tx.View()];
    dao.SavedAreVisible("");
    e := dao.Flush();
  }
}
