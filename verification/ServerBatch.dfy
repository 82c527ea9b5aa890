/** The matcher as the server runs it: one datastore transaction on the hot bids of a zone and the
    task queue. */
module ServerBatch {
  import opened Prelude
  import opened Bids
  import opened OrderBook
  import opened Transactions
  import opened Market
  import opened Dao
  import opened HotQueue
  import opened Matcher

  /** Adds up the stored bids of a zone. */
  method Summarize(zone: HotZone) returns (b: Book)
    ensures b == zone.Contents()
  {
    hide Stored;
    b := EMPTY_BOOK;
    var left := zone.entities;
    Nothing();
    while left != map[]
      invariant b.buys + Stored(left, Buy) == Stored(zone.entities, Buy)
      invariant b.sells + Stored(left, Sell) == Stored(zone.entities, Sell)
      decreases |left|
    {
      var k :| k in left;
      var bid := left[k];
      StoredRemove(left, Buy, k);
      StoredRemove(left, Sell, k);
      Grow(b.buys, bid, Buy, Stored(left - {k}, Buy));
      Grow(b.sells, bid, Sell, Stored(left - {k}, Sell));
      b := if bid.bidType == Buy then Book(b.buys + multiset{bid}, b.sells) else Book(b.buys, b.sells + multiset{bid});
      left := left - {k};
    }
    NothingStored();
  }

  lemma Nothing()
    ensures EMPTY_BOOK.buys == multiset{} && EMPTY_BOOK.sells == multiset{}
  {
  }

  lemma Grow(sum: multiset<HotBid>, bid: HotBid, t: BidType, rest: multiset<HotBid>)
    ensures sum + (Portion(bid, t) + rest) == (if bid.bidType == t then sum + multiset{bid} else sum) + rest
  {
  }

  /** Runs a batch and schedules what it decided. It takes the batch step of the market, or
      fails and leaves everything as it was. */
  method MatchZone(ghost crypto: Crypto, store: Datastore, zone: HotZone, matchKey: string, now: int,
                   incoming: seq<HotBid>, buyQuery: seq<nat>, sellQuery: seq<nat>)
    returns (e: Option<Error>, ghost batch: Batch)
    requires zone.Valid() && zone.Contents() == ZoneOf(store.View(), matchKey)
    requires QueryResult(zone.entities, Buy, buyQuery) && QueryResult(zone.entities, Sell, sellQuery)
    requires forall x :: x in incoming ==> (matchKey, x) in store.hotQueue
    modifies store, zone
    ensures e == None || e == Some(Unavailable)
    ensures store.reliable && zone.reliable ==> e == None
    ensures zone.Valid() && zone.Contents() == ZoneOf(store.View(), matchKey)
    ensures e.Some? ==> store.View() == old(store.View())
    ensures e.None? ==>
      && batch.matchKey == matchKey && batch.time == now && Incoming(batch.events) == incoming
      && Possible(old(store.View()), DoBatch(batch))
      && Attempt(crypto, old(store.View()), DoBatch(batch)) == Ok(store.View())
  {
    hide BatchPossible, Stored, Matches, KeyPairs, Keys, Incoming, QueryResult, FinishBatch, Attempt, Possible;
    ghost var s := store.View();
    var entities, id := zone.entities, zone.nextId;
    var matched, placed;
    e, matched, placed, batch := MatchIncomingBids(zone, s, matchKey, now, incoming, buyQuery, sellQuery);
    if e.Some? { return; }
    NonEmptyBooks(s, batch);
    if matched != [] || placed != [] {
      var ok := store.Access();
      if !ok {
        zone.entities, zone.nextId, zone.snapshot := entities, id, entities;
        return Some(Unavailable), batch;
      }
      store.tasks := store.tasks + multiset{ApplyTask(now, matched, placed)};
    }
    var book := Summarize(zone);
    store.zones := store.zones[matchKey := book];
    Finished(crypto, s, store.View(), batch, book);
  }

  /** The changes to the store add up to the batch step. */
  lemma Finished(crypto: Crypto, s: State, s': State, b: Batch, book: Book)
    requires BatchPossible(s, b) && b.books != [] && book == ZoneOf(FinishBatch(s, b), b.matchKey)
    requires var matched, placed := KeyPairs(Matches(b.events)), Keys(b.placed);
      s' == s.(zones := s.zones[b.matchKey := book],
               tasks := if matched == [] && placed == [] then s.tasks
                        else s.tasks + multiset{ApplyTask(b.time, matched, placed)})
    ensures Possible(s, DoBatch(b)) && Attempt(crypto, s, DoBatch(b)) == Ok(s')
  {
    hide BatchPossible, ZoneAfter, Matches, KeyPairs, Keys, BatchTasks;
    TasksOfBatch(b);
    assert s.tasks + multiset{} == s.tasks;
    assert FinishBatch(s, b).tasks == s'.tasks;
    assert FinishBatch(s, b).zones == s'.zones;
  }

  lemma NonEmptyBooks(s: State, b: Batch)
    requires BatchPossible(s, b)
    ensures b.books != []
  {
  }

  lemma TasksOfBatch(b: Batch)
    ensures KeyPairs(Matches(b.events)) == [] && Keys(b.placed) == [] ==> BatchTasks(b) == multiset{}
    ensures KeyPairs(Matches(b.events)) != [] || Keys(b.placed) != [] ==>
              BatchTasks(b) == multiset{ApplyTask(b.time, KeyPairs(Matches(b.events)), Keys(b.placed))}
  {
    hide Matches;
  }
}
