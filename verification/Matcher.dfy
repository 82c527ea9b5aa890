/** The batch matcher: incoming bids meet the resting bids of their zone one after another.
    Each batch is proved to be a session of the reference order book. */
module Matcher {
  import opened Prelude
  import opened Bids
  import opened OrderBook
  import opened Market
  import opened HotHeap
  import opened HotQueue

  /** Two queues that together are one zone. */
  ghost predicate Opposing(mine: HotBidsQueue, theirs: HotBidsQueue)
    reads mine, theirs, mine.zone, theirs.zone, mine.cachedHeap, theirs.cachedHeap
  {
    && mine.zone == theirs.zone && mine != theirs && mine.cachedHeap != theirs.cachedHeap
    && theirs.bidType == Opposite(mine.bidType)
    && mine.Valid() && theirs.Valid()
  }

  /** Popping from one queue leaves the other as it was. */
  twostate lemma OtherUndisturbed(q: HotBidsQueue)
    requires old(q.Valid()) && Popped(old(q.zone.entities), q.zone.entities, Opposite(q.bidType))
    requires unchanged(q) && unchanged(q.cachedHeap) && old(q.zone.snapshot) == q.zone.snapshot
    ensures q.Valid() && q.Resting() == old(q.Resting())
  {
    hide QueryResult, Heap, OneSided, Stored;
    if q.storedTip.Some? {
      assert q.storedTip.value.key in q.Left();
      ListedStays(q.zone.entities, q.bidType, q.Left(), q.storedTip.value.key);
    }
  }

  lemma ListedStays(m: Entities, t: BidType, keys: seq<nat>, k: nat)
    requires QueryResult(m, t, keys) && k in keys
    ensures k in m
  {
  }

  /** Takes the tip out of one queue. */
  method Take(mine: HotBidsQueue, theirs: HotBidsQueue) returns (e: Option<Error>)
    requires Opposing(mine, theirs) && theirs.iter.Some? && theirs.FrontBid().Some?
    modifies theirs, theirs.zone`entities, theirs.cachedHeap
    ensures e == None || e == Some(Unavailable)
    ensures theirs.zone.reliable ==> e == None
    ensures e.None? ==>
      && Opposing(mine, theirs) && theirs.iter.Some?
      && mine.Resting() == old(mine.Resting())
      && old(theirs.FrontBid()).value in old(theirs.Resting())
      && theirs.Resting() == old(theirs.Resting()) - multiset{old(theirs.FrontBid()).value}
      && multiset(theirs.cachedHeap.items) <= old(multiset(theirs.cachedHeap.items))
  {
    hide Listed, Heap, OneSided, Stored, Popped;
    theirs.FrontIsBest();
    e := theirs.Pop();
    if e.None? {
      OtherUndisturbed(mine);
    }
  }

  /** Pops bids that have expired from the head of the queue. */
  method SkipExpired(mine: HotBidsQueue, theirs: HotBidsQueue, now: int)
    returns (e: Option<Error>, tip: Option<HotBid>, ghost dropped: multiset<HotBid>)
    requires Opposing(mine, theirs)
    modifies theirs, theirs.zone`entities, theirs.cachedHeap
    ensures e == None || e == Some(Unavailable)
    ensures theirs.zone.reliable ==> e == None
    ensures e.None? ==>
      && Opposing(mine, theirs) && theirs.iter.Some?
      && mine.Resting() == old(mine.Resting())
      && dropped <= old(theirs.Resting()) && theirs.Resting() == old(theirs.Resting()) - dropped
      && (forall d :: d in dropped ==> d.expires <= now)
      && multiset(theirs.cachedHeap.items) <= old(multiset(theirs.cachedHeap.items))
      && tip == theirs.FrontBid()
      && (tip.Some? ==> tip.value.expires > now)
  {
    hide HotterThan, HotBidsQueue.Valid, HotBidsQueue.Resting, HotBidsQueue.FrontBid;
    dropped := multiset{};
    while true
      invariant Opposing(mine, theirs)
      invariant mine.Resting() == old(mine.Resting())
      invariant multiset(theirs.cachedHeap.items) <= old(multiset(theirs.cachedHeap.items))
      invariant dropped <= old(theirs.Resting()) && theirs.Resting() == old(theirs.Resting()) - dropped
      invariant forall d :: d in dropped ==> d.expires <= now
      decreases |old(theirs.Resting())| - |dropped|
    {
      e, tip := theirs.Tip();
      if e.Some? { return; }
      if tip.None? || tip.value.expires > now { return; }
      e := Take(mine, theirs);
      if e.Some? { return; }
      DropOne(old(theirs.Resting()), dropped, tip.value);
      dropped := dropped + multiset{tip.value};
    }
  }

  lemma DropOne(all: multiset<HotBid>, dropped: multiset<HotBid>, x: HotBid)
    requires dropped <= all && x in all - dropped
    ensures dropped + multiset{x} <= all && |dropped| < |all|
    ensures all - dropped - multiset{x} == all - (dropped + multiset{x})
  {
    Difference(all, dropped + multiset{x});
    assert |all| == |all - (dropped + multiset{x})| + |dropped + multiset{x}|;
  }

  /** Matches an incoming bid with the best resting bid of the other side, or lets it rest. */
  method HandleBid(mine: HotBidsQueue, theirs: HotBidsQueue, bid: HotBid, now: int)
    returns (e: Option<Error>, partner: Option<HotBid>, ghost dropped: multiset<HotBid>)
    requires Opposing(mine, theirs) && mine.bidType == bid.bidType
    modifies mine, theirs, mine.zone`entities, mine.cachedHeap, theirs.cachedHeap
    ensures e == None || e == Some(Unavailable)
    ensures mine.zone.reliable ==> e == None
    ensures e.None? ==>
      && Opposing(mine, theirs)
      && Dealt(old(mine.Resting()), old(theirs.Resting()), mine.Resting(), theirs.Resting(), now,
               Event(bid, dropped, partner))
      && multiset(theirs.cachedHeap.items) <= old(multiset(theirs.cachedHeap.items))
      && multiset(mine.cachedHeap.items) <= old(multiset(mine.cachedHeap.items)) + multiset{bid}
  {
    hide HotterThan, BetterPriced, NoPartner, HotBidsQueue.Valid, HotBidsQueue.Resting, HotBidsQueue.FrontBid;
    var tip;
    e, tip, dropped := SkipExpired(mine, theirs, now);
    if e.Some? { return e, None, dropped; }
    theirs.FrontIsBest();
    if tip.Some? && HotterThan(tip.value, bid) {
      e := Take(mine, theirs);
      return e, tip, dropped;
    } else {
      NothingBetter(theirs.Resting(), tip, bid, now);
      e := mine.Insert(bid);
      return e, None, dropped;
    }
  }

  /** If the best resting bid is alive and not hotter than the incoming one, there is no partner. */
  lemma NothingBetter(resting: multiset<HotBid>, tip: Option<HotBid>, bid: HotBid, now: int)
    requires tip.None? ==> resting == multiset{}
    requires tip.Some? ==> !HotterThan(tip.value, bid) && tip.value in resting && tip.value.expires > now
    requires tip.Some? ==> forall x :: x in resting ==> x.bidType == tip.value.bidType && !BetterPriced(x, tip.value)
    ensures NoPartner(resting, now, bid)
  {
    assert tip.Some? ==> Declines(tip.value, resting, now, bid);
  }

  // ---------------------------------------------------------------- a whole batch

  lemma ExtendSession(books: seq<Book>, now: int, events: seq<Event>, book: Book, e: Event)
    requires Session(books, now, events) && Handled(books[|events|], book, now, e)
    ensures Session(books + [book], now, events + [e])
    ensures Incoming(events + [e]) == Incoming(events) + [e.incoming]
    ensures Matches(events + [e]) == Matches(events) + (if e.partner.Some? then [(e.incoming, e.partner.value)] else [])
  {
    hide Handled;
    assert (events + [e])[..|events|] == events;
  }

  /** The keys of all pairs grow with the pairs. */
  lemma ExtendPairs(pairs: seq<(HotBid, HotBid)>, p: (HotBid, HotBid))
    ensures KeyPairs(pairs + [p]) == KeyPairs(pairs) + [(p.0.bidKey, p.1.bidKey)]
  {
  }

  /** Matches the incoming bids in sequence. */
  method MatchAll(buys: HotBidsQueue, sells: HotBidsQueue, now: int, incoming: seq<HotBid>)
    returns (e: Option<Error>, matched: seq<(string, string)>, ghost books: seq<Book>, ghost events: seq<Event>)
    requires buys.bidType == Buy && Opposing(buys, sells)
    requires buys.cachedHeap.items == [] && sells.cachedHeap.items == []
    modifies buys, sells, buys.zone`entities, buys.cachedHeap, sells.cachedHeap
    ensures e == None || e == Some(Unavailable)
    ensures buys.zone.reliable ==> e == None
    ensures e.None? ==>
      && Opposing(buys, sells)
      && Session(books, now, events) && Incoming(events) == incoming
      && books[0] == old(Book(buys.Resting(), sells.Resting()))
      && books[|events|] == Book(buys.Resting(), sells.Resting())
      && matched == KeyPairs(Matches(events))
      && (forall x :: x in multiset(buys.cachedHeap.items) + multiset(sells.cachedHeap.items) ==> x in incoming)
  {
    hide Dealt, Session, HotBidsQueue.Valid, HotBidsQueue.Resting, Listed, Heap, OneSided, Incoming, Matches, KeyPairs;
    books, events, matched := [Book(buys.Resting(), sells.Resting())], [], [];
    StartSession(books, now);
    var i := 0;
    while i < |incoming|
      invariant 0 <= i <= |incoming|
      invariant Opposing(buys, sells)
      invariant |books| == |events| + 1
      invariant Session(books, now, events) && Incoming(events) == incoming[..i]
      invariant books[0] == old(Book(buys.Resting(), sells.Resting()))
      invariant books[|events|] == Book(buys.Resting(), sells.Resting())
      invariant matched == KeyPairs(Matches(events))
      invariant forall x :: x in multiset(buys.cachedHeap.items) + multiset(sells.cachedHeap.items) ==> x in incoming[..i]
    {
      var bid := incoming[i];
      var thisQueue, otherQueue := sells, buys;
      if bid.bidType == Buy {
        thisQueue, otherQueue := buys, sells;
      }
      var partner;
      ghost var dropped;
      e, partner, dropped := HandleBid(thisQueue, otherQueue, bid, now);
      if e.Some? { return; }
      ghost var event := Event(bid, dropped, partner);
      ghost var book := Book(buys.Resting(), sells.Resting());
      ExtendSession(books, now, events, book, event);
      if partner.Some? {
        ExtendPairs(Matches(events), (bid, partner.value));
        matched := matched + [(bid.bidKey, partner.value.bidKey)];
      }
      assert Matches(events) + [] == Matches(events);
      books, events := books + [book], events + [event];
      assert incoming[..i + 1] == incoming[..i] + [bid];
      i := i + 1;
    }
    assert incoming[..i] == incoming;
    return None, matched, books, events;
  }

  lemma StartSession(books: seq<Book>, now: int)
    requires |books| == 1
    ensures Session(books, now, []) && Incoming([]) == [] && KeyPairs(Matches([])) == []
  {
  }

  function Expired(m: Entities, now: int): Entities {
    map k | k in m && m[k].expires <= now :: m[k]
  }

  function Alive(m: Entities, now: int): Entities {
    map k | k in m && m[k].expires > now :: m[k]
  }

  /** Deletes what had expired when the transaction began; bids written since are not seen. */
  method DeleteExpired(zone: HotZone, now: int) returns (e: Option<Error>)
    modifies zone`entities
    ensures e == None || e == Some(Unavailable)
    ensures zone.reliable ==> e == None
    ensures e.None? ==> zone.entities == old(zone.entities) - Expired(zone.snapshot, now).Keys
  {
    var expired := Expired(zone.snapshot, now).Keys;
    while expired != {}
      invariant zone.entities - expired == old(zone.entities) - Expired(zone.snapshot, now).Keys
      decreases |expired|
    {
      var k :| k in expired;
      e := zone.Delete(k);
      if e.Some? { return; }
      expired := expired - {k};
    }
    return None;
  }

  /** What the batch leaves of the stored bids `left`, and the newly written `b` and `s`. */
  lemma Purge(left: Entities, snapshot: Entities, b: Entities, s: Entities, now: int)
    requires Restricted(left, snapshot)
    requires b.Keys !! snapshot.Keys && s.Keys !! snapshot.Keys
    ensures left + b + s - Expired(snapshot, now).Keys == Alive(left, now) + b + s
    ensures Alive(left, now) + Expired(left, now) == left && Alive(left, now).Keys !! Expired(left, now).Keys
  {
  }

  lemma Split(left: Entities, now: int, t: BidType)
    ensures Stored(left, t) == Stored(Alive(left, now), t) + Stored(Expired(left, now), t)
  {
    hide Stored;
    assert Alive(left, now) + Expired(left, now) == left;
    StoredJoin(Alive(left, now), Expired(left, now), t);
  }

  lemma RestrictedAmount(left: Entities, snapshot: Entities, t: BidType)
    requires Restricted(left, snapshot)
    ensures Stored(left, t) <= Stored(snapshot, t)
  {
    hide Stored;
    var gone := snapshot - left.Keys;
    assert left + gone == snapshot;
    StoredJoin(left, gone, t);
  }

  /** The totals of one side at the end of a batch. */
  lemma SideAfter(left: Entities, b: Entities, s: Entities, now: int, t: BidType)
    requires left.Keys !! b.Keys && (left.Keys + b.Keys) !! s.Keys
    ensures Stored(Alive(left, now) + b + s, t) == Stored(Alive(left, now), t) + Stored(b, t) + Stored(s, t)
  {
    hide Stored;
    StoredJoin(Alive(left, now), b, t);
    StoredJoin(Alive(left, now) + b, s, t);
  }

  /** Everything about a batch that its outcome depends on. */
  ghost predicate Outcome(before: Book, left: Entities, snapshot: Entities, added: Book, batch: Batch) {
    && Session(batch.books, batch.time, batch.events)
    && batch.books[0] == before
    && Restricted(left, snapshot) && before == Book(Stored(snapshot, Buy), Stored(snapshot, Sell))
    && batch.books[|batch.events|] == Book(Stored(left, Buy) + added.buys, Stored(left, Sell) + added.sells)
    && multiset(batch.placed) == added.buys + added.sells
    && batch.purged == Book(Stored(Expired(left, batch.time), Buy), Stored(Expired(left, batch.time), Sell))
  }

  lemma OutcomeZone(before: Book, left: Entities, snapshot: Entities, added: Book, batch: Batch)
    requires Outcome(before, left, snapshot, added, batch)
    ensures ZoneAfter(batch) == Book(Stored(Alive(left, batch.time), Buy) + added.buys,
                                     Stored(Alive(left, batch.time), Sell) + added.sells)
    ensures batch.purged.buys <= batch.books[|batch.events|].buys
    ensures batch.purged.sells <= batch.books[|batch.events|].sells
    ensures batch.purged.All() <= before.All()
    ensures multiset(batch.placed) <= ZoneAfter(batch).All()
  {
    hide Stored, Session, Handled;
    SessionLength(batch);
    Split(left, batch.time, Buy);
    Split(left, batch.time, Sell);
    RestrictedAmount(left, snapshot, Buy);
    RestrictedAmount(left, snapshot, Sell);
    Remove(Stored(Alive(left, batch.time), Buy), batch.purged.buys, added.buys);
    Remove(Stored(Alive(left, batch.time), Sell), batch.purged.sells, added.sells);
  }

  lemma SessionLength(batch: Batch)
    requires Session(batch.books, batch.time, batch.events)
    ensures |batch.books| == |batch.events| + 1
  {
  }

  lemma Remove<T>(alive: multiset<T>, expired: multiset<T>, added: multiset<T>)
    ensures alive + expired + added - expired == alive + added
    ensures expired <= alive + expired + added
  {
  }

  lemma OutcomePossible(s: State, left: Entities, snapshot: Entities, added: Book, batch: Batch)
    requires Outcome(ZoneOf(s, batch.matchKey), left, snapshot, added, batch)
    requires forall x :: x in Incoming(batch.events) ==> (batch.matchKey, x) in s.hotQueue
    requires forall x :: x in batch.placed ==> x in Incoming(batch.events)
    ensures BatchPossible(s, batch)
  {
    hide Stored, Session, Incoming, Book.All;
    OutcomeZone(ZoneOf(s, batch.matchKey), left, snapshot, added, batch);
    SessionLength(batch);
    StillAlive(left, snapshot, added, batch, ZoneOf(s, batch.matchKey));
    OthersWereStored(ZoneOf(s, batch.matchKey), left, snapshot, added, batch);
  }

  /** What rests without being placed was stored before. */
  lemma OthersWereStored(before: Book, left: Entities, snapshot: Entities, added: Book, batch: Batch)
    requires Outcome(before, left, snapshot, added, batch) && |batch.books| == |batch.events| + 1
    ensures batch.books[|batch.events|].All() - multiset(batch.placed) <= before.All()
  {
    hide Stored, Session, Restricted;
    RestrictedAmount(left, snapshot, Buy);
    RestrictedAmount(left, snapshot, Sell);
    Sides(Stored(left, Buy), Stored(left, Sell), added.buys, added.sells);
  }

  lemma StillAlive(left: Entities, snapshot: Entities, added: Book, batch: Batch, before: Book)
    requires Outcome(before, left, snapshot, added, batch) && |batch.books| == |batch.events| + 1
    ensures forall x :: x in batch.purged.All() ==> x.expires <= batch.time
    ensures forall x :: x in ZoneAfter(batch).All() - multiset(batch.placed) ==> x.expires > batch.time
  {
    hide Stored, Session, Restricted;
    OutcomeZone(before, left, snapshot, added, batch);
    var alive := Alive(left, batch.time);
    forall x | x in batch.purged.All() ensures x.expires <= batch.time {
      StoredMember(Expired(left, batch.time), x.bidType, x);
      StoredMember(Expired(left, batch.time), Buy, x);
      StoredMember(Expired(left, batch.time), Sell, x);
    }
    Sides(Stored(alive, Buy), Stored(alive, Sell), added.buys, added.sells);
    forall x | x in ZoneAfter(batch).All() - multiset(batch.placed) ensures x.expires > batch.time {
      StoredMember(alive, Buy, x);
      StoredMember(alive, Sell, x);
    }
  }

  lemma Sides<T>(a: multiset<T>, b: multiset<T>, c: multiset<T>, d: multiset<T>)
    ensures (a + c) + (b + d) - (c + d) == a + b
  {
  }

  /** Nobody is lost in a batch: what was stored and what came in is afterwards stored, matched,
      dropped on the way, or purged for having expired, each in exactly one of these ways. */
  lemma BatchConserves(s: State, b: Batch)
    requires BatchPossible(s, b)
    ensures ZoneOf(s, b.matchKey).All() + multiset(Incoming(b.events)) ==
            ZoneAfter(b).All() + b.purged.All() + OrderBook.Matched(b.events) + Dropped(b.events)
  {
    hide Session, Incoming, OrderBook.Matched, Dropped, Matches;
    SessionLength(b);
    SessionConserves(b.books, b.time, b.events);
    var last := b.books[|b.events|];
    Difference(last.buys, b.purged.buys);
    Difference(last.sells, b.purged.sells);
    AddUp(ZoneAfter(b).buys, ZoneAfter(b).sells, b.purged.buys, b.purged.sells);
  }

  lemma AddUp<T>(a: multiset<T>, b: multiset<T>, c: multiset<T>, d: multiset<T>)
    ensures (a + c) + (b + d) == (a + b) + (c + d)
  {
  }

  /** A batch as one datastore transaction, given the query answers the datastore chose and the
      bids leased from the queue. What it leaves behind is what the batch step specifies; a
      failure leaves nothing behind. */
  method MatchIncomingBids(zone: HotZone, ghost s: State, matchKey: string, now: int, incoming: seq<HotBid>,
                           buyQuery: seq<nat>, sellQuery: seq<nat>)
    returns (e: Option<Error>, matched: seq<(string, string)>, placed: seq<string>, ghost batch: Batch)
    requires zone.Valid() && zone.Contents() == ZoneOf(s, matchKey)
    requires QueryResult(zone.entities, Buy, buyQuery) && QueryResult(zone.entities, Sell, sellQuery)
    requires forall x :: x in incoming ==> (matchKey, x) in s.hotQueue
    modifies zone
    ensures e == None || e == Some(Unavailable)
    ensures zone.reliable ==> e == None
    ensures e.Some? ==> zone.entities == old(zone.entities) && zone.Valid()
    ensures e.None? ==>
      && batch.matchKey == matchKey && batch.time == now && Incoming(batch.events) == incoming
      && BatchPossible(s, batch) && zone.Valid()
      && zone.Contents() == ZoneOf(FinishBatch(s, batch), matchKey)
      && matched == KeyPairs(Matches(batch.events)) && placed == Keys(batch.placed)
  {
    hide BatchPossible, Stored, Session, QueryResult, Matches, KeyPairs, Incoming;
    var before, id := zone.entities, zone.nextId;
    zone.snapshot := before;
    e, matched, placed, batch := RunBatch(zone, s, matchKey, now, incoming, buyQuery, sellQuery);
    if e.Some? {
      zone.entities, zone.nextId := before, id;
    }
  }

  method RunBatch(zone: HotZone, ghost s: State, matchKey: string, now: int, incoming: seq<HotBid>,
                  buyQuery: seq<nat>, sellQuery: seq<nat>)
    returns (e: Option<Error>, matched: seq<(string, string)>, placed: seq<string>, ghost batch: Batch)
    requires zone.Valid() && zone.snapshot == zone.entities && zone.Contents() == ZoneOf(s, matchKey)
    requires QueryResult(zone.entities, Buy, buyQuery) && QueryResult(zone.entities, Sell, sellQuery)
    requires forall x :: x in incoming ==> (matchKey, x) in s.hotQueue
    modifies zone`entities, zone`nextId
    ensures e == None || e == Some(Unavailable)
    ensures zone.reliable ==> e == None
    ensures e.None? ==>
      && batch.matchKey == matchKey && batch.time == now && Incoming(batch.events) == incoming
      && BatchPossible(s, batch) && zone.Valid()
      && zone.Contents() == ZoneAfter(batch)
      && matched == KeyPairs(Matches(batch.events)) && placed == Keys(batch.placed)
  {
    hide BatchPossible, Stored, Session, Listed, Matches, KeyPairs, Incoming, HotBidsHeap.Valid, Opposing, ZoneAfter,
         Keys, Expired, Alive, HotBidsQueue.Valid, HotBidsQueue.Left, QueryResult, HotZone.Valid, Restricted, KeysBelow;
    KnownKeys(zone);
    batch := Batch(matchKey, now, [], [], [], EMPTY_BOOK);
    placed := [];
    var buys := new HotBidsQueue(Buy, zone, buyQuery);
    var sells := new HotBidsQueue(Sell, zone, sellQuery);
    ghost var books, events;
    NewQueues(buys, sells);
    e, matched, books, events := MatchAll(buys, sells, now, incoming);
    if e.Some? { return; }
    ghost var left := zone.entities;
    ghost var buyBids, sellBids;
    ReadyToStore(buys, sells);
    StillValid(zone);
    e, placed, buyBids, sellBids := Store(buys, sells, now);
    if e.Some? { return; }
    ghost var added := Book(multiset(buyBids), multiset(sellBids));
    batch := Batch(matchKey, now, books, events, buyBids + sellBids,
                   Book(Stored(Expired(left, now), Buy), Stored(Expired(left, now), Sell)));
    OutcomePossible(s, left, zone.snapshot, added, batch);
    OutcomeZone(ZoneOf(s, matchKey), left, zone.snapshot, added, batch);
  }

  ghost predicate KeysBelow(m: Entities, id: nat) {
    forall k :: k in m ==> k < id
  }

  lemma KnownKeys(zone: HotZone)
    requires zone.Valid()
    ensures KeysBelow(zone.snapshot, zone.nextId)
  {
  }

  lemma StillValid(zone: HotZone)
    requires KeysBelow(zone.snapshot, zone.nextId) && Restricted(zone.entities, zone.snapshot)
    ensures zone.Valid()
  {
  }

  lemma NewQueues(buys: HotBidsQueue, sells: HotBidsQueue)
    requires buys.zone == sells.zone && buys != sells && buys.cachedHeap != sells.cachedHeap
    requires buys.bidType == Buy == buys.cachedHeap.side && sells.bidType == Sell == sells.cachedHeap.side
    requires buys.cachedHeap.Valid() && sells.cachedHeap.Valid()
    requires buys.iter.None? && buys.storedTip.None? && sells.iter.None? && sells.storedTip.None?
    requires buys.cachedHeap.items == [] && sells.cachedHeap.items == []
    requires buys.zone.snapshot == buys.zone.entities
    requires QueryResult(buys.zone.entities, Buy, buys.query) && QueryResult(buys.zone.entities, Sell, sells.query)
    ensures Opposing(buys, sells)
    ensures Book(buys.Resting(), sells.Resting()) == buys.zone.Contents()
  {
    hide QueryResult, Heap, OneSided;
  }

  /** Writes what was left unmatched and deletes what has expired. */
  method Store(buys: HotBidsQueue, sells: HotBidsQueue, now: int)
    returns (e: Option<Error>, placed: seq<string>, ghost buyBids: seq<HotBid>, ghost sellBids: seq<HotBid>)
    requires buys.bidType == Buy && Opposing(buys, sells) && buys.zone.Valid()
    modifies buys.zone`entities, buys.zone`nextId, buys.cachedHeap, sells.cachedHeap
    ensures e == None || e == Some(Unavailable)
    ensures buys.zone.reliable ==> e == None
    ensures e.None? ==>
      && buys.zone.Valid()
      && multiset(buyBids) == old(multiset(buys.cachedHeap.items))
      && multiset(sellBids) == old(multiset(sells.cachedHeap.items))
      && placed == Keys(buyBids + sellBids)
      && Stored(buys.zone.entities, Buy) ==
           Stored(Alive(old(buys.zone.entities), now), Buy) + multiset(buyBids)
      && Stored(buys.zone.entities, Sell) ==
           Stored(Alive(old(buys.zone.entities), now), Sell) + multiset(sellBids)
  {
    hide Stored, HotterThan, Below, Opposing, HotBidsHeap.Valid, Restricted, Expired, Alive;
    ReadyToStore(buys, sells);
    buyBids, sellBids, placed := [], [], [];
    ghost var left, snapshot := buys.zone.entities, buys.zone.snapshot;
    ghost var addedBuys, addedSells;
    e, addedBuys, addedSells := PersistBoth(buys, sells);
    if e.Some? { return; }
    placed, buyBids, sellBids := FlushBoth(buys, sells);
    e := DeleteExpired(buys.zone, now);
    if e.Some? { return; }
    StoreAmounts(left, snapshot, addedBuys, addedSells, now);
  }

  method PersistBoth(buys: HotBidsQueue, sells: HotBidsQueue)
    returns (e: Option<Error>, ghost addedBuys: Entities, ghost addedSells: Entities)
    requires buys.bidType == Buy && Opposing(buys, sells) && buys.zone.Valid()
    modifies buys.zone`entities, buys.zone`nextId
    ensures e == None || e == Some(Unavailable)
    ensures buys.zone.reliable ==> e == None
    ensures e.None? ==>
      && buys.zone.Valid()
      && buys.zone.entities == old(buys.zone.entities) + addedBuys + addedSells
      && addedBuys.Keys !! buys.zone.snapshot.Keys && addedSells.Keys !! buys.zone.snapshot.Keys
      && addedSells.Keys !! addedBuys.Keys
      && Stored(addedBuys, Buy) == multiset(buys.cachedHeap.items) && Stored(addedBuys, Sell) == multiset{}
      && Stored(addedSells, Sell) == multiset(sells.cachedHeap.items) && Stored(addedSells, Buy) == multiset{}
  {
    hide Stored, Opposing, HotBidsHeap.Valid, Restricted;
    ReadyToStore(buys, sells);
    addedSells := map[];
    e, addedBuys := buys.Persist();
    if e.Some? { return; }
    e, addedSells := sells.Persist();
  }

  method FlushBoth(buys: HotBidsQueue, sells: HotBidsQueue)
    returns (placed: seq<string>, ghost buyBids: seq<HotBid>, ghost sellBids: seq<HotBid>)
    requires buys.cachedHeap.Valid() && sells.cachedHeap.Valid() && buys.cachedHeap != sells.cachedHeap
    modifies buys.cachedHeap, sells.cachedHeap
    ensures multiset(buyBids) == old(multiset(buys.cachedHeap.items))
    ensures multiset(sellBids) == old(multiset(sells.cachedHeap.items))
    ensures placed == Keys(buyBids + sellBids)
  {
    hide Below, HotBidsHeap.Valid;
    var buyKeys, sellKeys;
    buyKeys, buyBids := buys.Flush();
    sellKeys, sellBids := sells.Flush();
    placed := buyKeys + sellKeys;
  }

  lemma ReadyToStore(buys: HotBidsQueue, sells: HotBidsQueue)
    requires buys.bidType == Buy && Opposing(buys, sells)
    ensures buys.cachedHeap.Valid() && sells.cachedHeap.Valid()
    ensures buys.cachedHeap.side == Buy && sells.cachedHeap.side == Sell && sells.bidType == Sell
    ensures buys.iter.None? ==> buys.cachedHeap.items == []
    ensures sells.iter.None? ==> sells.cachedHeap.items == []
    ensures sells.zone == buys.zone && buys.cachedHeap != sells.cachedHeap
    ensures Restricted(buys.zone.entities, buys.zone.snapshot)
  {
    hide QueryResult, Heap, OneSided, Restricted;
  }

  lemma StoreAmounts(left: Entities, snapshot: Entities, b: Entities, s: Entities, now: int)
    requires Restricted(left, snapshot)
    requires b.Keys !! snapshot.Keys && s.Keys !! snapshot.Keys && s.Keys !! b.Keys
    requires Stored(b, Sell) == multiset{} && Stored(s, Buy) == multiset{}
    ensures Stored(left + b + s - Expired(snapshot, now).Keys, Buy) == Stored(Alive(left, now), Buy) + Stored(b, Buy)
    ensures Stored(left + b + s - Expired(snapshot, now).Keys, Sell) == Stored(Alive(left, now), Sell) + Stored(s, Sell)
  {
    hide Stored, Expired, Alive;
    Purge(left, snapshot, b, s, now);
    SideAfter(left, b, s, now, Buy);
    SideAfter(left, b, s, now, Sell);
  }
}
