/** The two sides of a hot zone as the matcher sees them: bids stored in the datastore, read
    lazily in order of price, merged with bids that so far exist in memory only. */
module HotQueue {
  import opened Prelude
  import opened Bids
  import opened OrderBook
  import opened HotHeap

  type Entities = map<nat, HotBid>

  /** All stored bids of one side. */
  ghost function Stored(m: Entities, t: BidType): multiset<HotBid>
  {
    if m == map[] then multiset{} else
    var k :| k in m;
    Portion(m[k], t) + Stored(m - {k}, t)
  }

  ghost function Portion(b: HotBid, t: BidType): multiset<HotBid> {
    if b.bidType == t then multiset{b} else multiset{}
  }

  lemma {:induction false} StoredRemove(m: Entities, t: BidType, k: nat)
    requires k in m
    ensures Stored(m, t) == Portion(m[k], t) + Stored(m - {k}, t)
    decreases |m|
  {
    hide Portion;
    var j :| j in m && Stored(m, t) == Portion(m[j], t) + Stored(m - {j}, t);
    if j != k {
      StoredRemove(m - {j}, t, k);
      StoredRemove(m - {k}, t, j);
      var rest := m - {j} - {k};
      assert rest == m - {k} - {j};
      Rotate(Portion(m[j], t), Portion(m[k], t), Stored(rest, t));
    }
  }

  lemma Rotate<T>(a: multiset<T>, b: multiset<T>, c: multiset<T>)
    ensures a + (b + c) == b + (a + c)
    ensures (a + b) + c == a + (b + c)
  {
  }

  lemma {:induction false} StoredMember(m: Entities, t: BidType, x: HotBid)
    ensures x in Stored(m, t) <==> x.bidType == t && x in m.Values
    decreases |m|
  {
    if m != map[] {
      var k :| k in m && Stored(m, t) == Portion(m[k], t) + Stored(m - {k}, t);
      StoredMember(m - {k}, t, x);
      ValuesRemove(m, k);
      assert x in Portion(m[k], t) <==> x == m[k] && x.bidType == t;
    }
  }

  lemma ValuesRemove(m: Entities, k: nat)
    requires k in m
    ensures m.Values == (m - {k}).Values + {m[k]}
  {
    forall x | x in m.Values ensures x in (m - {k}).Values + {m[k]} {
      var j :| j in m && m[j] == x;
      if j != k { assert (m - {k})[j] == x; }
    }
  }

  lemma JoinRemove(m: Entities, n: Entities, k: nat)
    requires m.Keys !! n.Keys && k in n
    ensures k in m + n && (m + n)[k] == n[k] && m.Keys !! (n - {k}).Keys
    ensures m + n - {k} == m + (n - {k})
    ensures |n - {k}| < |n|
  {
    assert (n - {k}).Keys == n.Keys - {k};
  }

  lemma {:induction false} StoredJoin(m: Entities, n: Entities, t: BidType)
    requires m.Keys !! n.Keys
    ensures Stored(m + n, t) == Stored(m, t) + Stored(n, t)
    decreases |n|
  {
    hide Portion, Stored;
    if n == map[] {
      assert m + n == m;
      NothingStored();
    } else {
      var k :| k in n;
      StoredRemove(n, t, k);
      StoredRemove(m + n, t, k);
      var rest := n - {k};
      JoinRemove(m, n, k);
      StoredJoin(m, rest, t);
      Rotate(Portion(n[k], t), Stored(m, t), Stored(rest, t));
    }
  }

  /** A hot zone inside the running datastore transaction: queries see the state from when the
      transaction began, writes go to `entities`. */
  class HotZone {
    const reliable: bool
    var snapshot: Entities
    var entities: Entities
    var nextId: nat

    ghost predicate Valid() reads this {
      forall k :: k in snapshot || k in entities ==> k < nextId
    }

    ghost function Contents(): Book reads this {
      Book(Stored(entities, Buy), Stored(entities, Sell))
    }

    constructor (reliable: bool)
      ensures Valid() && entities == map[] && this.reliable == reliable
    {
      this.reliable := reliable;
      snapshot, entities, nextId := map[], map[], 0;
    }

    /** One access to the datastore: an outage may prevent it. */
    method Access() returns (ok: bool)
      ensures reliable ==> ok
    {
      var up: bool := *;
      return reliable || up;
    }

    method Delete(k: nat) returns (e: Option<Error>)
      modifies this`entities
      ensures e == None || e == Some(Unavailable)
      ensures reliable ==> e == None
      ensures entities == if e.None? then old(entities) - {k} else old(entities)
    {
      var ok := Access();
      if !ok { return Some(Unavailable); }
      entities := entities - {k};
      return None;
    }

    method Put(b: HotBid) returns (e: Option<Error>)
      requires Valid()
      modifies this`entities, this`nextId
      ensures e == None || e == Some(Unavailable)
      ensures reliable ==> e == None
      ensures e.None? ==> Valid() && nextId == old(nextId) + 1 && entities == old(entities)[old(nextId) := b]
    {
      var ok := Access();
      if !ok { return Some(Unavailable); }
      entities := entities[nextId := b];
      nextId := nextId + 1;
      return None;
    }
  }

  /** What the listed entities amount to. */
  ghost function Amass(m: Entities, keys: seq<nat>): multiset<HotBid>
    requires forall k :: k in keys ==> k in m
  {
    if keys == [] then multiset{} else multiset{m[keys[0]]} + Amass(m, keys[1..])
  }

  lemma {:induction false} AmassMember(m: Entities, keys: seq<nat>, x: HotBid) returns (i: nat)
    requires (forall k :: k in keys ==> k in m) && x in Amass(m, keys)
    ensures i < |keys| && m[keys[i]] == x
  {
    if x == m[keys[0]] {
      i := 0;
    } else {
      i := AmassMember(m, keys[1..], x);
      i := i + 1;
    }
  }

  ghost predicate Distinct(keys: seq<nat>) {
    forall i, j :: 0 <= i < j < |keys| ==> keys[i] != keys[j]
  }

  /** Nothing later in the list has a better price. */
  ghost predicate PriceSorted(m: Entities, keys: seq<nat>)
    requires forall k :: k in keys ==> k in m
  {
    forall i, j :: 0 <= i < j < |keys| ==> !BetterPriced(m[keys[j]], m[keys[i]])
  }

  /** The answer to a query for the bids of one side, best price first, in the order the
      datastore happens to choose among equal prices. */
  ghost predicate QueryResult(m: Entities, t: BidType, keys: seq<nat>) {
    && (forall k :: k in keys <==> k in m && m[k].bidType == t)
    && Distinct(keys)
    && PriceSorted(m, keys)
  }

  ghost predicate Restricted(m: Entities, s: Entities) {
    forall k :: k in m ==> k in s && s[k] == m[k]
  }

  /** `keys` lists exactly the entities of side `t` that are still stored. */
  ghost predicate Listed(m: Entities, s: Entities, t: BidType, keys: seq<nat>) {
    Restricted(m, s) && QueryResult(m, t, keys)
  }

  lemma {:induction false} ListedAmount(m: Entities, t: BidType, keys: seq<nat>)
    requires QueryResult(m, t, keys)
    ensures Amass(m, keys) == Stored(m, t)
    decreases |keys|
  {
    if keys == [] {
      assert Stored(m, t) == multiset{} by {
        forall x ensures x !in Stored(m, t) {
          StoredMember(m, t, x);
          if k: nat :| k in m && m[k] == x && x.bidType == t {
            assert k !in keys;
          }
        }
      }
    } else {
      var k := keys[0];
      AfterFirst(m, t, keys);
      ListedAmount(m - {k}, t, keys[1..]);
      StoredRemove(m, t, k);
      AmassSame(m, m - {k}, keys[1..]);
    }
  }

  lemma {:induction false} AmassSame(m: Entities, n: Entities, keys: seq<nat>)
    requires forall k :: k in keys ==> k in m && k in n && m[k] == n[k]
    ensures Amass(m, keys) == Amass(n, keys)
  {
    if keys != [] {
      assert keys[0] in keys;
      AmassSame(m, n, keys[1..]);
    }
  }

  /** Deleting the first listed entity leaves the rest of the list. */
  lemma AfterFirst(m: Entities, t: BidType, keys: seq<nat>)
    requires QueryResult(m, t, keys) && keys != []
    ensures QueryResult(m - {keys[0]}, t, keys[1..])
  {
    hide BetterPriced;
    forall k ensures k in keys[1..] <==> k in m - {keys[0]} && m[k].bidType == t {
      if k in keys && k != keys[0] {
        var i :| 0 <= i < |keys| && keys[i] == k;
        assert keys[1..][i - 1] == k;
      }
    }
  }

  /** Deleting an entity of the other side leaves the list of this side. */
  lemma OtherSide(m: Entities, t: BidType, keys: seq<nat>, k: nat)
    requires QueryResult(m, t, keys) && k in m && m[k].bidType != t
    ensures QueryResult(m - {k}, t, keys)
  {
    hide BetterPriced, Stored;
    var rest := m - {k};
    assert k !in keys;
    assert forall j :: j in keys ==> j in rest && rest[j] == m[j];
    StillSorted(m, rest, keys);
  }

  lemma StillSorted(m: Entities, n: Entities, keys: seq<nat>)
    requires forall k :: k in keys ==> k in m && k in n && n[k] == m[k]
    requires PriceSorted(m, keys)
    ensures PriceSorted(n, keys)
  {
    hide BetterPriced;
  }

  datatype StoredHotBid = StoredHotBid(hotBid: HotBid, key: nat)

  datatype Front = Nothing | StoredTip | CachedTip

  class HotBidsQueue {
    const bidType: BidType
    const zone: HotZone
    const query: seq<nat>
    const cachedHeap: HotBidsHeap
    var iter: Option<seq<nat>>
    var storedTip: Option<StoredHotBid>

    constructor (t: BidType, z: HotZone, q: seq<nat>)
      ensures bidType == t && zone == z && query == q && fresh(cachedHeap) && cachedHeap.Valid()
      ensures iter == None && storedTip == None && cachedHeap.items == [] && cachedHeap.side == t
    {
      bidType, zone, query, iter, storedTip := t, z, q, None, None;
      cachedHeap := new HotBidsHeap(t);
    }

    /** The stored entities of this side that have not been popped. */
    ghost function Left(): seq<nat> reads this {
      match iter
      case None => query
      case Some(rest) => if storedTip.Some? then [storedTip.value.key] + rest else rest
    }

    ghost predicate Valid() reads this, zone, cachedHeap {
      && cachedHeap.Valid() && cachedHeap.side == bidType
      && Listed(zone.entities, zone.snapshot, bidType, Left())
      && (storedTip.Some? ==>
            && iter.Some?
            && storedTip.value.key in zone.entities
            && storedTip.value.hotBid == zone.entities[storedTip.value.key])
      && (iter == Some([]) || storedTip.Some? || iter.None?)
      && (iter.None? ==> cachedHeap.items == [])
    }

    /** Every bid on this side, wherever it is kept. */
    ghost function Resting(): multiset<HotBid> reads this, zone, cachedHeap {
      Stored(zone.entities, bidType) + multiset(cachedHeap.items)
    }

    method Init() returns (e: Option<Error>)
      requires Valid()
      modifies this
      ensures e == None || e == Some(Unavailable)
      ensures zone.reliable ==> e == None
      ensures e.None? ==> Valid() && iter.Some?
    {
      if iter.None? {
        iter := Some(query);
        e := FetchNext();
      } else {
        e := None;
      }
    }

    method FetchNext() returns (e: Option<Error>)
      requires iter.Some? && Listed(zone.entities, zone.snapshot, bidType, iter.value)
      modifies this
      ensures e == None || e == Some(Unavailable)
      ensures zone.reliable ==> e == None
      ensures e.None? ==> iter.Some? && Left() == old(iter.value) && (storedTip.Some? || iter == Some([]))
      ensures e.None? && storedTip.Some? ==>
        && storedTip.value.key in zone.entities
        && storedTip.value.hotBid == zone.entities[storedTip.value.key]
    {
      hide PriceSorted;
      var ok := zone.Access();
      if !ok { return Some(Unavailable); }
      if iter.value == [] {
        storedTip := None;
      } else {
        var key := iter.value[0];
        assert key in iter.value;
        storedTip := Some(StoredHotBid(zone.snapshot[key], key));
        iter := Some(iter.value[1..]);
      }
      return None;
    }

    /** Whether the hottest bid is a stored one or a cached one. */
    function WithTip(): Front
      reads this, cachedHeap
    {
      if storedTip.None? then
        if cachedHeap.Len() != 0 then CachedTip else Nothing
      else if cachedHeap.Len() == 0 then StoredTip
      else if HotterThan(storedTip.value.hotBid, cachedHeap.Get(0)) then StoredTip
      else CachedTip
    }

    function FrontBid(): Option<HotBid>
      reads this, cachedHeap
    {
      match WithTip()
      case Nothing => None
      case StoredTip => Some(storedTip.value.hotBid)
      case CachedTip => Some(cachedHeap.Get(0))
    }

    /** The merged tip is best-priced among everything that rests on this side. */
    lemma FrontIsBest()
      requires Valid() && iter.Some?
      ensures FrontBid().None? <==> Resting() == multiset{}
      ensures FrontBid().Some? ==> FrontBid().value in Resting() && FrontBid().value.bidType == bidType
      ensures FrontBid().Some? ==>
        forall x :: x in Resting() ==> !BetterPriced(x, FrontBid().value) && x.bidType == bidType
    {
      hide HotterThan, BetterPriced, PriceSorted, Heap, Stored;
      ListedAmount(zone.entities, bidType, Left());
      if storedTip.Some? {
        StoredMember(zone.entities, bidType, storedTip.value.hotBid);
      }
      if FrontBid().Some? {
        forall x | x in Resting() ensures !BetterPriced(x, FrontBid().value) && x.bidType == bidType {
          FrontBeats(x);
        }
      }
    }

    /** Among equal prices the earlier expiry decides: neither the stored tip nor any cached bid
        is hotter than the merged tip. */
    lemma FrontIsHottest()
      requires Valid() && iter.Some? && FrontBid().Some?
      ensures storedTip.Some? ==> !HotterThan(storedTip.value.hotBid, FrontBid().value)
      ensures forall x :: x in cachedHeap.items ==> !HotterThan(x, FrontBid().value)
    {
      hide HotterThan, BetterPriced, PriceSorted, Heap, Stored;
      if storedTip.Some? {
        assert storedTip.value.key in Left();
        BelowTotal(storedTip.value.hotBid, storedTip.value.hotBid);
      }
      forall x | x in cachedHeap.items ensures !HotterThan(x, FrontBid().value) {
        var i :| 0 <= i < |cachedHeap.items| && cachedHeap.items[i] == x;
        FirstIsHottest(cachedHeap.items, bidType, i);
        if WithTip() == StoredTip {
          BelowTotal(storedTip.value.hotBid, cachedHeap.items[0]);
          BelowTransitive(x, cachedHeap.items[0], storedTip.value.hotBid);
        }
      }
    }

    lemma FrontBeats(x: HotBid)
      requires Valid() && iter.Some? && x in Resting() && FrontBid().Some?
      ensures !BetterPriced(x, FrontBid().value) && x.bidType == bidType
    {
      hide HotterThan, BetterPriced, PriceSorted, Heap, Stored, Amass;
      if x in multiset(cachedHeap.items) {
        var i :| 0 <= i < |cachedHeap.items| && cachedHeap.items[i] == x;
        FirstIsHottest(cachedHeap.items, bidType, i);
        BelowIsNotBetter(x, cachedHeap.items[0]);
        if WithTip() == StoredTip { HotterBeats(x, cachedHeap.items[0], storedTip.value.hotBid); }
      } else {
        var left := Left();
        ListedAmount(zone.entities, bidType, left);
        var i := AmassMember(zone.entities, left, x);
        assert left[i] in left;
        FirstIsBest(zone.entities, bidType, left, i);
        if WithTip() == CachedTip {
          BelowIsNotBetter(storedTip.value.hotBid, cachedHeap.items[0]);
          NotBetterTransitive(x, storedTip.value.hotBid, cachedHeap.items[0]);
        }
      }
    }

    /** The current tip of the queue. */
    method Tip() returns (e: Option<Error>, tip: Option<HotBid>)
      requires Valid()
      modifies this
      ensures e == None || e == Some(Unavailable)
      ensures zone.reliable ==> e == None
      ensures e.None? ==> Valid() && iter.Some? && Resting() == old(Resting()) && tip == FrontBid()
    {
      e := Init();
      if e.Some? { return e, None; }
      return None, FrontBid();
    }

    /** Removes the tip, replacing it by the next. */
    method Pop() returns (e: Option<Error>)
      requires Valid() && iter.Some? && FrontBid().Some?
      modifies this, zone`entities, cachedHeap
      ensures e == None || e == Some(Unavailable)
      ensures zone.reliable ==> e == None
      ensures e.None? ==>
        && Valid() && iter.Some?
        && Resting() == old(Resting()) - multiset{old(FrontBid()).value}
        && Popped(old(zone.entities), zone.entities, bidType)
        && multiset(cachedHeap.items) <= old(multiset(cachedHeap.items))
    {
      hide HotterThan, Listed, Restricted, Heap, OneSided, Stored;
      match WithTip()
      case Nothing => return None;
      case StoredTip =>
        e := PopStoredTip();
      case CachedTip =>
        NothingPopped(zone.entities, bidType);
        var popped := cachedHeap.Pop();
        TakeFromSum(Stored(zone.entities, bidType), old(multiset(cachedHeap.items)), popped);
        return None;
    }

    /** Deletes the stored tip and fetches the next. */
    method PopStoredTip() returns (e: Option<Error>)
      requires Valid() && storedTip.Some?
      modifies this, zone`entities
      ensures e == None || e == Some(Unavailable)
      ensures zone.reliable ==> e == None
      ensures e.None? ==>
        && Valid() && iter.Some?
        && Resting() == old(Resting()) - multiset{old(storedTip).value.hotBid}
        && Popped(old(zone.entities), zone.entities, bidType)
    {
      hide HotterThan, Listed, Heap, OneSided, Stored, Popped;
      var key := storedTip.value.key;
      PopStored(zone.entities, zone.snapshot, bidType, Left());
      TakeFromSum(multiset(cachedHeap.items), Stored(zone.entities, bidType), storedTip.value.hotBid);
      assert Left()[1..] == iter.value;
      e := zone.Delete(key);
      if e.None? {
        e := FetchNext();
      }
    }

    /** Adds a bid that exists in memory only. */
    method Insert(bid: HotBid) returns (e: Option<Error>)
      requires Valid() && bid.bidType == bidType
      modifies this, cachedHeap
      ensures e == None || e == Some(Unavailable)
      ensures zone.reliable ==> e == None
      ensures e.None? ==> Valid() && iter.Some? && Resting() == old(Resting()) + multiset{bid}
      ensures e.None? ==> multiset(cachedHeap.items) == old(multiset(cachedHeap.items)) + multiset{bid}
    {
      hide PriceSorted, QueryResult, Heap, OneSided, Stored;
      e := Init();
      if e.Some? { return; }
      cachedHeap.Push(bid);
      return None;
    }

    /** Writes the cached bids to the datastore. */
    method Persist() returns (e: Option<Error>, ghost added: Entities)
      requires zone.Valid() && cachedHeap.Valid() && cachedHeap.side == bidType
      requires iter.None? ==> cachedHeap.items == []
      modifies zone`entities, zone`nextId
      ensures e == None || e == Some(Unavailable)
      ensures zone.reliable ==> e == None
      ensures e.None? ==>
        && zone.Valid() && zone.entities == old(zone.entities) + added
        && (forall k :: k in added ==> old(zone.nextId) <= k && k !in old(zone.entities) && k !in zone.snapshot)
        && Stored(added, bidType) == multiset(cachedHeap.items)
        && Stored(added, Opposite(bidType)) == multiset{}
    {
      hide Stored, Heap;
      added := map[];
      NothingStored();
      if iter.None? { return None, added; }
      var items := cachedHeap.items;
      var i := 0;
      while i < |items|
        invariant 0 <= i <= |items|
        invariant zone.Valid() && old(zone.nextId) <= zone.nextId
        invariant zone.entities == old(zone.entities) + added
        invariant forall k :: k in added ==> old(zone.nextId) <= k < zone.nextId && k !in old(zone.entities) && k !in zone.snapshot
        invariant Stored(added, bidType) == multiset(items[..i])
        invariant Stored(added, Opposite(bidType)) == multiset{}
      {
        var id := zone.nextId;
        e := zone.Put(items[i]);
        if e.Some? { return; }
        AddOne(added, id, items[i], bidType);
        AddOne(added, id, items[i], Opposite(bidType));
        assert items[..i + 1] == items[..i] + [items[i]];
        added := added[id := items[i]];
        i := i + 1;
      }
      assert items[..i] == items;
      return None, added;
    }

    /** Empties the cache, listing the keys of its bids, hottest first. */
    method Flush() returns (keys: seq<string>, ghost bids: seq<HotBid>)
      requires cachedHeap.Valid()
      modifies cachedHeap
      ensures |keys| == |bids| && forall i :: 0 <= i < |bids| ==> keys[i] == bids[i].bidKey
      ensures multiset(bids) == multiset(old(cachedHeap.items))
      ensures forall i, j :: 0 <= i < j < |bids| ==> Below(bids[j], bids[i])
      ensures cachedHeap.items == []
    {
      hide HotterThan, Below, Heap;
      keys, bids := [], [];
      while cachedHeap.Len() > 0
        invariant cachedHeap.Valid()
        invariant |keys| == |bids| && forall i :: 0 <= i < |bids| ==> keys[i] == bids[i].bidKey
        invariant multiset(bids) + multiset(cachedHeap.items) == multiset(old(cachedHeap.items))
        invariant forall i, j :: 0 <= i < j < |bids| ==> Below(bids[j], bids[i])
        invariant forall i, j :: 0 <= i < |bids| && 0 <= j < |cachedHeap.items| ==> Below(cachedHeap.items[j], bids[i])
        decreases |multiset(cachedHeap.items)|
      {
        ghost var before := cachedHeap.items;
        keys := keys + [cachedHeap.Get(0).bidKey];
        var hottest := cachedHeap.Pop();
        HottestOfAll(before, cachedHeap.items, cachedHeap.side);
        bids := bids + [hottest];
      }
    }
  }

  lemma HottestOfAll(before: seq<HotBid>, after: seq<HotBid>, t: BidType)
    requires before != [] && Heap(before) && OneSided(before, t)
    requires multiset(after) == multiset(before) - multiset{before[0]}
    ensures forall j :: 0 <= j < |after| ==> after[j] in before && Below(after[j], before[0])
  {
    hide HotterThan, Below, Heap;
    forall j | 0 <= j < |after| ensures after[j] in before && Below(after[j], before[0]) {
      assert after[j] in multiset(after);
      var i :| 0 <= i < |before| && before[i] == after[j];
      FirstIsHottest(before, t, i);
    }
  }

  lemma NothingStored()
    ensures Stored(map[], Buy) == multiset{} && Stored(map[], Sell) == multiset{}
  {
  }

  lemma AddOne(added: Entities, id: nat, b: HotBid, t: BidType)
    requires id !in added
    ensures Stored(added[id := b], t) == Stored(added, t) + Portion(b, t)
  {
    assert added[id := b] - {id} == added;
    StoredRemove(added[id := b], t, id);
  }

  /** Only entities of side `t` have gone. */
  ghost predicate Popped(before: Entities, after: Entities, t: BidType) {
    && Restricted(after, before)
    && (forall u, keys :: u != t && QueryResult(before, u, keys) ==> QueryResult(after, u, keys))
    && (forall u :: u != t ==> Stored(after, u) == Stored(before, u))
  }

  lemma NothingPopped(m: Entities, t: BidType)
    ensures Popped(m, m, t)
  {
  }

  lemma TakeFromSum<T>(a: multiset<T>, b: multiset<T>, x: T)
    requires x in b
    ensures a + (b - multiset{x}) == a + b - multiset{x}
    ensures (b - multiset{x}) + a == b + a - multiset{x}
  {
  }

  lemma PopStored(m: Entities, s: Entities, t: BidType, left: seq<nat>)
    requires Listed(m, s, t, left) && left != []
    ensures left[0] in left && left[0] in m
    ensures Listed(m - {left[0]}, s, t, left[1..])
    ensures Stored(m - {left[0]}, t) == Stored(m, t) - multiset{m[left[0]]}
    ensures m[left[0]] in Stored(m, t)
    ensures Popped(m, m - {left[0]}, t)
  {
    hide PriceSorted, Stored;
    var k := left[0];
    assert k in left;
    AfterFirst(m, t, left);
    StoredRemove(m, t, k);
    forall u, keys | u != t && QueryResult(m, u, keys) ensures QueryResult(m - {k}, u, keys) {
      OtherSide(m, u, keys, k);
    }
    forall u | u != t ensures Stored(m - {k}, u) == Stored(m, u) {
      StoredRemove(m, u, k);
    }
  }

  lemma BelowIsNotBetter(x: HotBid, y: HotBid)
    requires x.bidType == y.bidType && Below(x, y)
    ensures !BetterPriced(x, y)
  {
  }

  lemma HotterBeats(x: HotBid, y: HotBid, z: HotBid)
    requires x.bidType == y.bidType == z.bidType && Below(x, y) && HotterThan(z, y)
    ensures !BetterPriced(x, z)
  {
  }

  lemma NotBetterTransitive(x: HotBid, y: HotBid, z: HotBid)
    requires x.bidType == y.bidType == z.bidType && !BetterPriced(x, y) && !BetterPriced(y, z)
    ensures !BetterPriced(x, z)
  {
  }

  lemma FirstIsBest(m: Entities, t: BidType, keys: seq<nat>, i: nat)
    requires QueryResult(m, t, keys) && i < |keys| && keys[i] in m && keys[0] in keys
    ensures !BetterPriced(m[keys[i]], m[keys[0]])
  {
  }
}
