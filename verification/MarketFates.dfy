/** What becomes of the hot bids over a whole run of the market. */
module MarketFates {
  import opened Bids
  import opened Transactions
  import opened OrderBook
  import opened Market
  import opened Matcher

  /** A batch of the given zone. */
  predicate BatchOf(step: Step, matchKey: string) {
    step.DoBatch? && step.batch.matchKey == matchKey
  }

  /** The bids that came into a zone over the steps of a run, however often. */
  ghost function CameIn(steps: seq<Step>, matchKey: string): multiset<HotBid> {
    if steps == [] then multiset{} else
    var last := steps[|steps| - 1];
    CameIn(steps[..|steps| - 1], matchKey) +
    if BatchOf(last, matchKey) then multiset(Incoming(last.batch.events)) else multiset{}
  }

  /** The bids on both sides of all its pairs. */
  ghost function Paired(steps: seq<Step>, matchKey: string): multiset<HotBid> {
    if steps == [] then multiset{} else
    var last := steps[|steps| - 1];
    Paired(steps[..|steps| - 1], matchKey) +
    if BatchOf(last, matchKey) then OrderBook.Matched(last.batch.events) else multiset{}
  }

  /** The bids dropped on the way or purged for having expired. */
  ghost function Removed(steps: seq<Step>, matchKey: string): multiset<HotBid> {
    if steps == [] then multiset{} else
    var last := steps[|steps| - 1];
    Removed(steps[..|steps| - 1], matchKey) +
    if BatchOf(last, matchKey) then Dropped(last.batch.events) + last.batch.purged.All() else multiset{}
  }

  lemma ZonesKept(crypto: Crypto, s: State, step: Step)
    requires !step.DoBatch?
    ensures After(crypto, s, step).zones == s.zones
  {
    hide PlaceDeposit, EnqueueBid, PlaceBid, MatchBids, UpdateTransaction, RetireBidStep, RetireTransaction, TaskDone, ParseBid;
    match step
    case DoDeposit(uid, d, moveKey) => DepositKeepsZones(s, uid, d, moveKey);
    case DoEnqueue(bidType, article, price, participant, now, bidKey, moveKey) =>
      if ParseBid(bidType, article, price, participant, now, SERVER_DEFAULTS).Ok? {
        EnqueueKeepsZones(s, ParseBid(bidType, article, price, participant, now, SERVER_DEFAULTS).value, bidKey, moveKey);
      }
    case DoPlace(key) => PlacingKeepsZones(s, key);
    case DoMatch(time, newKey, oldKey, t, moveKey) => MatchKeepsZones(s, time, newKey, oldKey, t, moveKey);
    case DoMessage(key, now, address, arguments) => MessageKeepsZones(crypto, s, key, now, address, arguments);
    case DoRetireBid(key, now, moveKey) => RetirementKeepsZones(s, key, now, moveKey);
    case DoRetireTx(key, now, moveKey) => RetirementKeepsZones(s, key, now, moveKey);
    case DoTask(task, now, moveKey) => TaskKeepsZones(s, task, now, moveKey);
  }

  lemma EnqueueKeepsZones(s: State, b: Bid, bidKey: string, moveKey: string)
    ensures EnqueueBid(s, b, bidKey, moveKey).Ok? ==> EnqueueBid(s, b, bidKey, moveKey).value.zones == s.zones
  {
    hide Reserve;
  }

  lemma PlacingKeepsZones(s: State, key: string)
    ensures PlaceBid(s, key).Ok? ==> PlaceBid(s, key).value.zones == s.zones
  {
  }

  lemma MatchKeepsZones(s: State, time: int, newKey: string, oldKey: string, t: string, moveKey: string)
    ensures MatchBids(s, time, newKey, oldKey, t, moveKey).Ok? ==>
              MatchBids(s, time, newKey, oldKey, t, moveKey).value.zones == s.zones
  {
    hide BookTx, NewTransaction;
  }

  lemma MessageKeepsZones(crypto: Crypto, s: State, key: string, now: int, address: string, arguments: Arguments)
    ensures UpdateTransaction(crypto, s, key, now, address, arguments).Ok? ==>
              UpdateTransaction(crypto, s, key, now, address, arguments).value.zones == s.zones
  {
    hide Deliver;
  }

  lemma RetirementKeepsZones(s: State, key: string, now: int, moveKey: string)
    ensures RetireBidStep(s, key, now, moveKey).Ok? ==> RetireBidStep(s, key, now, moveKey).value.zones == s.zones
    ensures RetireTransaction(s, key, now, moveKey).Ok? ==> RetireTransaction(s, key, now, moveKey).value.zones == s.zones
  {
    hide RetireBid, RetireTx;
  }

  lemma TaskKeepsZones(s: State, task: Task, now: int, moveKey: string)
    ensures TaskDone(s, task, now, moveKey).Ok? ==> TaskDone(s, task, now, moveKey).value.zones == s.zones
  {
    hide RetireBidStep, RetireTransaction;
    match task
    case ApplyTask(_, _, _) =>
    case RetireBidTask(key, _) => RetirementKeepsZones(s, key, now, moveKey);
    case RetireTxTask(key, _) => RetirementKeepsZones(s, key, now, moveKey);
  }

  lemma DepositKeepsZones(s: State, uid: string, d: Deposit, moveKey: string)
    ensures PlaceDeposit(s, uid, d, moveKey).Ok? ==> PlaceDeposit(s, uid, d, moveKey).value.zones == s.zones
  {
  }

  lemma ZoneFinished(s: State, b: Batch, matchKey: string)
    requires b.books != []
    ensures ZoneOf(FinishBatch(s, b), matchKey) == if b.matchKey == matchKey then ZoneAfter(b) else ZoneOf(s, matchKey)
  {
    hide ZoneAfter;
  }

  /** Over any run, every bid that came into a zone rests in it, was paired, or was removed as
      expired, in exactly one of these ways each time it came. */
  lemma {:induction false} EveryBidAccounted(crypto: Crypto, states: seq<State>, steps: seq<Step>, matchKey: string)
    requires Run(crypto, states, steps)
    ensures CameIn(steps, matchKey) ==
            ZoneOf(states[|steps|], matchKey).All() + Paired(steps, matchKey) + Removed(steps, matchKey)
  {
    hide After, Possible, Incoming, OrderBook.Matched, Dropped, Book.All;
    if steps == [] {
      NothingInitially(matchKey);
    } else {
      var n := |steps| - 1;
      EveryBidAccounted(crypto, states[..|steps|], steps[..n], matchKey);
      StepAccounts(crypto, states[n], steps[n], matchKey);
      if BatchOf(steps[n], matchKey) {
        var b := steps[n].batch;
        AddStep(CameIn(steps[..n], matchKey), multiset(Incoming(b.events)), ZoneOf(states[n], matchKey).All(),
                Paired(steps[..n], matchKey), Removed(steps[..n], matchKey), ZoneOf(states[n + 1], matchKey).All(),
                OrderBook.Matched(b.events), Dropped(b.events), b.purged.All());
      }
    }
  }

  lemma NothingInitially(matchKey: string)
    ensures ZoneOf(INITIAL, matchKey).All() == multiset{}
  {
  }

  lemma StepAccounts(crypto: Crypto, s: State, step: Step, matchKey: string)
    requires Possible(s, step)
    ensures !BatchOf(step, matchKey) ==> ZoneOf(After(crypto, s, step), matchKey) == ZoneOf(s, matchKey)
    ensures BatchOf(step, matchKey) ==>
      ZoneOf(s, matchKey).All() + multiset(Incoming(step.batch.events)) ==
      ZoneOf(After(crypto, s, step), matchKey).All() + step.batch.purged.All() +
      OrderBook.Matched(step.batch.events) + Dropped(step.batch.events)
  {
    hide BatchPossible, Incoming, OrderBook.Matched, Dropped, Book.All, FinishBatch, TaskDone;
    if step.DoBatch? {
      NotEmpty(s, step.batch);
      ZoneFinished(s, step.batch, matchKey);
      if step.batch.matchKey == matchKey { BatchConserves(s, step.batch); }
    } else {
      ZonesKept(crypto, s, step);
    }
  }

  lemma NotEmpty(s: State, b: Batch)
    requires BatchPossible(s, b)
    ensures b.books != []
  {
  }

  lemma AddStep<T>(came: multiset<T>, more: multiset<T>, zone: multiset<T>, paired: multiset<T>, removed: multiset<T>,
                   zone': multiset<T>, pairs: multiset<T>, dropped: multiset<T>, purged: multiset<T>)
    requires came == zone + paired + removed
    requires zone + more == zone' + purged + pairs + dropped
    ensures came + more == zone' + (paired + pairs) + (removed + (dropped + purged))
  {
    assert came + more == (zone + more) + paired + removed;
  }
}
