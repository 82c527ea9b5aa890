/** What the delivery of queued work achieves when nothing is unavailable: every pair whose bids
    are available when its turn comes gets its transaction. */
module QueueProofs {
  import opened Prelude
  import opened Amounts
  import opened Ledger
  import opened LedgerProofs
  import opened Bids
  import opened Transactions
  import opened TransactionProofs
  import opened Market
  import opened MarketInvariant
  import opened MarketSteps
  import opened MarketProgress
  import opened MarketTheorems
  import opened ServerQueue

  lemma NextReachable(crypto: Crypto, s: State, step: Step, s': State)
    requires Reachable(crypto, s) && Possible(s, step) && Attempt(crypto, s, step) == Ok(s')
    ensures Reachable(crypto, s')
  {
    hide Possible, Attempt;
    var states, steps :| Run(crypto, states, steps) && states[|steps|] == s;
    assert Run(crypto, states + [s'], steps + [step]);
  }

  /** What does not change while bids are placed. */
  lemma {:induction false} PlacingEffects(crypto: Crypto, s: State, placed: seq<string>)
    requires Reachable(crypto, s)
    ensures var s' := PlaceEach(s, placed);
      && Reachable(crypto, s') && s'.books == s.books && s'.txs == s.txs && s'.tasks == s.tasks && Forward(s, s')
    decreases placed
  {
    hide Reachable, PlaceBid, Forward;
    if placed == [] {
      ForwardReflexive(s);
    } else {
      PlaceBidForward(s, placed[0]);
      if PlaceBid(s, placed[0]).Ok? {
        var s1 := PlaceBid(s, placed[0]).value;
        PlaceUsesNoKeys(s, placed[0]);
        NextReachable(crypto, s, DoPlace(placed[0]), s1);
        PlacingEffects(crypto, s1, placed[1..]);
        ForwardTransitive(s, s1, PlaceEach(s1, placed[1..]));
      } else {
        PlacingEffects(crypto, s, placed[1..]);
      }
    }
  }

  /** A match moves no money in or out. */
  lemma MatchKeepsDeposits(s: State, time: int, newKey: string, oldKey: string, t: string, moveKey: string)
    requires MatchBids(s, time, newKey, oldKey, t, moveKey).Ok? && moveKey !in s.books.movements
    ensures DepositsFit(s) ==> DepositsFit(MatchBids(s, time, newKey, oldKey, t, moveKey).value)
  {
    hide Place, NewTransaction;
    var (tx, n, o) := NewTransaction(time, newKey, oldKey, s.bids[newKey], AsPlaced(s.bids[oldKey])).value;
    BookingKeepsDeposits(s.books, tx, t, if n.bidType == Buy then n else o, moveKey);
  }

  lemma BookingKeepsDeposits(books: Books, tx: Tx, t: string, b: Bid, moveKey: string)
    requires BookTx(books, tx, t, b, moveKey).Ok? && moveKey !in books.movements
    ensures forall c :: NetDeposits(BookTx(books, tx, t, b, moveKey).value, c) == NetDeposits(books, c)
  {
    hide Sound, ApplySide;
    var books' := BookTx(books, tx, t, b, moveKey).value;
    forall c ensures NetDeposits(books', c) == NetDeposits(books, c) {
      if books' != books {
        var m := books'.movements[moveKey];
        assert books'.movements == books.movements[moveKey := m];
        WorldGrows(books.movements, moveKey, m, c);
      }
    }
  }

  lemma MatchKeepsTasks(s: State, time: int, newKey: string, oldKey: string, t: string, moveKey: string)
    requires MatchBids(s, time, newKey, oldKey, t, moveKey).Ok?
    ensures s.tasks <= MatchBids(s, time, newKey, oldKey, t, moveKey).value.tasks
    ensures MatchBids(s, time, newKey, oldKey, t, moveKey).value.txs.Keys == s.txs.Keys + {t}
    ensures MatchBids(s, time, newKey, oldKey, t, moveKey).value.books.movements.Keys <= s.books.movements.Keys + {moveKey}
  {
    hide BookTx, NewTransaction;
    var r := NewTransaction(time, newKey, oldKey, s.bids[newKey], AsPlaced(s.bids[oldKey])).value;
    BookingUsesItsKey(s.books, r.0, t, if r.1.bidType == Buy then r.1 else r.2, moveKey);
  }

  /** What one match, successful or not, leaves in place. */
  lemma OneMatch(crypto: Crypto, s: State, time: int, pair: (string, string), unused: seq<(string, string)>)
    requires Reachable(crypto, s) && DepositsFit(s) && unused != [] && UnusedKeys(unused, s)
    ensures var s' := MatchOne(s, time, pair, unused[0]);
      && Reachable(crypto, s') && DepositsFit(s') && UnusedKeys(unused[1..], s')
      && s.tasks <= s'.tasks && Forward(s, s')
      && s'.txs.Keys <= s.txs.Keys + {unused[0].0}
  {
    hide Reachable, DepositsFit, MatchBids, Forward, UnusedKeys;
    FirstUnused(unused, s);
    var (t, moveKey) := unused[0];
    if MatchBids(s, time, pair.0, pair.1, t, moveKey).Ok? {
      MatchKeepsDeposits(s, time, pair.0, pair.1, t, moveKey);
      MatchKeepsTasks(s, time, pair.0, pair.1, t, moveKey);
      MatchForward(s, time, pair.0, pair.1, t, moveKey);
      NextReachable(crypto, s, DoMatch(time, pair.0, pair.1, t, moveKey), MatchOne(s, time, pair, unused[0]));
    } else {
      ForwardReflexive(s);
    }
    StillUnused(unused, s, MatchOne(s, time, pair, unused[0]));
  }

  ghost predicate NamesTx(unused: seq<(string, string)>, t: string) {
    exists i :: 0 <= i < |unused| && unused[i].0 == t
  }

  /** What any number of matches leaves in place. */
  lemma {:induction false} Matches(crypto: Crypto, s: State, time: int, pairs: seq<(string, string)>,
                                   unused: seq<(string, string)>)
    requires Reachable(crypto, s) && DepositsFit(s) && |unused| == |pairs| && UnusedKeys(unused, s)
    ensures var s' := MatchEach(s, time, pairs, unused);
      && Reachable(crypto, s') && DepositsFit(s') && s.tasks <= s'.tasks && Forward(s, s')
      && (forall t :: t in s'.txs ==> t in s.txs || NamesTx(unused, t))
    decreases pairs
  {
    hide Reachable, DepositsFit, MatchOne, Forward, UnusedKeys;
    if pairs == [] {
      ForwardReflexive(s);
    } else {
      var s1 := MatchOne(s, time, pairs[0], unused[0]);
      OneMatch(crypto, s, time, pairs[0], unused);
      Matches(crypto, s1, time, pairs[1..], unused[1..]);
      var s' := MatchEach(s1, time, pairs[1..], unused[1..]);
      ForwardTransitive(s, s1, s');
      forall t | t in s'.txs ensures t in s.txs || NamesTx(unused, t) {
        NamedLater(unused, t);
      }
    }
  }

  lemma NamedLater(unused: seq<(string, string)>, t: string)
    requires unused != []
    ensures NamesTx(unused[1..], t) || t == unused[0].0 ==> NamesTx(unused, t)
  {
    if NamesTx(unused[1..], t) {
      var i :| 0 <= i < |unused[1..]| && unused[1..][i].0 == t;
      assert unused[i + 1].0 == t;
    }
  }

  /** The matches of a list are those of its beginning and then those of the rest. */
  lemma {:induction false} MatchEachSplit(s: State, time: int, pairs: seq<(string, string)>,
                                          unused: seq<(string, string)>, i: nat)
    requires |unused| == |pairs| && i <= |pairs|
    ensures MatchEach(s, time, pairs, unused) ==
            MatchEach(MatchEach(s, time, pairs[..i], unused[..i]), time, pairs[i..], unused[i..])
    decreases pairs
  {
    hide MatchOne;
    if i == 0 {
      assert pairs[0..] == pairs && unused[0..] == unused;
    } else {
      var s1 := MatchOne(s, time, pairs[0], unused[0]);
      MatchEachSplit(s1, time, pairs[1..], unused[1..], i - 1);
      assert pairs[..i][1..] == pairs[1..][..i - 1] && unused[..i][1..] == unused[1..][..i - 1];
      assert pairs[1..][i - 1..] == pairs[i..] && unused[1..][i - 1..] == unused[i..];
    }
  }

  lemma {:induction false} LaterUnused(crypto: Crypto, s: State, time: int, pairs: seq<(string, string)>,
                                       unused: seq<(string, string)>, i: nat)
    requires Reachable(crypto, s) && DepositsFit(s) && |unused| == |pairs| && UnusedKeys(unused, s) && i <= |pairs|
    ensures UnusedKeys(unused[i..], MatchEach(s, time, pairs[..i], unused[..i]))
    decreases pairs
  {
    hide Reachable, DepositsFit, MatchOne, UnusedKeys;
    if i == 0 {
      assert unused[0..] == unused;
    } else {
      OneMatch(crypto, s, time, pairs[0], unused);
      LaterUnused(crypto, MatchOne(s, time, pairs[0], unused[0]), time, pairs[1..], unused[1..], i - 1);
      assert pairs[..i][1..] == pairs[1..][..i - 1] && unused[..i][1..] == unused[1..][..i - 1];
      assert unused[1..][i - 1..] == unused[i..];
    }
  }

  /** The state in which the i-th pair of a task has its turn. */
  function AtItsTurn(s: State, task: Task, unused: seq<(string, string)>, i: nat): State
    requires task.ApplyTask? && |unused| == |task.matched| && i <= |unused|
  {
    MatchEach(PlaceEach(s, task.placed), task.time, task.matched[..i], unused[..i])
  }

  /** A transaction of exactly these two bids. */
  predicate Joined(s: State, t: string, newKey: string, oldKey: string) {
    && t in s.txs && {s.txs[t].buyerBid, s.txs[t].sellerBid} == {newKey, oldKey}
    && newKey in s.bids && oldKey in s.bids
    && s.bids[newKey].transaction == Some(t) && s.bids[oldKey].transaction == Some(t)
    && s.bids[newKey].state == Matched && s.bids[oldKey].state == Matched
  }

  lemma MatchResult(s: State, time: int, newKey: string, oldKey: string, t: string, moveKey: string)
    requires MatchBids(s, time, newKey, oldKey, t, moveKey).Ok?
    ensures Joined(MatchBids(s, time, newKey, oldKey, t, moveKey).value, t, newKey, oldKey)
  {
    hide BookTx;
  }

  lemma JoinedStays(s: State, s': State, t: string, newKey: string, oldKey: string)
    requires Joined(s, t, newKey, oldKey) && Forward(s, s')
    ensures Joined(s', t, newKey, oldKey)
  {
    assert SameDeal(s.txs[t], s'.txs[t]);
    assert BidForward(s.bids[newKey], s'.bids[newKey]) && BidForward(s.bids[oldKey], s'.bids[oldKey]);
  }

  lemma NotNamedAgain(unused: seq<(string, string)>, i: nat, s: State)
    requires i < |unused| && UnusedKeys(unused[i..], s)
    ensures !NamesTx(unused[i + 1..], unused[i].0)
  {
    var rest := unused[i + 1..];
    forall j | 0 <= j < |rest| ensures rest[j].0 != unused[i].0 {
      assert rest[j] == unused[i..][j + 1] && unused[i] == unused[i..][0];
    }
  }

  /** Acknowledging an apply task changes nothing but the queue. */
  lemma DeliveredIs(s: State, task: Task, now: int, moveKey: string, unused: seq<(string, string)>)
    requires task.ApplyTask? && |unused| == |task.matched|
    ensures var final := AtItsTurn(s, task, unused, |unused|);
      Delivered(s, task, now, moveKey, unused) == final.(tasks := final.tasks - multiset{task})
  {
    hide PlaceEach, MatchEach;
    assert task.matched[..|unused|] == task.matched && unused[..|unused|] == unused;
  }

  /** After the delivery of an apply task, a pair has its transaction exactly if both its bids
      were available and unexpired when its turn came. */
  lemma AppliedPairs(crypto: Crypto, s: State, task: Task, now: int, moveKey: string,
                     unused: seq<(string, string)>, i: nat)
    requires Reachable(crypto, s) && DepositsFit(s) && task in s.tasks && task.ApplyTask?
    requires |unused| == |task.matched| && UnusedKeys(unused, s) && i < |unused|
    ensures var turn, done := AtItsTurn(s, task, unused, i), Delivered(s, task, now, moveKey, unused);
      var (newKey, oldKey) := task.matched[i];
      && newKey in turn.bids && oldKey in turn.bids
      && (BothAvailable(turn.bids[newKey], turn.bids[oldKey], task.time) ==> Joined(done, unused[i].0, newKey, oldKey))
      && (!BothAvailable(turn.bids[newKey], turn.bids[oldKey], task.time) ==> unused[i].0 !in done.txs)
  {
    hide Reachable, DepositsFit, MatchOne, MatchBids, UnusedKeys, PlaceEach, MatchEach, Forward, NamesTx, Delivered;
    var start := PlaceEach(s, task.placed);
    var turn, final := AtItsTurn(s, task, unused, i), AtItsTurn(s, task, unused, |unused|);
    var (newKey, oldKey) := task.matched[i];
    DeliveredIs(s, task, now, moveKey, unused);
    PlacingEffects(crypto, s, task.placed);
    PlacingKeepsFit(s, task.placed, crypto);
    SameKeysUnused(unused, s, start);
    assert task.matched[..|unused|] == task.matched && unused[..|unused|] == unused;
    UnusedPrefix(unused, start, i);
    Matches(crypto, start, task.time, task.matched[..i], unused[..i]);
    LaterUnused(crypto, start, task.time, task.matched, unused, i);
    assert task.matched[i] in task.matched;
    HandedOverPairsMatch(crypto, turn, task, newKey, oldKey, unused[i].0, unused[i].1);
    TurnTaken(crypto, start, turn, final, task.time, task.matched, unused, i);
  }

  predicate InPair(k: string, pair: (string, string)) {
    k == pair.0 || k == pair.1
  }

  /** Matching touches no bid but the two of its pair, and placing only those it places. */
  lemma OthersUntouched(s: State, time: int, pair: (string, string), keys: (string, string), k: string)
    requires k in s.bids && !InPair(k, pair)
    ensures var s' := MatchOne(s, time, pair, keys); k in s'.bids && s'.bids[k] == s.bids[k]
  {
    hide BookTx, NewTransaction;
  }

  lemma {:induction false} UntouchedUntil(s: State, time: int, pairs: seq<(string, string)>,
                                          unused: seq<(string, string)>, k: string)
    requires |unused| == |pairs| && k in s.bids && forall pair :: pair in pairs ==> !InPair(k, pair)
    ensures var s' := MatchEach(s, time, pairs, unused); k in s'.bids && s'.bids[k] == s.bids[k]
    decreases pairs
  {
    hide MatchOne;
    if pairs != [] {
      OthersUntouched(s, time, pairs[0], unused[0], k);
      UntouchedUntil(MatchOne(s, time, pairs[0], unused[0]), time, pairs[1..], unused[1..], k);
    }
  }

  /** Placing leaves an open bid open, and leaves alone a bid that is not to be placed. */
  lemma {:induction false} PlacedOrNot(s: State, placed: seq<string>, k: string)
    requires k in s.bids
    ensures var b := PlaceEach(s, placed).bids;
      k in b && (k !in placed ==> b[k] == s.bids[k]) && (IsOpen(s.bids[k]) ==> IsOpen(b[k]))
    decreases placed
  {
    if placed != [] {
      PlacedOrNot(match PlaceBid(s, placed[0]) case Ok(s') => s' case Err(_) => s, placed[1..], k);
    }
  }

  /** After the placing every listed bid that exists is out of the queue. */
  lemma {:induction false} AllPlaced(s: State, placed: seq<string>, k: string)
    requires k in s.bids && k in placed
    ensures var b := PlaceEach(s, placed).bids; k in b && b[k].state != InQueue
    decreases placed
  {
    var s1 := match PlaceBid(s, placed[0]) case Ok(s') => s' case Err(_) => s;
    if placed[0] == k {
      OutOfQueue(s1, placed[1..], k);
    } else {
      AllPlaced(s1, placed[1..], k);
    }
  }

  lemma {:induction false} OutOfQueue(s: State, placed: seq<string>, k: string)
    requires k in s.bids && s.bids[k].state != InQueue
    ensures var b := PlaceEach(s, placed).bids; k in b && b[k].state != InQueue
    decreases placed
  {
    if placed != [] {
      OutOfQueue(match PlaceBid(s, placed[0]) case Ok(s') => s' case Err(_) => s, placed[1..], k);
    }
  }

  /** After the delivery of an apply task no bid it lists is still in the queue. */
  lemma AppliedPlacings(crypto: Crypto, s: State, task: Task, now: int, moveKey: string,
                        unused: seq<(string, string)>, k: string)
    requires Reachable(crypto, s) && DepositsFit(s) && task in s.tasks && task.ApplyTask?
    requires |unused| == |task.matched| && UnusedKeys(unused, s) && k in task.placed && k in s.bids
    ensures var done := Delivered(s, task, now, moveKey, unused); k in done.bids && done.bids[k].state != InQueue
  {
    hide Reachable, DepositsFit, UnusedKeys, PlaceEach, MatchEach, Delivered;
    var start := PlaceEach(s, task.placed);
    AllPlaced(s, task.placed, k);
    PlacingEffects(crypto, s, task.placed);
    PlacingKeepsFit(s, task.placed, crypto);
    SameKeysUnused(unused, s, start);
    assert task.matched[..|unused|] == task.matched && unused[..|unused|] == unused;
    Matches(crypto, start, task.time, task.matched, unused);
    DeliveredIs(s, task, now, moveKey, unused);
    OutStays(start, MatchEach(start, task.time, task.matched, unused), k);
  }

  lemma OutStays(s: State, s': State, k: string)
    requires Forward(s, s') && k in s.bids && s.bids[k].state != InQueue
    ensures k in s'.bids && s'.bids[k].state != InQueue
  {
    assert BidForward(s.bids[k], s'.bids[k]);
  }

  /** A pair whose bids are open, the newer one unexpired and neither placed by the same task nor
      in an earlier pair of it, has its transaction after the delivery. */
  lemma AvailablePairs(crypto: Crypto, s: State, task: Task, now: int, moveKey: string,
                       unused: seq<(string, string)>, i: nat)
    requires Reachable(crypto, s) && DepositsFit(s) && task in s.tasks && task.ApplyTask?
    requires |unused| == |task.matched| && UnusedKeys(unused, s) && i < |unused|
    requires var (newKey, oldKey) := task.matched[i];
      && newKey in s.bids && s.bids[newKey].state == InQueue && s.bids[newKey].expires > task.time
      && oldKey in s.bids && IsOpen(s.bids[oldKey]) && newKey !in task.placed
      && forall j :: 0 <= j < i ==> !InPair(newKey, task.matched[j]) && !InPair(oldKey, task.matched[j])
    ensures Joined(Delivered(s, task, now, moveKey, unused), unused[i].0, task.matched[i].0, task.matched[i].1)
  {
    hide Reachable, DepositsFit, UnusedKeys, PlaceEach, MatchEach, Joined, Delivered, InPair;
    var (newKey, oldKey) := task.matched[i];
    var start := PlaceEach(s, task.placed);
    PlacedOrNot(s, task.placed, newKey);
    PlacedOrNot(s, task.placed, oldKey);
    forall pair | pair in task.matched[..i] ensures !InPair(newKey, pair) && !InPair(oldKey, pair) {
      var j :| 0 <= j < i && task.matched[..i][j] == pair;
      assert task.matched[j] == pair;
    }
    UntouchedUntil(start, task.time, task.matched[..i], unused[..i], newKey);
    UntouchedUntil(start, task.time, task.matched[..i], unused[..i], oldKey);
    AppliedPairs(crypto, s, task, now, moveKey, unused, i);
  }

  lemma UnusedPrefix(unused: seq<(string, string)>, s: State, i: nat)
    requires UnusedKeys(unused, s) && i <= |unused|
    ensures UnusedKeys(unused[..i], s)
  {
  }

  lemma PlacingKeepsFit(s: State, placed: seq<string>, crypto: Crypto)
    requires DepositsFit(s) && PlaceEach(s, placed).books == s.books
    ensures DepositsFit(PlaceEach(s, placed))
  {
  }

  /** One turn, and what comes after it. */
  lemma TurnTaken(crypto: Crypto, start: State, turn: State, final: State, time: int, pairs: seq<(string, string)>,
                  unused: seq<(string, string)>, i: nat)
    requires |unused| == |pairs| && i < |pairs| && Reachable(crypto, turn) && DepositsFit(turn)
    requires turn == MatchEach(start, time, pairs[..i], unused[..i]) && final == MatchEach(start, time, pairs, unused)
    requires UnusedKeys(unused[i..], turn)
    ensures var r := MatchBids(turn, time, pairs[i].0, pairs[i].1, unused[i].0, unused[i].1);
      && (r.Ok? ==> Joined(final, unused[i].0, pairs[i].0, pairs[i].1))
      && (r.Err? ==> unused[i].0 !in final.txs)
  {
    hide Reachable, DepositsFit, MatchBids, UnusedKeys, MatchEach, Forward, Joined, NamesTx;
    var next := MatchOne(turn, time, pairs[i], unused[i]);
    MatchEachSplit(start, time, pairs, unused, i);
    OneMatch(crypto, turn, time, pairs[i], unused[i..]);
    assert unused[i..][0] == unused[i] && unused[i..][1..] == unused[i + 1..];
    RestOfMatches(turn, time, pairs, unused, i);
    Matches(crypto, next, time, pairs[i + 1..], unused[i + 1..]);
    FirstUnused(unused[i..], turn);
    NotNamedAgain(unused, i, turn);
    if MatchBids(turn, time, pairs[i].0, pairs[i].1, unused[i].0, unused[i].1).Ok? {
      MatchResult(turn, time, pairs[i].0, pairs[i].1, unused[i].0, unused[i].1);
      JoinedStays(next, final, unused[i].0, pairs[i].0, pairs[i].1);
    }
  }

  lemma RestOfMatches(turn: State, time: int, pairs: seq<(string, string)>, unused: seq<(string, string)>, i: nat)
    requires |unused| == |pairs| && i < |pairs|
    ensures MatchEach(turn, time, pairs[i..], unused[i..]) ==
            MatchEach(MatchOne(turn, time, pairs[i], unused[i]), time, pairs[i + 1..], unused[i + 1..])
  {
    hide MatchOne;
    assert pairs[i..][1..] == pairs[i + 1..] && unused[i..][1..] == unused[i + 1..];
  }
}
