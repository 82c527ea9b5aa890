/** The handlers of the task queue. A task that is not acknowledged stays queued and is
    delivered again; one that is acknowledged is gone. */
module ServerQueue {
  import opened Prelude
  import opened Ledger
  import opened LedgerProofs
  import opened Bids
  import opened Transactions
  import opened Market
  import opened MarketInvariant
  import opened MarketRuns
  import opened MarketTheorems
  import opened Dao
  import opened Server

  /** `states` lists everything the store went through while `steps` were taken one by one. */
  ghost predicate Path(crypto: Crypto, states: seq<State>, steps: seq<Step>) {
    && |states| == |steps| + 1
    && forall i :: 0 <= i < |steps| ==>
         Possible(states[i], steps[i]) && states[i + 1] == After(crypto, states[i], steps[i])
  }

  /** The store went from one state to another by possible steps only. */
  ghost predicate Journey(crypto: Crypto, states: seq<State>, steps: seq<Step>, before: State, after: State) {
    Path(crypto, states, steps) && states[0] == before && states[|steps|] == after
  }

  lemma Stay(crypto: Crypto, s: State)
    ensures Journey(crypto, [s], [], s, s)
  {
  }

  lemma Continue(crypto: Crypto, states: seq<State>, steps: seq<Step>, before: State, s: State, step: Step, s': State)
    requires Journey(crypto, states, steps, before, s) && Possible(s, step) && Attempt(crypto, s, step) == Ok(s')
    requires Invariant(crypto, s)
    ensures Journey(crypto, states + [s'], steps + [step], before, s')
    ensures Invariant(crypto, s')
  {
    hide Possible, Attempt, Invariant;
    StepKeeps(crypto, s, step);
  }

  /** Keys nobody has used: one for the transaction and one for the movement of each pair. */
  ghost predicate UnusedKeys(unused: seq<(string, string)>, s: State) {
    && (forall i :: 0 <= i < |unused| ==> unused[i].0 !in s.txs && unused[i].1 !in s.books.movements)
    && (forall i, j :: 0 <= i < j < |unused| ==> unused[i].0 != unused[j].0 && unused[i].1 != unused[j].1)
  }

  lemma PlaceUsesNoKeys(s: State, key: string)
    requires PlaceBid(s, key).Ok?
    ensures PlaceBid(s, key).value.txs == s.txs && PlaceBid(s, key).value.books == s.books
    ensures PlaceBid(s, key).value.tasks == s.tasks
  {
  }

  lemma MatchUsesItsKeys(s: State, time: int, newKey: string, oldKey: string, txKey: string, moveKey: string)
    requires AccountsOk(s.books.accounts)
    requires MatchBids(s, time, newKey, oldKey, txKey, moveKey).Ok?
    ensures var s' := MatchBids(s, time, newKey, oldKey, txKey, moveKey).value;
            && s'.txs.Keys == s.txs.Keys + {txKey}
            && s'.books.movements.Keys <= s.books.movements.Keys + {moveKey}
            && s.tasks <= s'.tasks
  {
    hide Place, NewTransaction;
    var r := NewTransaction(time, newKey, oldKey, s.bids[newKey], AsPlaced(s.bids[oldKey])).value;
    BookingUsesItsKey(s.books, r.0, txKey, if r.1.bidType == Buy then r.1 else r.2, moveKey);
  }

  lemma BookingUsesItsKey(books: Books, tx: Tx, txKey: string, b: Bid, moveKey: string)
    requires BookTx(books, tx, txKey, b, moveKey).Ok?
    ensures BookTx(books, tx, txKey, b, moveKey).value.movements.Keys <= books.movements.Keys + {moveKey}
  {
    hide CanApply, Sound, Apply;
  }

  lemma StillUnused(unused: seq<(string, string)>, s: State, s': State)
    requires unused != [] && UnusedKeys(unused, s)
    requires s'.txs.Keys <= s.txs.Keys + {unused[0].0} && s'.books.movements.Keys <= s.books.movements.Keys + {unused[0].1}
    ensures UnusedKeys(unused[1..], s')
  {
    forall i | 0 <= i < |unused[1..]| ensures unused[1..][i].0 !in s'.txs && unused[1..][i].1 !in s'.books.movements {
      assert unused[1..][i] == unused[i + 1];
    }
  }

  lemma InvariantBooks(crypto: Crypto, s: State)
    requires Invariant(crypto, s)
    ensures AccountsOk(s.books.accounts)
  {
    hide BidsOk, TxsLinked, BidsLinked, Escrowed, CurrenciesAgree, TasksPending, TxsOk, HotOk, Explained, SettledOnce;
    BooksAccounts(s.books);
  }

  /** Placing every bid of a list in turn, skipping those that fail. */
  function PlaceEach(s: State, placed: seq<string>): State
    decreases placed
  {
    if placed == [] then s
    else PlaceEach(match PlaceBid(s, placed[0]) case Ok(s') => s' case Err(_) => s, placed[1..])
  }

  /** Matching every pair of a list in turn, skipping those that fail. */
  function MatchEach(s: State, time: int, pairs: seq<(string, string)>, unused: seq<(string, string)>): State
    requires |unused| == |pairs|
    decreases pairs
  {
    if pairs == [] then s
    else MatchEach(MatchOne(s, time, pairs[0], unused[0]), time, pairs[1..], unused[1..])
  }

  function MatchOne(s: State, time: int, pair: (string, string), keys: (string, string)): State {
    match MatchBids(s, time, pair.0, pair.1, keys.0, keys.1)
    case Ok(s') => s'
    case Err(_) => s
  }

  lemma PlaceEachNext(s: State, placed: seq<string>, i: nat)
    requires i < |placed|
    ensures PlaceEach(s, placed[i..]) ==
            PlaceEach(match PlaceBid(s, placed[i]) case Ok(s') => s' case Err(_) => s, placed[i + 1..])
  {
    hide PlaceBid;
    assert placed[i..][1..] == placed[i + 1..];
  }

  /** Places every bid of the first list. Failures are noted and skipped. */
  method PlaceAll(ghost crypto: Crypto, store: Datastore, placed: seq<string>)
    returns (ghost states: seq<State>, ghost steps: seq<Step>)
    requires Invariant(crypto, store.View())
    modifies store
    ensures Journey(crypto, states, steps, old(store.View()), store.View())
    ensures Invariant(crypto, store.View())
    ensures forall step :: step in steps ==> step.DoPlace? && step.key in placed
    ensures store.txs == old(store.txs) && store.movements == old(store.movements) && store.tasks == old(store.tasks)
    ensures store.reliable ==> store.View() == PlaceEach(old(store.View()), placed)
  {
    hide Invariant, PlaceBid, Journey, PlaceEach;
    states, steps := [store.View()], [];
    Stay(crypto, store.View());
    var i := 0;
    assert placed[0..] == placed;
    while i < |placed|
      invariant 0 <= i <= |placed|
      invariant Journey(crypto, states, steps, old(store.View()), store.View())
      invariant Invariant(crypto, store.View())
      invariant forall step :: step in steps ==> step.DoPlace? && step.key in placed
      invariant store.txs == old(store.txs) && store.movements == old(store.movements) && store.tasks == old(store.tasks)
      invariant store.reliable ==> PlaceEach(store.View(), placed[i..]) == PlaceEach(old(store.View()), placed)
    {
      ghost var s := store.View();
      PlaceEachNext(s, placed, i);
      var e := MarkPlaced(store, placed[i]);
      if e.None? {
        ghost var step := DoPlace(placed[i]);
        PlaceUsesNoKeys(s, placed[i]);
        Continue(crypto, states, steps, old(store.View()), s, step, store.View());
        states, steps := states + [store.View()], steps + [step];
      }
      i := i + 1;
    }
    NoneToPlace(store.View(), placed[i..]);
  }

  lemma NoneToPlace(s: State, placed: seq<string>)
    requires placed == []
    ensures PlaceEach(s, placed) == s
  {
  }

  /** Places bids, then makes transactions of pairs; a pair that fails does not affect the rest. */
  method HandleApplyChanges(ghost crypto: Crypto, store: Datastore, time: int, matched: seq<(string, string)>,
                            placed: seq<string>, unused: seq<(string, string)>)
    returns (ghost states: seq<State>, ghost steps: seq<Step>)
    requires Invariant(crypto, store.View())
    requires |unused| == |matched| && UnusedKeys(unused, store.View())
    modifies store
    ensures Journey(crypto, states, steps, old(store.View()), store.View())
    ensures Invariant(crypto, store.View())
    ensures forall step :: step in steps ==>
      || (step.DoPlace? && step.key in placed)
      || (step.DoMatch? && step.time == time && (step.newKey, step.oldKey) in matched)
    ensures old(store.tasks) <= store.tasks
    ensures forall k :: k in store.movements ==> k in old(store.movements) || Names(unused, k)
    ensures store.reliable ==> store.View() == MatchEach(PlaceEach(old(store.View()), placed), time, matched, unused)
  {
    hide Invariant, PlaceBid, MatchBids, UnusedKeys, Journey, Names, Suffix, PlaceEach;
    states, steps := PlaceAll(crypto, store, placed);
    WholeSuffix(unused);
    SameKeysUnused(unused, old(store.View()), store.View());
    ghost var start := store.View();
    var pairs, keys := matched, unused;
    while pairs != []
      invariant |keys| == |pairs| && UnusedKeys(keys, store.View())
      invariant forall pair :: pair in pairs ==> pair in matched
      invariant Journey(crypto, states, steps, old(store.View()), store.View())
      invariant Invariant(crypto, store.View())
      invariant forall step :: step in steps ==> ChangeOf(step, time, matched, placed)
      invariant old(store.tasks) <= store.tasks
      invariant Suffix(keys, unused)
      invariant forall k :: k in store.movements ==> k in old(store.movements) || Names(unused, k)
      invariant store.reliable ==> MatchEach(store.View(), time, pairs, keys) == MatchEach(start, time, matched, unused)
      decreases |pairs|
    {
      ghost var s := store.View();
      var (newKey, oldKey) := pairs[0];
      var (txKey, moveKey) := keys[0];
      FirstUnused(keys, s);
      FirstNamed(keys, unused);
      InvariantBooks(crypto, s);
      assert pairs[0] in pairs;
      var e := MatchStoredBids(store, time, newKey, oldKey, txKey, moveKey);
      if e.None? {
        ghost var step := DoMatch(time, newKey, oldKey, txKey, moveKey);
        MatchUsesItsKeys(s, time, newKey, oldKey, txKey, moveKey);
        Continue(crypto, states, steps, old(store.View()), s, step, store.View());
        states, steps := states + [store.View()], steps + [step];
      }
      StillUnused(keys, s, store.View());
      pairs, keys := pairs[1..], keys[1..];
    }
  }

  /** Whether `k` is among the movement keys set aside. */
  ghost predicate Names(unused: seq<(string, string)>, k: string) {
    exists i :: 0 <= i < |unused| && unused[i].1 == k
  }

  ghost predicate Suffix(keys: seq<(string, string)>, unused: seq<(string, string)>) {
    |keys| <= |unused| && keys == unused[|unused| - |keys|..]
  }

  lemma WholeSuffix(unused: seq<(string, string)>)
    ensures Suffix(unused, unused)
  {
  }

  lemma FirstNamed(keys: seq<(string, string)>, unused: seq<(string, string)>)
    requires keys != [] && Suffix(keys, unused)
    ensures Names(unused, keys[0].1) && Suffix(keys[1..], unused)
  {
    assert unused[|unused| - |keys|] == keys[0];
  }

  predicate ChangeOf(step: Step, time: int, matched: seq<(string, string)>, placed: seq<string>) {
    || (step.DoPlace? && step.key in placed)
    || (step.DoMatch? && step.time == time && (step.newKey, step.oldKey) in matched)
  }

  lemma FirstUnused(unused: seq<(string, string)>, s: State)
    requires unused != [] && UnusedKeys(unused, s)
    ensures unused[0].0 !in s.txs && unused[0].1 !in s.books.movements
  {
  }

  lemma SameKeysUnused(unused: seq<(string, string)>, s: State, s': State)
    requires UnusedKeys(unused, s) && s'.txs == s.txs && s'.books.movements == s.books.movements
    ensures UnusedKeys(unused, s')
  {
  }

  /** Whether the retirement is to be acknowledged; a transaction that is too young or already
      retired is no reason to try again. */
  method HandleRetireTransaction(store: Datastore, key: string, now: int, moveKey: string) returns (done: bool)
    requires AccountsOk(store.accounts)
    modifies store
    ensures done ==> HandledTask(old(store.View()), store.View(), RetireTxTask(key, 0), now, moveKey)
    ensures !done ==> store.View() == old(store.View())
    ensures store.reliable && !done ==> TaskDone(old(store.View()), RetireTxTask(key, 0), now, moveKey).Err?
  {
    hide RetireTransaction;
    var e := RetireStoredTransaction(store, key, now, moveKey);
    if e == Some(TooYoung) {
      return true;
    } else if e == Some(AlreadyRetired) {
      return true;
    }
    return e.None?;
  }

  method HandleRetireBid(store: Datastore, key: string, now: int, moveKey: string) returns (done: bool)
    requires AccountsOk(store.accounts)
    modifies store
    ensures done ==> HandledTask(old(store.View()), store.View(), RetireBidTask(key, 0), now, moveKey)
    ensures !done ==> store.View() == old(store.View())
    ensures store.reliable && !done ==> TaskDone(old(store.View()), RetireBidTask(key, 0), now, moveKey).Err?
  {
    hide RetireBidStep;
    var e := RetireStoredBid(store, key, now, moveKey);
    return e.None?;
  }

  /** What the delivery of a task makes of the market when nothing is unavailable. */
  function Delivered(s: State, task: Task, now: int, moveKey: string, unused: seq<(string, string)>): State
    requires task.ApplyTask? ==> |unused| == |task.matched|
  {
    var s' := if task.ApplyTask? then MatchEach(PlaceEach(s, task.placed), task.time, task.matched, unused) else s;
    match TaskDone(s', task, now, moveKey)
    case Ok(done) => done
    case Err(_) => s'
  }

  lemma WhenRefused(s: State, task: Task, now: int, moveKey: string)
    ensures task.RetireBidTask? ==>
      (TaskDone(s, RetireBidTask(task.bid, 0), now, moveKey).Err? <==> TaskDone(s, task, now, moveKey).Err?)
    ensures task.RetireTxTask? ==>
      (TaskDone(s, RetireTxTask(task.tx, 0), now, moveKey).Err? <==> TaskDone(s, task, now, moveKey).Err?)
  {
    hide RetireBidStep, RetireTransaction;
  }

  /** Delivers one queued task to its handler and removes it once acknowledged. Whatever
      happens, the market only takes possible steps. */
  method DeliverTask(ghost crypto: Crypto, store: Datastore, task: Task, now: int, moveKey: string,
                     unused: seq<(string, string)>)
    returns (ghost states: seq<State>, ghost steps: seq<Step>)
    requires Invariant(crypto, store.View())
    requires task in store.tasks && (!task.ApplyTask? ==> task.eta <= now)
    requires moveKey !in store.movements
    requires task.ApplyTask? ==> |unused| == |task.matched| && UnusedKeys(unused, store.View()) && !Names(unused, moveKey)
    modifies store
    ensures Journey(crypto, states, steps, old(store.View()), store.View())
    ensures Invariant(crypto, store.View())
    ensures task.ApplyTask? ==> steps != [] && steps[|steps| - 1] == DoTask(task, now, moveKey)
    ensures !task.ApplyTask? ==> steps == [] || steps == [DoTask(task, now, moveKey)]
    ensures store.reliable ==> store.View() == Delivered(old(store.View()), task, now, moveKey, unused)
  {
    hide Invariant, RetireBidStep, RetireTransaction, TaskDone, UnusedKeys, Names, Journey, HandledTask, AccountsOk, ChangeOf;
    states, steps := [store.View()], [];
    Stay(crypto, store.View());
    InvariantBooks(crypto, store.View());
    var done := true;
    ghost var s := store.View();
    match task {
      case ApplyTask(time, matched, placed) =>
        states, steps := HandleApplyChanges(crypto, store, time, matched, placed, unused);
        s := store.View();
      case RetireBidTask(key, _) =>
        done := HandleRetireBid(store, key, now, moveKey);
      case RetireTxTask(key, _) =>
        done := HandleRetireTransaction(store, key, now, moveKey);
    }
    WhenRefused(s, task, now, moveKey);
    if done {
      SameHandling(s, store.View(), task, now, moveKey);
      TaskDoneIs(s, store.View(), task, now, moveKey);
      store.tasks := store.tasks - multiset{task};
      ghost var step := DoTask(task, now, moveKey);
      Continue(crypto, states, steps, old(store.View()), s, step, store.View());
      states, steps := states + [store.View()], steps + [step];
    }
  }

  /** What a handled task has done to the store before it is removed from the queue. */
  ghost predicate HandledTask(s: State, s': State, task: Task, now: int, moveKey: string) {
    match task
    case ApplyTask(_, _, _) => s' == s
    case RetireBidTask(key, _) => RetireBidStep(s, key, now, moveKey) == Ok(s')
    case RetireTxTask(key, _) =>
      var r := RetireTransaction(s, key, now, moveKey);
      match r case Ok(after) => s' == after case Err(e) => s' == s && (e == TooYoung || e == AlreadyRetired)
  }

  /** When a task is due does not change what it does. */
  lemma SameHandling(s: State, s': State, task: Task, now: int, moveKey: string)
    ensures task.RetireBidTask? ==>
      (HandledTask(s, s', RetireBidTask(task.bid, 0), now, moveKey) <==> HandledTask(s, s', task, now, moveKey))
    ensures task.RetireTxTask? ==>
      (HandledTask(s, s', RetireTxTask(task.tx, 0), now, moveKey) <==> HandledTask(s, s', task, now, moveKey))
    ensures task.ApplyTask? && s' == s ==> HandledTask(s, s', task, now, moveKey)
  {
    hide RetireBidStep, RetireTransaction;
  }

  lemma TaskDoneIs(s: State, s': State, task: Task, now: int, moveKey: string)
    requires HandledTask(s, s', task, now, moveKey)
    ensures TaskDone(s, task, now, moveKey) == Ok(s'.(tasks := s'.tasks - multiset{task}))
  {
    hide RetireBidStep, RetireTransaction;
    if !task.ApplyTask? {
      TasksUntouchedByRetirement(s, if task.RetireBidTask? then task.bid else task.tx, now, moveKey);
    }
  }
}
