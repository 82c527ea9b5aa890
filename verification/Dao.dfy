/** The datastore, the write-back cache in front of it, and the code that places movements
    through the cache. Any datastore access may fail. */
module Dao {
  import opened Prelude
  import opened Ledger
  import opened Bids
  import opened Transactions
  import opened OrderBook
  import opened Market

  /** Everything persistent, as the current datastore transaction sees it. A datastore that is
      not reliable may fail at any access; so may the queues that belong to it. */
  class Datastore {
    const reliable: bool
    var accounts: map<string, Account>
    var movements: map<string, Movement>
    var deposits: map<string, Deposit>
    var bids: map<string, Bid>
    var txs: map<string, Tx>
    var messages: map<string, seq<Tmessage>>
    var tasks: multiset<Task>
    var hotQueue: set<(string, HotBid)>
    var zones: map<string, Book>

    function View(): State
      reads this
    {
      State(Books(accounts, movements), deposits, bids, txs, messages, tasks, hotQueue, zones)
    }

    constructor (reliable: bool)
      ensures View() == INITIAL && this.reliable == reliable
    {
      this.reliable := reliable;
      accounts, movements, deposits, bids := map[], map[], map[], map[];
      txs, messages, tasks, hotQueue, zones := map[], map[], multiset{}, {}, map[];
    }

    method Restore(s: State)
      modifies this
      ensures View() == s
    {
      accounts, movements, deposits, bids := s.books.accounts, s.books.movements, s.deposits, s.bids;
      txs, messages, tasks, hotQueue, zones := s.txs, s.messages, s.tasks, s.hotQueue, s.zones;
    }

    /** One access to the datastore or to a queue: an outage may prevent it. */
    method Access() returns (ok: bool)
      ensures reliable ==> ok
    {
      var up: bool := *;
      return reliable || up;
    }

    method GetAccount(p: string) returns (r: Result<Account>)
      ensures r == Err(Unavailable) || r == if p in accounts then Ok(accounts[p]) else Err(NoSuchObject)
      ensures reliable ==> r != Err(Unavailable)
    {
      var ok := Access();
      if !ok { return Err(Unavailable); }
      return if p in accounts then Ok(accounts[p]) else Err(NoSuchObject);
    }

    method SaveAccount(a: Account) returns (e: Option<Error>)
      modifies this`accounts
      ensures e.Some? ==> accounts == old(accounts)
      ensures e.None? ==> accounts == old(accounts)[a.participant := a]
      ensures a.participant == "" ==> e == Some(Panicked)
      ensures a.participant != "" ==> e == None || e == Some(Unavailable)
      ensures reliable ==> e != Some(Unavailable)
    {
      if a.participant == "" { return Some(Panicked); }
      var ok := Access();
      if !ok { return Some(Unavailable); }
      accounts := accounts[a.participant := a];
      return None;
    }

    method GetDeposit(uid: string) returns (r: Result<Deposit>)
      ensures r == Err(Unavailable) || r == if uid in deposits then Ok(deposits[uid]) else Err(NoSuchObject)
      ensures reliable ==> r != Err(Unavailable)
    {
      var ok := Access();
      if !ok { return Err(Unavailable); }
      return if uid in deposits then Ok(deposits[uid]) else Err(NoSuchObject);
    }

    method SaveDeposit(uid: string, d: Deposit) returns (e: Option<Error>)
      modifies this`deposits
      ensures e == None || e == Some(Unavailable)
      ensures reliable ==> e == None
      ensures deposits == if e.None? then old(deposits)[uid := d] else old(deposits)
    {
      var ok := Access();
      if !ok { return Some(Unavailable); }
      deposits := deposits[uid := d];
      return None;
    }

    method GetMovement(key: string) returns (r: Result<Movement>)
      ensures r == Err(Unavailable) || r == if key in movements then Ok(movements[key]) else Err(NoSuchObject)
      ensures reliable ==> r != Err(Unavailable)
    {
      var ok := Access();
      if !ok { return Err(Unavailable); }
      return if key in movements then Ok(movements[key]) else Err(NoSuchObject);
    }

    method SaveMovement(key: string, m: Movement) returns (e: Option<Error>)
      modifies this`movements
      ensures e == None || e == Some(Unavailable)
      ensures reliable ==> e == None
      ensures movements == if e.None? then old(movements)[key := m] else old(movements)
    {
      var ok := Access();
      if !ok { return Some(Unavailable); }
      movements := movements[key := m];
      return None;
    }
  }

  /** A cache agrees with the store on everything that is not marked for saving. */
  ghost predicate CacheOk<V>(store: map<string, V>, cache: map<string, V>, saved: set<string>) {
    && saved <= cache.Keys
    && (forall k :: k in cache && k !in saved ==> k in store && cache[k] == store[k])
  }

  /** What a reader of the cache sees. */
  function Visible<V>(store: map<string, V>, cache: map<string, V>): map<string, V> {
    store + cache
  }

  lemma VisibleWhenClean<V>(store: map<string, V>, cache: map<string, V>)
    requires CacheOk(store, cache, {})
    ensures Visible(store, cache) == store
  {
  }

  /** Accounts are stored under their participant's name. */
  predicate Keyed(accounts: map<string, Account>) {
    forall p :: p in accounts ==> accounts[p].participant == p
  }

  lemma CacheWrite<V>(store: map<string, V>, cache: map<string, V>, saved: set<string>, k: string, v: V)
    requires CacheOk(store, cache, saved)
    ensures CacheOk(store, cache[k := v], saved + {k})
    ensures Visible(store, cache[k := v]) == Visible(store, cache)[k := v]
  {
  }

  lemma CacheRead<V>(store: map<string, V>, cache: map<string, V>, saved: set<string>, k: string)
    requires CacheOk(store, cache, saved)
    ensures k in cache ==> k in Visible(store, cache) && Visible(store, cache)[k] == cache[k]
    ensures k !in cache ==> (k in Visible(store, cache) <==> k in store)
    ensures k !in cache && k in store ==>
              && CacheOk(store, cache[k := store[k]], saved)
              && Visible(store, cache[k := store[k]]) == Visible(store, cache)
              && Visible(store, cache)[k] == store[k]
  {
  }

  lemma CacheFlush<V>(store: map<string, V>, cache: map<string, V>, saved: set<string>, k: string)
    requires CacheOk(store, cache, saved) && k in saved
    ensures k in cache
    ensures CacheOk(store[k := cache[k]], cache, saved - {k})
    ensures Visible(store[k := cache[k]], cache) == Visible(store, cache)
  {
  }

  /** Read-your-own-writes on top of a datastore that lacks it. */
  class CachedDao {
    const delegate: Datastore
    const transactional: bool
    var accounts: map<string, Account>
    var deposits: map<string, Deposit>
    var movements: map<string, Movement>
    var savedAccounts: set<string>
    var savedDeposits: set<string>
    var savedMovements: set<string>

    ghost predicate Valid()
      reads this, delegate`accounts, delegate`deposits, delegate`movements
    {
      && CacheOk(delegate.accounts, accounts, savedAccounts)
      && CacheOk(delegate.deposits, deposits, savedDeposits)
      && CacheOk(delegate.movements, movements, savedMovements)
      && Keyed(delegate.accounts) && Keyed(accounts)
    }

    function Books(): Books
      reads this, delegate`accounts, delegate`deposits, delegate`movements
    {
      Ledger.Books(Visible(delegate.accounts, accounts), Visible(delegate.movements, movements))
    }

    function Deposits(): map<string, Deposit>
      reads this, delegate`accounts, delegate`deposits, delegate`movements
    {
      Visible(delegate.deposits, deposits)
    }

    /** No write is waiting for a flush. */
    predicate Clean()
      reads this
    {
      savedAccounts == {} && savedDeposits == {} && savedMovements == {}
    }

    /** What waits to be saved is visible, and so is nothing that is neither stored nor waiting. */
    lemma SavedAreVisible(p: string)
      requires Valid()
      ensures p in savedAccounts ==> p in Books().accounts
      ensures p in Books().accounts && p !in delegate.accounts ==> p in savedAccounts
    {
    }

    constructor (delegate: Datastore, transactional: bool)
      requires Keyed(delegate.accounts)
      ensures this.delegate == delegate && this.transactional == transactional
      ensures Valid() && Clean()
      ensures Books() == delegate.View().books && Deposits() == delegate.deposits
    {
      this.delegate := delegate;
      this.transactional := transactional;
      accounts, deposits, movements := map[], map[], map[];
      savedAccounts, savedDeposits, savedMovements := {}, {}, {};
    }

    /** A missing account is created on the fly and will be saved by the next flush. */
    method GetAccount(p: string) returns (r: Result<Account>)
      requires Valid()
      modifies this
      ensures Valid() && Deposits() == old(Deposits())
      ensures r == Err(Unavailable) || r == Ok(AccountOf(old(Books()).accounts, p))
      ensures delegate.reliable ==> r != Err(Unavailable)
      ensures r.Ok? ==> Books() == old(Books()).(accounts := Touch(old(Books()).accounts, p))
      ensures r.Err? ==> Books() == old(Books())
    {
      hide CacheOk, Visible;
      CacheRead(delegate.accounts, accounts, savedAccounts, p);
      if p in accounts {
        r := Ok(accounts[p]);
      } else {
        r := delegate.GetAccount(p);
        if r == Err(NoSuchObject) {
          r := Ok(DefaultAccount(p));
          CacheWrite(delegate.accounts, accounts, savedAccounts, p, DefaultAccount(p));
          savedAccounts := savedAccounts + {p};
          accounts := accounts[p := DefaultAccount(p)];
        } else if r.Ok? {
          accounts := accounts[p := r.value];
        }
      }
    }

    method SaveAccount(a: Account) returns (e: Option<Error>)
      requires Valid()
      modifies this
      ensures Valid() && Deposits() == old(Deposits())
      ensures e == if a.participant == "" then Some(Panicked) else None
      ensures Books() == if e.Some? then old(Books())
                         else old(Books()).(accounts := old(Books()).accounts[a.participant := a])
    {
      hide CacheOk, Visible;
      if a.participant == "" { return Some(Panicked); }
      CacheWrite(delegate.accounts, accounts, savedAccounts, a.participant, a);
      accounts := accounts[a.participant := a];
      savedAccounts := savedAccounts + {a.participant};
      return None;
    }

    method GetMovement(key: string) returns (r: Result<Movement>)
      requires Valid()
      modifies this
      ensures Valid() && Deposits() == old(Deposits()) && Books() == old(Books())
      ensures r == Err(Unavailable) ||
              r == if key in Books().movements then Ok(Books().movements[key]) else Err(NoSuchObject)
      ensures delegate.reliable ==> r != Err(Unavailable)
    {
      hide CacheOk, Visible;
      CacheRead(delegate.movements, movements, savedMovements, key);
      if key in movements { return Ok(movements[key]); }
      r := delegate.GetMovement(key);
      if r.Ok? {
        movements := movements[key := r.value];
      }
    }

    method SaveMovement(key: string, m: Movement)
      requires Valid()
      modifies this
      ensures Valid() && Deposits() == old(Deposits())
      ensures Books() == old(Books()).(movements := old(Books()).movements[key := m])
    {
      hide CacheOk, Visible;
      CacheWrite(delegate.movements, movements, savedMovements, key, m);
      movements := movements[key := m];
      savedMovements := savedMovements + {key};
    }

    method GetDeposit(uid: string) returns (r: Result<Deposit>)
      requires Valid()
      modifies this
      ensures Valid() && Deposits() == old(Deposits()) && Books() == old(Books())
      ensures r == Err(Unavailable) || r == if uid in Deposits() then Ok(Deposits()[uid]) else Err(NoSuchObject)
      ensures delegate.reliable ==> r != Err(Unavailable)
    {
      hide CacheOk, Visible;
      CacheRead(delegate.deposits, deposits, savedDeposits, uid);
      if uid in deposits { return Ok(deposits[uid]); }
      r := delegate.GetDeposit(uid);
      if r.Ok? {
        deposits := deposits[uid := r.value];
      }
    }

    method SaveDeposit(uid: string, d: Deposit)
      requires Valid()
      modifies this
      ensures Valid() && Books() == old(Books())
      ensures Deposits() == old(Deposits())[uid := d]
    {
      hide CacheOk, Visible;
      CacheWrite(delegate.deposits, deposits, savedDeposits, uid, d);
      deposits := deposits[uid := d];
      savedDeposits := savedDeposits + {uid};
    }

    /** Writes everything back. However far it gets, a reader of the cache sees no difference and
        the flush can be tried again; once it succeeds the store shows what the cache shows, and
        flushing again changes nothing. */
    method Flush() returns (e: Option<Error>)
      requires Valid()
      modifies this`savedAccounts, this`savedDeposits, this`savedMovements
      modifies delegate`accounts, delegate`deposits, delegate`movements
      ensures Valid() && Books() == old(Books()) && Deposits() == old(Deposits())
      ensures e.None? ==> Clean() && delegate.View().books == Books() && delegate.deposits == Deposits()
      ensures !transactional ==> e == Some(NotTransactional)
      ensures e == Some(NotTransactional) ==> !transactional
      ensures e == Some(Panicked) ==> "" in old(savedAccounts)
      ensures "" in old(savedAccounts) ==> e.Some?
      ensures e.None? || e.value in {NotTransactional, Panicked, Unavailable}
      ensures delegate.reliable ==> e != Some(Unavailable)
      ensures transactional && old(Clean()) ==> e.None? && delegate.View() == old(delegate.View())
      ensures !transactional ==> unchanged(this) && unchanged(delegate)
    {
      hide CacheOk, Visible;
      if !transactional { return Some(NotTransactional); }
      e := FlushAccounts();
      if e.Some? { return; }
      e := FlushDeposits();
      if e.Some? { return; }
      e := FlushMovements();
      if e.None? {
        VisibleWhenClean(delegate.accounts, accounts);
        VisibleWhenClean(delegate.deposits, deposits);
        VisibleWhenClean(delegate.movements, movements);
      }
    }

    method FlushAccounts() returns (e: Option<Error>)
      requires Valid()
      modifies this`savedAccounts, delegate`accounts
      ensures Valid() && Books() == old(Books())
      ensures savedAccounts <= old(savedAccounts)
      ensures e.None? ==> savedAccounts == {}
      ensures old(savedAccounts) == {} ==> e.None? && delegate.accounts == old(delegate.accounts)
      ensures e == Some(Panicked) ==> "" in old(savedAccounts)
      ensures "" in old(savedAccounts) ==> e.Some?
      ensures e.None? || e.value in {Panicked, Unavailable}
      ensures delegate.reliable ==> e != Some(Unavailable)
    {
      hide CacheOk, Visible;
      while savedAccounts != {}
        invariant Valid() && Books() == old(Books())
        invariant savedAccounts <= old(savedAccounts)
        invariant "" in old(savedAccounts) ==> "" in savedAccounts
        invariant old(savedAccounts) == {} ==> delegate.accounts == old(delegate.accounts)
        decreases savedAccounts
      {
        var k :| k in savedAccounts;
        CacheFlush(delegate.accounts, accounts, savedAccounts, k);
        e := delegate.SaveAccount(accounts[k]);
        if e.Some? { return; }
        savedAccounts := savedAccounts - {k};
      }
      e := None;
    }

    method FlushDeposits() returns (e: Option<Error>)
      requires Valid()
      modifies this`savedDeposits, delegate`deposits
      ensures Valid() && Deposits() == old(Deposits())
      ensures e.None? ==> savedDeposits == {}
      ensures old(savedDeposits) == {} ==> e.None? && delegate.deposits == old(delegate.deposits)
      ensures e.None? || e.value == Unavailable
      ensures delegate.reliable ==> e == None
    {
      hide CacheOk, Visible;
      while savedDeposits != {}
        invariant Valid() && Deposits() == old(Deposits())
        invariant old(savedDeposits) == {} ==> savedDeposits == {} && delegate.deposits == old(delegate.deposits)
        decreases savedDeposits
      {
        var k :| k in savedDeposits;
        CacheFlush(delegate.deposits, deposits, savedDeposits, k);
        e := delegate.SaveDeposit(k, deposits[k]);
        if e.Some? { return; }
        savedDeposits := savedDeposits - {k};
      }
      e := None;
    }

    method FlushMovements() returns (e: Option<Error>)
      requires Valid()
      modifies this`savedMovements, delegate`movements
      ensures Valid() && Books() == old(Books())
      ensures e.None? ==> savedMovements == {}
      ensures old(savedMovements) == {} ==> e.None? && delegate.movements == old(delegate.movements)
      ensures e.None? || e.value == Unavailable
      ensures delegate.reliable ==> e == None
    {
      hide CacheOk, Visible;
      while savedMovements != {}
        invariant Valid() && Books() == old(Books())
        invariant old(savedMovements) == {} ==> savedMovements == {} && delegate.movements == old(delegate.movements)
        decreases savedMovements
      {
        var k :| k in savedMovements;
        CacheFlush(delegate.movements, movements, savedMovements, k);
        e := delegate.SaveMovement(k, movements[k]);
        if e.Some? { return; }
        savedMovements := savedMovements - {k};
      }
      e := None;
    }
  }
}
