/** What placing a movement keeps: healthy balances, conservation of money in every currency,
    and one complete chain of movements for every account. */
module LedgerProofs {
  import opened Prelude
  import opened Amounts
  import opened Ledger

  // ---------------------------------------------------------------- invariants

  predicate AccountsOk(accounts: map<string, Account>) {
    forall p :: p in accounts ==> accounts[p].participant == p && p != "" && Healthy(accounts[p])
  }

  function Holding(a: Account, c: Currency): int {
    if a.currency == c then a.available + a.blocked else 0
  }

  ghost function Holdings(accounts: map<string, Account>, c: Currency): map<string, int> {
    map p | p in accounts :: Holding(accounts[p], c)
  }

  ghost function FeesBy(movements: map<string, Movement>, c: Currency): map<string, int> {
    map k | k in movements :: movements[k].request.fee.In(c) as int
  }

  ghost function WorldBy(movements: map<string, Movement>, c: Currency): map<string, int> {
    map k | k in movements :: movements[k].request.world.In(c) as int
  }

  /** All money in all accounts, in currency `c`. */
  ghost function TotalHeld(books: Books, c: Currency): int {
    Sum(Holdings(books.accounts, c))
  }

  /** Fees collected so far. */
  ghost function FeesCollected(books: Books, c: Currency): int {
    Sum(FeesBy(books.movements, c))
  }

  /** Money paid in minus money paid out so far. */
  ghost function NetDeposits(books: Books, c: Currency): int {
    -Sum(WorldBy(books.movements, c))
  }

  ghost predicate Conserved(books: Books) {
    forall c :: TotalHeld(books, c) + FeesCollected(books, c) == NetDeposits(books, c)
  }

  predicate MovementsSound(movements: map<string, Movement>) {
    forall k :: k in movements ==> Sound(movements[k].request)
  }

  predicate Involves(m: Movement, p: string) {
    m.request.availableAccount == p || m.request.blockedAccount == p
  }

  /** The link a reader of account `p`'s history follows from movement `m`. */
  function PredecessorFor(m: Movement, p: string): Option<string> {
    if m.request.availableAccount == p then m.availablePredecessor else m.blockedPredecessor
  }

  function DeltaFor(r: Request, p: string, part: Part): int {
    if part == Available then
      if r.availableAccount == p then r.availableDelta.amount else 0
    else
      if r.blockedAccount == p then r.blockedDelta.amount else 0
  }

  /** Following predecessors from `head` visits exactly `ks`, without repetition, and ends. */
  predicate IsChain(movements: map<string, Movement>, p: string, head: Option<string>, ks: seq<string>)
    decreases |ks|
  {
    if ks == [] then head.None? else
    && head == Some(ks[0])
    && ks[0] in movements
    && Involves(movements[ks[0]], p)
    && ks[0] !in ks[1..]
    && IsChain(movements, p, PredecessorFor(movements[ks[0]], p), ks[1..])
  }

  function ChainSum(movements: map<string, Movement>, p: string, part: Part, ks: seq<string>): int
    requires forall k :: k in ks ==> k in movements
  {
    if ks == [] then 0 else
    DeltaFor(movements[ks[0]].request, p, part) + ChainSum(movements, p, part, ks[1..])
  }

  /** `ks` is the account's whole history, newest first, and it explains both balances. */
  predicate IsHistory(movements: map<string, Movement>, a: Account, p: string, ks: seq<string>) {
    && (forall k :: k in ks ==> k in movements)
    && IsChain(movements, p, a.last, ks)
    && (forall k :: k in movements && Involves(movements[k], p) ==> k in ks)
    && ChainSum(movements, p, Available, ks) == a.available
    && ChainSum(movements, p, Blocked, ks) == a.blocked
  }

  ghost predicate HasHistory(books: Books, p: string) {
    exists ks :: IsHistory(books.movements, AccountOf(books.accounts, p), p, ks)
  }

  ghost predicate Chained(books: Books) {
    forall p :: HasHistory(books, p)
  }

  ghost predicate BooksOk(books: Books) {
    && AccountsOk(books.accounts)
    && MovementsSound(books.movements)
    && Conserved(books)
    && Chained(books)
  }

  // ---------------------------------------------------------------- effect of one movement

  /** Everything a successful placement does to account `p`, in exact integers. */
  predicate Moved(a: Account, a': Account, p: string, r: Request) {
    && a'.participant == a.participant
    && a'.available == a.available + DeltaFor(r, p, Available)
    && a'.blocked == a.blocked + DeltaFor(r, p, Blocked)
    && Healthy(a')
    && (a'.currency != a.currency ==> a.available == 0 && a.blocked == 0)
    && (DeltaFor(r, p, Available) != 0 ==> a'.currency == r.availableDelta.currency)
    && (DeltaFor(r, p, Blocked) != 0 ==> a'.currency == r.blockedDelta.currency)
  }

  lemma ApplyFacts(a: Account, part: Part, delta: Money)
    requires Healthy(a) && Apply(a, part, delta).Ok?
    ensures var a' := Apply(a, part, delta).value;
            && a'.participant == a.participant && a'.last == a.last
            && Balance(a', part) == Balance(a, part) + delta.amount
            && (part == Available ==> a'.blocked == a.blocked)
            && (part == Blocked ==> a'.available == a.available)
            && Healthy(a')
            && (a'.currency != a.currency ==> CurrencyMutable(a))
            && a'.currency == (if delta.amount == 0 then a.currency else delta.currency)
  {
    CanApplyIsExact(a, part, delta);
  }

  /** One side of a movement has been applied to account `p` and to no other. */
  predicate SideDone(accounts: map<string, Account>, accounts': map<string, Account>,
                     p: string, part: Part, delta: Money, key: string) {
    var a, a' := AccountOf(accounts, p), AccountOf(accounts', p);
    && accounts' == accounts[p := a'] && p != ""
    && a'.participant == a.participant == p
    && a'.last == Some(key)
    && Balance(a', part) == Balance(a, part) + delta.amount
    && (part == Available ==> a'.blocked == a.blocked)
    && (part == Blocked ==> a'.available == a.available)
    && Healthy(a')
    && (a'.currency != a.currency ==> CurrencyMutable(a))
    && a'.currency == (if delta.amount == 0 then a.currency else delta.currency)
  }

  lemma SideFacts(accounts: map<string, Account>, p: string, part: Part, delta: Money, key: string)
    requires AccountsOk(accounts) && ApplySide(accounts, p, part, delta, key).Ok?
    ensures var (accounts', last) := ApplySide(accounts, p, part, delta, key).value;
            && last == AccountOf(accounts, p).last
            && SideDone(accounts, accounts', p, part, delta, key)
            && AccountsOk(accounts')
  {
    ApplyFacts(AccountOf(accounts, p), part, delta);
  }

  lemma BothSides(accounts: map<string, Account>, middle: map<string, Account>, accounts': map<string, Account>,
                  r: Request, key: string, p: string)
    requires AccountsOk(accounts)
    requires SideDone(accounts, middle, r.availableAccount, Available, r.availableDelta, key)
    requires SideDone(middle, accounts', r.blockedAccount, Blocked, r.blockedDelta, key)
    requires SameCurrency(r.availableDelta, r.blockedDelta)
    ensures Moved(AccountOf(accounts, p), AccountOf(accounts', p), p, r)
    ensures AccountOf(accounts', p).last ==
            if p == r.availableAccount || p == r.blockedAccount then Some(key) else AccountOf(accounts, p).last
  {
    if p != r.availableAccount { assert AccountOf(middle, p) == AccountOf(accounts, p); }
    if p != r.blockedAccount { assert AccountOf(accounts', p) == AccountOf(middle, p); }
  }

  ghost predicate Placed(books: Books, books': Books, now: int, r: Request, key: string) {
    && AccountsOk(books'.accounts)
    && books'.accounts.Keys == books.accounts.Keys + {r.availableAccount, r.blockedAccount}
    && (forall p :: Moved(AccountOf(books.accounts, p), AccountOf(books'.accounts, p), p, r))
    && (forall p :: AccountOf(books'.accounts, p).last ==
          if p == r.availableAccount || p == r.blockedAccount then Some(key)
          else AccountOf(books.accounts, p).last)
    && key in books'.movements
    && books'.movements == books.movements[key := books'.movements[key]]
    && books'.movements[key].request == r
    && books'.movements[key].timestamp == now
    && PredecessorFor(books'.movements[key], r.availableAccount) ==
         AccountOf(books.accounts, r.availableAccount).last
    && PredecessorFor(books'.movements[key], r.blockedAccount) ==
         AccountOf(books.accounts, r.blockedAccount).last
  }

  lemma PlaceFacts(books: Books, now: int, r: Request, key: string)
    requires AccountsOk(books.accounts) && Place(books, now, r, key).Ok?
    ensures Sound(r)
    ensures Placed(books, Place(books, now, r, key).value, now, r, key)
  {
    var accounts := books.accounts;
    SideFacts(accounts, r.availableAccount, Available, r.availableDelta, key);
    var middle := ApplySide(accounts, r.availableAccount, Available, r.availableDelta, key).value.0;
    SideFacts(middle, r.blockedAccount, Blocked, r.blockedDelta, key);
    var accounts' := Place(books, now, r, key).value.accounts;
    forall p
      ensures Moved(AccountOf(accounts, p), AccountOf(accounts', p), p, r)
      ensures AccountOf(accounts', p).last ==
              if p == r.availableAccount || p == r.blockedAccount then Some(key) else AccountOf(accounts, p).last
    {
      BothSides(accounts, middle, accounts', r, key, p);
    }
  }

  lemma SoundPerCurrency(r: Request, c: Currency)
    requires Sound(r)
    ensures r.availableDelta.In(c) + r.blockedDelta.In(c) + r.fee.In(c) + r.world.In(c) == 0
  {
  }

  lemma HealthyAccount(accounts: map<string, Account>, p: string)
    requires AccountsOk(accounts)
    ensures Healthy(AccountOf(accounts, p))
  {
  }

  lemma MovedHolding(a: Account, a': Account, p: string, r: Request, c: Currency)
    requires Healthy(a) && Moved(a, a', p, r)
    ensures Holding(a', c) - Holding(a, c) ==
            (if r.availableAccount == p then r.availableDelta.In(c) else 0) +
            (if r.blockedAccount == p then r.blockedDelta.In(c) else 0)
  {
  }

  /** What a movement adds to one account's holding of a currency. */
  function HoldingChange(r: Request, p: string, c: Currency): int {
    (if r.availableAccount == p then r.availableDelta.In(c) else 0) +
    (if r.blockedAccount == p then r.blockedDelta.In(c) else 0)
  }

  lemma HeldMoves(accounts: map<string, Account>, accounts': map<string, Account>, r: Request, c: Currency)
    requires accounts'.Keys == accounts.Keys + {r.availableAccount, r.blockedAccount}
    requires forall p :: p in accounts' ==>
      Holding(accounts'[p], c) == Holding(AccountOf(accounts, p), c) + HoldingChange(r, p, c)
    ensures Sum(Holdings(accounts', c)) ==
            Sum(Holdings(accounts, c)) + r.availableDelta.In(c) + r.blockedDelta.In(c)
  {
    SumUpdateTwo(Holdings(accounts, c), Holdings(accounts', c),
                 r.availableAccount, r.availableDelta.In(c), r.blockedAccount, r.blockedDelta.In(c));
  }

  lemma WorldGrows(movements: map<string, Movement>, key: string, m: Movement, c: Currency)
    requires key !in movements
    ensures Sum(WorldBy(movements[key := m], c)) == Sum(WorldBy(movements, c)) + m.request.world.In(c)
  {
    SumUpdate(WorldBy(movements, c), WorldBy(movements[key := m], c), key);
  }

  /** Placing a movement keeps money in every currency: what the accounts gain is what the fee
      and the outside world lose. */
  lemma PlaceConserves(books: Books, books': Books, now: int, r: Request, key: string, c: Currency)
    requires AccountsOk(books.accounts) && Placed(books, books', now, r, key)
    requires key !in books.movements
    ensures TotalHeld(books', c) == TotalHeld(books, c) + r.availableDelta.In(c) + r.blockedDelta.In(c)
    ensures FeesCollected(books', c) == FeesCollected(books, c) + r.fee.In(c)
    ensures NetDeposits(books', c) == NetDeposits(books, c) - r.world.In(c)
  {
    hide Moved, AccountsOk, Holding;
    assert TotalHeld(books', c) == TotalHeld(books, c) + r.availableDelta.In(c) + r.blockedDelta.In(c) by {
      forall p | p in books'.accounts
        ensures Holding(books'.accounts[p], c) ==
                Holding(AccountOf(books.accounts, p), c) + HoldingChange(r, p, c)
      {
        HealthyAccount(books.accounts, p);
        MovedHolding(AccountOf(books.accounts, p), AccountOf(books'.accounts, p), p, r, c);
      }
      HeldMoves(books.accounts, books'.accounts, r, c);
    }
    SumUpdate(FeesBy(books.movements, c), FeesBy(books'.movements, c), key);
    SumUpdate(WorldBy(books.movements, c), WorldBy(books'.movements, c), key);
  }

  lemma {:induction false} ChainExtends(
    movements: map<string, Movement>, key: string, m: Movement, p: string, head: Option<string>, ks: seq<string>)
    requires key !in movements
    requires forall k :: k in ks ==> k in movements
    requires IsChain(movements, p, head, ks)
    ensures IsChain(movements[key := m], p, head, ks)
    ensures forall part :: ChainSum(movements[key := m], p, part, ks) == ChainSum(movements, p, part, ks)
    decreases |ks|
  {
    if ks != [] {
      ChainExtends(movements, key, m, p, PredecessorFor(movements[ks[0]], p), ks[1..]);
    }
  }

  /** The new movement goes to the front of the history of each account it involves and of no
      other account: histories are newest first. */
  lemma HistoryGrows(books: Books, books': Books, now: int, r: Request, key: string, p: string, ks: seq<string>)
    requires Placed(books, books', now, r, key) && key !in books.movements
    requires IsHistory(books.movements, AccountOf(books.accounts, p), p, ks)
    ensures var ks' := if p == r.availableAccount || p == r.blockedAccount then [key] + ks else ks;
            IsHistory(books'.movements, AccountOf(books'.accounts, p), p, ks')
  {
    hide AccountsOk, Healthy, AccountOf;
    var m := books'.movements[key];
    ChainExtends(books.movements, key, m, p, AccountOf(books.accounts, p).last, ks);
    assert Moved(AccountOf(books.accounts, p), AccountOf(books'.accounts, p), p, r);
    if Involves(m, p) {
      var ks' := [key] + ks;
      assert ks'[1..] == ks;
    }
  }

  /** The walk along predecessors is determined by its start, so the history is the only one. */
  lemma {:induction false} ChainUnique(
    movements: map<string, Movement>, p: string, head: Option<string>, ks: seq<string>, js: seq<string>)
    requires IsChain(movements, p, head, ks) && IsChain(movements, p, head, js)
    ensures ks == js
    decreases |ks|
  {
    if ks != [] && js != [] {
      ChainUnique(movements, p, PredecessorFor(movements[ks[0]], p), ks[1..], js[1..]);
      assert ks == [ks[0]] + ks[1..] && js == [js[0]] + js[1..];
    }
  }

  lemma PlaceKeepsBooks(books: Books, now: int, r: Request, key: string)
    requires BooksOk(books) && Place(books, now, r, key).Ok? && key !in books.movements
    ensures BooksOk(Place(books, now, r, key).value)
  {
    var books' := Place(books, now, r, key).value;
    PlaceFacts(books, now, r, key);
    forall c ensures TotalHeld(books', c) + FeesCollected(books', c) == NetDeposits(books', c) {
      PlaceConserves(books, books', now, r, key, c);
      SoundPerCurrency(r, c);
    }
    forall p ensures HasHistory(books', p) {
      assert HasHistory(books, p);
      var ks :| IsHistory(books.movements, AccountOf(books.accounts, p), p, ks);
      HistoryGrows(books, books', now, r, key, p, ks);
    }
  }

  /** Creating an empty account changes nothing that any account holds. */
  lemma TouchKeepsBooks(books: Books, p: string)
    requires BooksOk(books) && p != ""
    ensures BooksOk(books.(accounts := Touch(books.accounts, p)))
  {
    var books' := books.(accounts := Touch(books.accounts, p));
    forall c ensures TotalHeld(books', c) == TotalHeld(books, c) {
      SumUpdate(Holdings(books.accounts, c), Holdings(books'.accounts, c), p);
    }
    forall q ensures HasHistory(books', q) {
      assert HasHistory(books, q);
      assert AccountOf(books'.accounts, q) == AccountOf(books.accounts, q);
      var ks :| IsHistory(books.movements, AccountOf(books.accounts, q), q, ks);
    }
  }

  /** No account holds more than was ever deposited in its currency. */
  lemma HoldingBounded(books: Books, p: string)
    requires BooksOk(books)
    ensures var a := AccountOf(books.accounts, p);
            a.available + a.blocked > 0 ==> a.available + a.blocked <= NetDeposits(books, a.currency)
  {
    hide Chained;
    var a := AccountOf(books.accounts, p);
    if p in books.accounts {
      SumBoundsTerm(Holdings(books.accounts, a.currency), p);
      SumNonNegative(FeesBy(books.movements, a.currency));
    }
  }
}
