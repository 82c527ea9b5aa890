/** Accounts, account movements, and the effect of placing one movement. */
module Ledger {
  import opened Prelude
  import opened Amounts

  /** The stored data of one participant. `last` is the key of the newest movement. */
  datatype Account = Account(
    participant: string,
    last: Option<string>,
    currency: Currency,
    available: int64,
    blocked: int64)

  datatype MovementType =
    | PayIn
    | PayOut
    | PayOutReimburse
    | BidBooked
    | BidReimbursed
    | TxBooked
    | TxFinished
    | TxReimbursed

  /** What a caller asks to be moved; a movement before keys are assigned. */
  datatype Request = Request(
    mType: MovementType,
    availableAccount: string,
    blockedAccount: string,
    availableDelta: Money,
    blockedDelta: Money,
    fee: Money,
    world: Money,
    bidKey: Option<string>,
    txKey: Option<string>,
    depositKey: Option<string>)

  /** A ledger entry. One entry sits on the chains of both of its accounts. */
  datatype Movement = Movement(
    request: Request,
    timestamp: int,
    availablePredecessor: Option<string>,
    blockedPredecessor: Option<string>)

  datatype Books = Books(accounts: map<string, Account>, movements: map<string, Movement>)

  // ---------------------------------------------------------------- validation

  datatype Flow = Negative | NotPositive | Nothing | NotNegative | Positive

  predicate FlowsThus(op: Flow, amount: int64) {
    match op
    case Negative => amount < 0
    case NotPositive => amount <= 0
    case Nothing => amount == 0
    case NotNegative => amount >= 0
    case Positive => amount > 0
  }

  /** The direction each type of movement prescribes for available, blocked, fee and world.
      Movement types without an entry are never valid. */
  function Directions(t: MovementType): Option<(Flow, Flow, Flow, Flow)> {
    match t
    case BidBooked => Some((NotPositive, NotNegative, Nothing, Nothing))
    case BidReimbursed => Some((NotNegative, NotPositive, Nothing, Nothing))
    case TxBooked => Some((NotNegative, NotPositive, Nothing, Nothing))
    case TxFinished => Some((NotNegative, NotPositive, NotNegative, Nothing))
    case TxReimbursed => Some((NotNegative, NotPositive, Nothing, Nothing))
    case PayIn => Some((Positive, Nothing, Nothing, Negative))
    case PayOut => Some((Negative, Nothing, Nothing, Positive))
    case PayOutReimburse => None
  }

  predicate FlowOk(r: Request) {
    match Directions(r.mType)
    case None => false
    case Some((a, b, f, w)) =>
      && FlowsThus(a, r.availableDelta.amount)
      && FlowsThus(b, r.blockedDelta.amount)
      && FlowsThus(f, r.fee.amount)
      && FlowsThus(w, r.world.amount)
  }

  predicate SameCurrency(a: Money, b: Money) {
    a.amount == 0 || b.amount == 0 || a.currency == b.currency
  }

  predicate OneCurrency(r: Request) {
    && SameCurrency(r.availableDelta, r.blockedDelta)
    && SameCurrency(r.availableDelta, r.fee)
    && SameCurrency(r.availableDelta, r.world)
    && SameCurrency(r.blockedDelta, r.fee)
    && SameCurrency(r.blockedDelta, r.world)
    && SameCurrency(r.fee, r.world)
  }

  /** Soundness in exact integers: one currency, prescribed directions, and nothing is created
      or destroyed. */
  predicate Sound(r: Request) {
    && OneCurrency(r)
    && FlowOk(r)
    && r.availableDelta.amount + r.blockedDelta.amount + r.fee.amount + r.world.amount == 0
  }

  method ValidateCurrency(currency: Option<Currency>, other: Currency)
    returns (r: Option<Currency>, ok: bool)
    ensures ok <==> currency.None? || currency.value == other
    ensures r == if currency.None? then Some(other) else currency
  {
    if currency.None? {
      return Some(other), true;
    }
    return currency, other == currency.value;
  }

  /** Accumulates a wrapping int64 sum, yet accepts exactly the requests that are sound in
      exact integers: the prescribed directions leave the wrap-around no room to cancel. */
  method Validate(r: Request) returns (ok: bool)
    ensures ok <==> Sound(r)
  {
    var currency: Option<Currency> := None;
    var sum: int64 := 0;
    var same;
    if r.availableDelta.amount != 0 {
      currency, same := ValidateCurrency(currency, r.availableDelta.currency);
      if !same { return false; }
      sum := Wrap(sum + r.availableDelta.amount);
    }
    if r.blockedDelta.amount != 0 {
      currency, same := ValidateCurrency(currency, r.blockedDelta.currency);
      if !same { return false; }
      sum := Wrap(sum + r.blockedDelta.amount);
    }
    if r.fee.amount != 0 {
      currency, same := ValidateCurrency(currency, r.fee.currency);
      if !same { return false; }
      sum := Wrap(sum + r.fee.amount);
    }
    if r.world.amount != 0 {
      currency, same := ValidateCurrency(currency, r.world.currency);
      if !same { return false; }
      sum := Wrap(sum + r.world.amount);
    }
    assert OneCurrency(r);
    if !FlowOk(r) { return false; }
    return sum == 0;
  }

  // ---------------------------------------------------------------- applying deltas

  datatype Part = Available | Blocked

  function Balance(a: Account, part: Part): int64 {
    if part == Available then a.available else a.blocked
  }

  /** Currency may change only while the account holds no money at all. */
  predicate CurrencyMutable(a: Account) {
    a.available == 0 && a.blocked == 0
  }

  /** The test as the server computes it, on a wrapping sum. */
  predicate CanApply(a: Account, part: Part, delta: Money) {
    && (delta.amount == 0 || a.currency == delta.currency || CurrencyMutable(a))
    && Wrap(delta.amount + Balance(a, part)) >= 0
  }

  predicate Healthy(a: Account) {
    a.available >= 0 && a.blocked >= 0
  }

  /** On a healthy account the wrapping test admits exactly the deltas whose exact result is
      again an int64 balance that is not negative. */
  lemma CanApplyIsExact(a: Account, part: Part, delta: Money)
    requires Healthy(a)
    ensures CanApply(a, part, delta) <==>
            && (delta.amount == 0 || a.currency == delta.currency || CurrencyMutable(a))
            && 0 <= Balance(a, part) + delta.amount <= MAX64
  {
    var x := delta.amount + Balance(a, part);
    if x > MAX64 {
      assert (x - TWO64 - MIN64) % TWO64 == (x - MIN64) % TWO64;
    }
  }

  function Apply(a: Account, part: Part, delta: Money): Result<Account> {
    if !CanApply(a, part, delta) then Err(CannotApply)
    else if delta.amount == 0 then Ok(a)
    else
      var balance := Wrap(Balance(a, part) + delta.amount);
      if part == Available then Ok(a.(currency := delta.currency, available := balance))
      else Ok(a.(currency := delta.currency, blocked := balance))
  }

  /** Accounts come into being on first access, with nothing in them. */
  function DefaultAccount(p: string): Account {
    Account(p, None, BTC, 0, 0)
  }

  function AccountOf(accounts: map<string, Account>, p: string): Account {
    if p in accounts then accounts[p] else DefaultAccount(p)
  }

  function Touch(accounts: map<string, Account>, p: string): map<string, Account> {
    accounts[p := AccountOf(accounts, p)]
  }

  /** One side of a movement: apply the delta to one part of the account and make the new
      movement its newest. Also returns the movement that was newest before. Accounts without
      a participant cannot be saved. */
  function ApplySide(accounts: map<string, Account>, p: string, part: Part, delta: Money, key: string)
    : Result<(map<string, Account>, Option<string>)>
  {
    var a := AccountOf(accounts, p);
    match Apply(a, part, delta)
    case Err(e) => Err(e)
    case Ok(a') =>
      if a.participant == "" then Err(Panicked)
      else Ok((accounts[a.participant := a'.(last := Some(key))], a.last))
  }

  /** Places a movement under the key `key`. The blocked side is read after the available side
      has been written, so a movement between the two parts of one account sees itself as its
      own blocked predecessor. */
  function Place(books: Books, now: int, r: Request, key: string): Result<Books> {
    if !Sound(r) then Err(InvalidMovement) else
    match ApplySide(books.accounts, r.availableAccount, Available, r.availableDelta, key)
    case Err(e) => Err(e)
    case Ok((accounts, availablePredecessor)) =>
      match ApplySide(accounts, r.blockedAccount, Blocked, r.blockedDelta, key)
      case Err(e) => Err(e)
      case Ok((accounts', blockedPredecessor)) =>
        Ok(Books(
          accounts',
          books.movements[key := Movement(r, now, availablePredecessor, blockedPredecessor)]))
  }
}
