/** Accounts, bids and transactions as the objects that server code loads, changes in place and
    writes back. */
module Entities {
  import opened Prelude
  import opened Amounts
  import opened Ledger
  import opened Bids
  import opened Transactions
  import opened Market
  import opened Dao

  // ---------------------------------------------------------------- accounts

  class ParticipantAccount {
    var participant: string
    var last: Option<string>
    var currency: Currency
    var available: int64
    var blocked: int64

    function View(): Account
      reads this
    {
      Account(participant, last, currency, available, blocked)
    }

    constructor (a: Account)
      ensures View() == a
    {
      participant, last, currency, available, blocked := a.participant, a.last, a.currency, a.available, a.blocked;
    }

    /** Applies a delta to one part of the account, whose currency may change. */
    method ApplyTo(part: Part, delta: Money) returns (ok: bool)
      modifies this`currency, this`available, this`blocked
      ensures ok ==> Apply(old(View()), part, delta) == Result.Ok(View())
      ensures !ok ==> Apply(old(View()), part, delta) == Err(CannotApply) && View() == old(View())
    {
      ok := CanApply(View(), part, delta);
      if !ok { return; }
      if delta.amount != 0 {
        currency := delta.currency;
        if part == Available {
          available := Wrap(available + delta.amount);
        } else {
          blocked := Wrap(blocked + delta.amount);
        }
      }
    }
  }

  // ---------------------------------------------------------------- placing a movement

  /** One side of a movement through the cache. */
  method PlaceSide(dao: CachedDao, p: string, part: Part, delta: Money, key: string)
    returns (r: Result<Option<string>>)
    requires dao.Valid()
    modifies dao
    ensures dao.Valid() && dao.Deposits() == old(dao.Deposits())
    ensures dao.Books().movements == old(dao.Books()).movements
    ensures r.Ok? ==>
      ApplySide(old(dao.Books()).accounts, p, part, delta, key) == Ok((dao.Books().accounts, r.value))
    ensures dao.delegate.reliable ==> r != Err(Unavailable)
    ensures r.Err? && r.error != Unavailable ==>
      ApplySide(old(dao.Books()).accounts, p, part, delta, key) == Err(r.error)
  {
    var loaded := dao.GetAccount(p);
    if loaded.Err? { return Err(Unavailable); }
    var account := new ParticipantAccount(loaded.value);
    var ok := account.ApplyTo(part, delta);
    if !ok { return Err(CannotApply); }
    var previous := account.last;
    account.last := Some(key);
    assert dao.Books().accounts == Touch(old(dao.Books()).accounts, p);
    label beforeSave:
    var e := dao.SaveAccount(account.View());
    if e.Some? { return Err(e.value); }
    SavedAfterTouch(old(dao.Books()).accounts, p, account.View());
    return Ok(previous);
  }

  lemma SavedAfterTouch(accounts: map<string, Account>, p: string, a: Account)
    ensures a.participant == p ==> Touch(accounts, p)[p := a] == accounts[p := a]
  {
  }

  /** Validates and places a movement through the cache. On an error the datastore transaction
      around it is rolled back, so what the cache then shows does not matter. */
  method PlaceAccountMovement(dao: CachedDao, now: int, r: Request, key: string) returns (e: Option<Error>)
    requires dao.Valid()
    modifies dao
    ensures dao.Valid() && dao.Deposits() == old(dao.Deposits())
    ensures e.None? ==> Place(old(dao.Books()), now, r, key) == Ok(dao.Books())
    ensures dao.delegate.reliable ==> e != Some(Unavailable)
    ensures e.Some? && e.value != Unavailable ==> Place(old(dao.Books()), now, r, key) == Err(e.value)
  {
    hide Sound, ApplySide;
    var sound := Validate(r);
    if !sound { return Some(InvalidMovement); }
    var ok := dao.delegate.Access();
    if !ok { return Some(Unavailable); }
    var a := PlaceSide(dao, r.availableAccount, Available, r.availableDelta, key);
    if a.Err? { return Some(a.error); }
    var b := PlaceSide(dao, r.blockedAccount, Blocked, r.blockedDelta, key);
    if b.Err? { return Some(b.error); }
    dao.SaveMovement(key, Movement(r, now, a.value, b.value));
    return None;
  }

  // ---------------------------------------------------------------- deposits

  /** Places a deposit unless the same one has been placed before. */
  method PlaceDepositVia(dao: CachedDao, uid: string, d: Deposit, key: string) returns (e: Option<Error>)
    requires dao.Valid()
    modifies dao
    ensures dao.Valid()
    ensures e.None? && uid in old(dao.Deposits()) ==>
      SameDeposit(old(dao.Deposits())[uid], d) && dao.Deposits() == old(dao.Deposits()) && dao.Books() == old(dao.Books())
    ensures e.None? && uid !in old(dao.Deposits()) ==>
      && Place(old(dao.Books()), d.created, DepositRequest(uid, d), key) == Ok(dao.Books())
      && dao.Deposits() == old(dao.Deposits())[uid := d]
    ensures dao.delegate.reliable ==> e != Some(Unavailable)
    ensures e.Some? && e.value != Unavailable ==>
      if uid in old(dao.Deposits()) then e.value == DifferentDeposit && !SameDeposit(old(dao.Deposits())[uid], d)
      else Place(old(dao.Books()), d.created, DepositRequest(uid, d), key) == Err(e.value)
  {
    hide Place;
    var previous := dao.GetDeposit(uid);
    if previous.Ok? {
      return if SameDeposit(previous.value, d) then None else Some(DifferentDeposit);
    } else if previous.error != NoSuchObject {
      return Some(previous.error);
    }
    e := PlaceAccountMovement(dao, d.created, DepositRequest(uid, d), key);
    if e.Some? { return; }
    dao.SaveDeposit(uid, d);
  }

  // ---------------------------------------------------------------- bids

  class BidEntity {
    const bidType: BidType
    const article: string
    const price: Money
    const fee: Money
    const participant: string
    const created: int
    const expires: int
    var state: BidState
    var matched: Option<int>
    var transaction: Option<string>

    function View(): Bid
      reads this
    {
      Bid(bidType, state, article, price, fee, participant, created, expires, matched, transaction)
    }

    constructor (b: Bid)
      ensures View() == b
    {
      bidType, article, price, fee := b.bidType, b.article, b.price, b.fee;
      participant, created, expires := b.participant, b.created, b.expires;
      state, matched, transaction := b.state, b.matched, b.transaction;
    }

    method CheckBalanceOf(dao: CachedDao) returns (e: Option<Error>)
      requires dao.Valid()
      modifies dao
      ensures dao.Valid() && dao.Deposits() == old(dao.Deposits())
      ensures e.None? ==>
        && CheckBalance(old(dao.Books()).accounts, View()) == Ok(dao.Books().accounts)
        && dao.Books().movements == old(dao.Books()).movements
      ensures dao.delegate.reliable ==> e != Some(Unavailable)
      ensures e.Some? && e.value != Unavailable ==> CheckBalance(old(dao.Books()).accounts, View()) == Err(e.value)
    {
      hide Touch;
      if bidType == Buy && price.currency != fee.currency { return Some(Panicked); }
      var amount := price;
      if bidType == Buy {
        amount := amount.Add(fee);
        if amount.amount < 0 { return Some(InvalidBid); }
        amount := amount.Neg();
      }
      var account := dao.GetAccount(participant);
      if account.Err? { return Some(Unavailable); }
      if !CanApply(account.value, Available, amount) {
        return if bidType == Buy then Some(InsufficientFunds) else Some(WrongCurrency);
      }
      return None;
    }

    method Book(dao: CachedDao, key: string, moveKey: string) returns (e: Option<Error>)
      requires dao.Valid()
      modifies dao
      ensures dao.Valid() && dao.Deposits() == old(dao.Deposits())
      ensures e.None? ==> BookBid(old(dao.Books()), View(), key, moveKey) == Ok(dao.Books())
      ensures dao.delegate.reliable ==> e != Some(Unavailable)
      ensures e.Some? && e.value != Unavailable ==> BookBid(old(dao.Books()), View(), key, moveKey) == Err(e.value)
    {
      hide Place;
      if bidType == Sell { return None; }
      if price.currency != fee.currency { return Some(Panicked); }
      var total := price.Add(fee);
      e := PlaceAccountMovement(dao, created, BidRequest(View(), key, BidBooked, total.Neg(), total), moveKey);
    }

    method Retire(dao: CachedDao, key: string, now: int, moveKey: string) returns (e: Option<Error>)
      requires dao.Valid() && this as object != dao
      modifies dao, this`state
      ensures dao.Valid() && dao.Deposits() == old(dao.Deposits())
      ensures e.None? ==> RetireBid(old(dao.Books()), old(View()), key, now, moveKey) == Ok((dao.Books(), View()))
      ensures dao.delegate.reliable ==> e != Some(Unavailable)
      ensures e.Some? && e.value != Unavailable ==>
        RetireBid(old(dao.Books()), old(View()), key, now, moveKey) == Err(e.value)
    {
      hide Place;
      if state != Placed && state != InQueue { return None; }
      if bidType == Sell {
        state := Expired;
        return None;
      }
      if price.currency != fee.currency { return Some(Panicked); }
      var total := price.Add(fee);
      e := PlaceAccountMovement(dao, now, BidRequest(View(), key, BidReimbursed, total, total.Neg()), moveKey);
      if e.Some? { return; }
      state := Expired;
    }
  }

  // ---------------------------------------------------------------- transactions

  class TransactionEntity {
    const buyerBid: string
    const sellerBid: string
    const buyer: string
    const seller: string
    const article: string
    const price: Money
    const fee: Money
    const matched: int
    var revision: int
    var state: TxState
    var phase: Phase
    var timeout: int
    var workerUrl: Option<string>
    var workHash: Option<string>
    var workSecretHash: Option<string>
    var buyerSecret: Option<string>
    var receipt: Option<Receipt>
    var resultKey: Option<string>

    function View(): Tx
      reads this
    {
      Tx(revision, buyerBid, sellerBid, buyer, seller, article, price, fee, matched, state, phase, timeout,
         workerUrl, workHash, workSecretHash, buyerSecret, receipt, resultKey)
    }

    constructor (tx: Tx)
      ensures View() == tx
    {
      buyerBid, sellerBid, buyer, seller, article := tx.buyerBid, tx.sellerBid, tx.buyer, tx.seller, tx.article;
      price, fee, matched := tx.price, tx.fee, tx.matched;
      revision, state, phase, timeout := tx.revision, tx.state, tx.phase, tx.timeout;
      workerUrl, workHash, workSecretHash := tx.workerUrl, tx.workHash, tx.workSecretHash;
      buyerSecret, receipt, resultKey := tx.buyerSecret, tx.receipt, tx.resultKey;
    }

    method RuleFits(rule: Rule, address: string, arguments: Arguments) returns (fits: bool)
      ensures fits <==> SenderFits(rule, View(), address) && NamesFit(rule, arguments)
    {
      if rule.from == FromBuyer && address != buyer { return false; }
      if rule.from == FromSeller && address != seller { return false; }
      if |arguments| != |rule.names| { return false; }
      for j := 0 to |rule.names|
        invariant forall h :: 0 <= h < j ==> rule.names[h] in arguments
      {
        if rule.names[j] !in arguments { return false; }
      }
      return true;
    }

    /** Scans the rules in order; the first whose sender and argument names fit wins. */
    method FindMatchingRule(rules: seq<Rule>, address: string, arguments: Arguments) returns (r: Option<Rule>)
      ensures r == FindRule(rules, View(), address, arguments)
    {
      hide SenderFits, NamesFit;
      for i := 0 to |rules|
        invariant FindRule(rules, View(), address, arguments) == FindRule(rules[i..], View(), address, arguments)
      {
        var fits := RuleFits(rules[i], address, arguments);
        if fits { return Some(rules[i]); }
        assert rules[i..][1..] == rules[i + 1..];
      }
      return None;
    }

    method FindMatchingTransition(rule: Rule) returns (r: Option<Transition>)
      ensures r == FindTransition(rule.transitions, phase)
    {
      for i := 0 to |rule.transitions|
        invariant FindTransition(rule.transitions, phase) == FindTransition(rule.transitions[i..], phase)
      {
        if rule.transitions[i].prePhase == phase { return Some(rule.transitions[i]); }
        assert rule.transitions[i..][1..] == rule.transitions[i + 1..];
      }
      return None;
    }

    /** Runs a handler. One that fails half-way may leave a work hash behind, which is why a
        transaction whose message was rejected must not be stored. */
    method RunHandler(crypto: Crypto, kind: Kind, arguments: Arguments) returns (e: Option<Error>)
      modifies this`workerUrl, this`workHash, this`workSecretHash, this`buyerSecret, this`receipt, this`resultKey
      ensures e.None? ==> Handle(crypto, kind, old(View()), arguments) == Ok(View())
      ensures e.Some? ==> Handle(crypto, kind, old(View()), arguments) == Err(e.value)
      ensures e.Some? ==> View() == old(View()).(workHash := View().workHash)
    {
      match kind {
        case WorkHashes =>
          var h, s := Argument(arguments, "workhash"), Argument(arguments, "worksecrethash");
          if !IsHash(h) { return Some(Panicked); }
          workHash := Some(h);
          if !IsHash(s) { return Some(Panicked); }
          workSecretHash := Some(s);
        case WorkerUrl =>
          var u := Argument(arguments, "workerurl");
          if !IsWorkerUrl(crypto, u) { return Some(Panicked); }
          workerUrl := Some(u);
        case BuyerSecret =>
          var s := Argument(arguments, "buyersecret");
          if !IsHash(s) { return Some(Panicked); }
          if workHash.None? || workSecretHash.None? { return Some(Panicked); }
          if crypto.sha(workHash.value, s) != workSecretHash.value { return Some(Rejected); }
          buyerSecret := Some(s);
        case TransmitFinished =>
          var h := Argument(arguments, "encresulthash");
          if !IsHash(h) { return Some(Panicked); }
          var signature := crypto.decodeSignature(Argument(arguments, "encresulthashsig"));
          if signature.None? { return Some(Panicked); }
          if !crypto.verify(h, buyer, signature.value) { return Some(Panicked); }
          var key := Argument(arguments, "encresultkey");
          if !IsHash(key) { return Some(Panicked); }
          resultKey := Some(key);
          receipt := Some(Receipt(h, signature.value));
        case _ =>
      }
      return None;
    }

    /** Grants time, or makes the transaction due at once. */
    method OnArrival(now: int)
      modifies this`timeout
      ensures View() == Arrive(old(View()), now)
    {
      match phase {
        case Transmitting => timeout := timeout + 2 * MINUTE;
        case Working => timeout := timeout + 5 * MINUTE;
        case Unverified => timeout := timeout + 15 * MINUTE;
        case Finished => timeout := now;
        case WorkDisputed => timeout := now;
        case ResultDisputed => timeout := now;
        case _ =>
      }
    }

    /** Sends a message and, if it is accepted, advances the transaction. */
    method SendMessage(crypto: Crypto, now: int, address: string, arguments: Arguments) returns (m: Tmessage)
      modifies this
      ensures m == Deliver(crypto, old(View()), now, address, arguments).1
      ensures m.accepted ==> View() == Deliver(crypto, old(View()), now, address, arguments).0
      ensures !m.accepted ==> View() == old(View()).(workHash := View().workHash)
    {
      hide FindRule, FindTransition, Handle, Identify, Arrive;
      if state != Active || timeout <= now {
        return Reject(View(), now, address, arguments, FromBuyer, Rejected, phase);
      }
      var rule := FindMatchingRule(RULES, address, arguments);
      if rule.None? {
        return Reject(View(), now, address, arguments, Identify(View(), address), Rejected, phase);
      }
      var transition := FindMatchingTransition(rule.value);
      if transition.None? {
        return Reject(View(), now, address, arguments, rule.value.from, Rejected, phase);
      }
      var prePhase, postPhase := phase, transition.value.postPhase;
      var e := RunHandler(crypto, rule.value.kind, arguments);
      if e.Some? {
        return Tmessage(now, address, arguments, rule.value.from, false, e, prePhase, postPhase);
      }
      phase := postPhase;
      revision := revision + 1;
      if postPhase != prePhase {
        OnArrival(now);
      }
      return Tmessage(now, address, arguments, rule.value.from, true, None, prePhase, postPhase);
    }

    method Book(dao: CachedDao, key: string, buyerBid: Bid, moveKey: string) returns (e: Option<Error>)
      requires dao.Valid()
      modifies dao
      ensures dao.Valid() && dao.Deposits() == old(dao.Deposits())
      ensures e.None? ==> BookTx(old(dao.Books()), View(), key, buyerBid, moveKey) == Ok(dao.Books())
      ensures dao.delegate.reliable ==> e != Some(Unavailable)
      ensures e.Some? && e.value != Unavailable ==>
        BookTx(old(dao.Books()), View(), key, buyerBid, moveKey) == Err(e.value)
    {
      hide Place;
      if buyerBid.price.currency != buyerBid.fee.currency || price.currency != fee.currency
         || buyerBid.price.currency != price.currency {
        return Some(Panicked);
      }
      var bidPrice := buyerBid.price.Add(buyerBid.fee);
      var txPrice := price.Add(fee);
      var delta := bidPrice.Sub(txPrice);
      if delta.amount < 0 { return Some(StrangePriceDelta); }
      if delta.amount == 0 { return None; }
      e := PlaceAccountMovement(dao, matched,
        TxRequest(TxBooked, buyer, buyer, delta, delta.Neg(), Zero(price.currency), key), moveKey);
    }

    method Retire(dao: CachedDao, key: string, now: int, moveKey: string) returns (e: Option<Error>)
      requires dao.Valid() && this as object != dao
      modifies dao, this`state, this`revision
      ensures dao.Valid() && dao.Deposits() == old(dao.Deposits())
      ensures e.None? ==> RetireTx(old(dao.Books()), old(View()), key, now, moveKey) == Ok((dao.Books(), View()))
      ensures dao.delegate.reliable ==> e != Some(Unavailable)
      ensures e.Some? && e.value != Unavailable ==>
        RetireTx(old(dao.Books()), old(View()), key, now, moveKey) == Err(e.value)
    {
      hide Place;
      if price.currency != fee.currency { return Some(Panicked); }
      if state != Active { return Some(AlreadyRetired); }
      if timeout > now { return Some(TooYoung); }
      var total := price.Add(fee);
      if phase == Finished || phase == Unverified {
        e := PlaceAccountMovement(dao, now,
          TxRequest(TxFinished, seller, buyer, price, total.Neg(), fee, key), moveKey);
      } else {
        e := PlaceAccountMovement(dao, now,
          TxRequest(TxReimbursed, buyer, buyer, total, total.Neg(), Zero(price.currency), key), moveKey);
      }
      if e.Some? { return; }
      state := Retired;
      revision := revision + 1;
    }
  }

  /** Joins two bids in a new transaction, marking both as matched. */
  method JoinBids(now: int, newKey: string, oldKey: string, newBid: BidEntity, oldBid: BidEntity)
    returns (r: Result<Tx>)
    requires newBid != oldBid
    modifies newBid`matched, newBid`state, oldBid`matched, oldBid`state
    ensures r.Ok? ==>
      NewTransaction(now, newKey, oldKey, old(newBid.View()), old(oldBid.View()))
      == Ok((r.value, newBid.View(), oldBid.View()))
    ensures r.Err? ==>
      r.error != Unavailable && NewTransaction(now, newKey, oldKey, old(newBid.View()), old(oldBid.View())) == Err(r.error)
  {
    if oldBid.bidType == newBid.bidType || oldBid.price.currency != newBid.price.currency
       || oldBid.article != newBid.article {
      return Err(NonMatchingBids);
    }
    if oldBid.state != Placed { return Err(NonMatchingBids); }
    if newBid.state != InQueue { return Err(NonMatchingBids); }
    if oldBid.expires <= now { return Err(NonMatchingBids); }
    if newBid.expires <= now { return Err(NonMatchingBids); }
    var buyBid, sellBid, buyKey, sellKey := oldBid, newBid, oldKey, newKey;
    if newBid.bidType == Buy {
      buyBid, sellBid, buyKey, sellKey := newBid, oldBid, newKey, oldKey;
    }
    var tx := Tx(0, buyKey, sellKey, buyBid.participant, sellBid.participant,
                 oldBid.article, oldBid.price, oldBid.fee, now, Active, Establishing, now + 60 * SECOND,
                 None, None, None, None, None, None);
    newBid.matched, newBid.state := Some(now), Matched;
    oldBid.matched, oldBid.state := Some(now), Matched;
    return Ok(tx);
  }
}
