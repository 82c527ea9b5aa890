/** Exactly when each step of the market succeeds, which error it meets otherwise, and what it does
    to everybody's account. */
module MarketOutcomes {
  import opened Prelude
  import opened Amounts
  import opened Ledger
  import opened LedgerProofs
  import opened Bids
  import MoneyText
  import opened OrderBook
  import opened Transactions
  import opened TransactionProofs
  import opened Market
  import opened MarketInvariant
  import opened MarketSteps
  import opened MarketSteps2
  import opened MarketRuns
  import opened MarketTheorems

  /** Account `p` changes by the given amounts if it is `q`'s, and else not at all. */
  predicate Changes(before: Books, after: Books, p: string, q: string, available: int, blocked: int) {
    && AccountOf(after.accounts, p).available == AccountOf(before.accounts, p).available + (if p == q then available else 0)
    && AccountOf(after.accounts, p).blocked == AccountOf(before.accounts, p).blocked + (if p == q then blocked else 0)
  }

  /** Nobody's account changes but `q`'s, and that by the given amounts. */
  ghost predicate OnlyChanges(before: Books, after: Books, q: string, available: int, blocked: int) {
    forall p :: Changes(before, after, p, q, available, blocked)
  }

  lemma PlacedChanges(books: Books, now: int, r: Request, key: string)
    requires AccountsOk(books.accounts) && Place(books, now, r, key).Ok? && r.availableAccount == r.blockedAccount
    ensures OnlyChanges(books, Place(books, now, r, key).value, r.availableAccount,
                        r.availableDelta.amount, r.blockedDelta.amount)
  {
    hide Place, AccountsOk, AllMoved;
    PlaceMoves(books, now, r, key);
    forall p ensures Changes(books, Place(books, now, r, key).value, p, r.availableAccount,
                             r.availableDelta.amount, r.blockedDelta.amount) {
      MovedAt(books.accounts, Place(books, now, r, key).value.accounts, r, p);
    }
  }

  // ---------------------------------------------------------------- deposits

  /** A deposit that enters the market must be positive; only an injection may take money out. */
  predicate WellFormed(d: Deposit) {
    d.amount.amount > 0 || (d.dType == Injection && MIN64 < d.amount.amount < 0)
  }

  /** The account's currency fits or can still change, and the new balance is in range. */
  predicate HasRoom(a: Account, amount: Money) {
    && (a.currency == amount.currency || (a.available == 0 && a.blocked == 0))
    && 0 <= a.available + amount.amount <= MAX64
  }

  lemma DepositSound(uid: string, d: Deposit)
    ensures Sound(DepositRequest(uid, d)) <==> WellFormed(d)
  {
  }

  lemma CreditApplies(books: Books, now: int, r: Request, key: string)
    requires AccountsOk(books.accounts) && Sound(r) && r.availableAccount == r.blockedAccount != ""
    requires r.availableDelta.amount != 0 && r.blockedDelta.amount == 0
    ensures var a := AccountOf(books.accounts, r.availableAccount);
      if HasRoom(a, r.availableDelta) then Place(books, now, r, key).Ok? else Place(books, now, r, key) == Err(CannotApply)
  {
    var p := r.availableAccount;
    var a := AccountOf(books.accounts, p);
    HealthyAccount(books.accounts, p);
    CanApplyIsExact(a, Available, r.availableDelta);
    if HasRoom(a, r.availableDelta) {
      ApplyFacts(a, Available, r.availableDelta);
      var middle := ApplySide(books.accounts, p, Available, r.availableDelta, key).value.0;
      CanApplyIsExact(AccountOf(middle, p), Blocked, r.blockedDelta);
    }
  }

  lemma DepositPlaced(books: Books, uid: string, d: Deposit, moveKey: string)
    requires AccountsOk(books.accounts) && d.account != ""
    ensures var r := Place(books, d.created, DepositRequest(uid, d), moveKey);
      && (!WellFormed(d) ==> r == Err(InvalidMovement))
      && (WellFormed(d) && !HasRoom(AccountOf(books.accounts, d.account), d.amount) ==> r == Err(CannotApply))
      && (WellFormed(d) && HasRoom(AccountOf(books.accounts, d.account), d.amount) ==>
            r.Ok? && OnlyChanges(books, r.value, d.account, d.amount.amount, 0))
  {
    hide Sound, ApplySide, HasRoom, OnlyChanges;
    var r := DepositRequest(uid, d);
    DepositSound(uid, d);
    if WellFormed(d) {
      CreditApplies(books, d.created, r, moveKey);
      if HasRoom(AccountOf(books.accounts, d.account), d.amount) { PlacedChanges(books, d.created, r, moveKey); }
    }
  }

  /** A deposit under a new uid is credited to its account exactly if it is well-formed and there is
      room for it; under a known uid the same deposit changes nothing and another is refused. */
  lemma DepositOutcome(crypto: Crypto, s: State, uid: string, d: Deposit, moveKey: string)
    requires Reachable(crypto, s) && d.account != ""
    ensures var r := PlaceDeposit(s, uid, d, moveKey);
      if uid in s.deposits then
        var known := s.deposits[uid];
        r == if known.account == d.account && known.amount == d.amount && known.reference == d.reference
                && known.dType == d.dType then Ok(s) else Err(DifferentDeposit)
      else if !WellFormed(d) then r == Err(InvalidMovement)
      else if !HasRoom(AccountOf(s.books.accounts, d.account), d.amount) then r == Err(CannotApply)
      else
        && r.Ok? && r.value == s.(books := r.value.books, deposits := s.deposits[uid := d])
        && OnlyChanges(s.books, r.value.books, d.account, d.amount.amount, 0)
  {
    hide Reachable, Invariant, Place, WellFormed, HasRoom, OnlyChanges, DepositRequest;
    ReachableOk(crypto, s);
    InvariantAccounts(crypto, s);
    DepositPlaced(s.books, uid, d, moveKey);
  }

  lemma InvariantAccounts(crypto: Crypto, s: State)
    requires Invariant(crypto, s)
    ensures AccountsOk(s.books.accounts)
  {
    hide BooksOk, BidsOk, TxsLinked, BidsLinked, Escrowed, CurrenciesAgree, TasksPending, TxsOk, HotOk, Explained, SettledOnce;
    BooksAccounts(s.books);
  }

  // ---------------------------------------------------------------- when a bid is accepted

  /** A sell is accepted if its author could be paid: nothing is asked, or the account is in the
      currency of the price or empty, and the price fits in beside what is available. */
  predicate SellAccepted(a: Account, price: Money) {
    && (price.amount == 0 || a.currency == price.currency || (a.available == 0 && a.blocked == 0))
    && a.available + price.amount <= MAX64
  }

  /** A buy is accepted if price and fee are available in the currency of the price. */
  predicate BuyAccepted(a: Account, price: Money, fee: int) {
    && price.amount + fee <= a.available
    && (price.amount + fee == 0 || a.currency == price.currency)
  }

  lemma SellChecked(accounts: map<string, Account>, b: Bid)
    requires BidOk(b) && b.bidType == Sell && Healthy(AccountOf(accounts, b.participant))
    ensures CheckBalance(accounts, b) == if SellAccepted(AccountOf(accounts, b.participant), b.price)
                                         then Ok(Touch(accounts, b.participant)) else Err(WrongCurrency)
  {
    CanApplyIsExact(AccountOf(accounts, b.participant), Available, b.price);
    hide CanApply;
  }

  lemma BuyChecked(accounts: map<string, Account>, b: Bid)
    requires BidOk(b) && b.bidType == Buy && Healthy(AccountOf(accounts, b.participant))
    ensures CheckBalance(accounts, b) == if BuyAccepted(AccountOf(accounts, b.participant), b.price, b.fee.amount)
                                         then Ok(Touch(accounts, b.participant)) else Err(InsufficientFunds)
  {
    BidTotal(b);
    CanApplyIsExact(AccountOf(accounts, b.participant), Available, b.price.Add(b.fee).Neg());
    hide CanApply;
  }

  lemma BookingSound(b: Bid, key: string)
    requires BidOk(b)
    ensures Sound(BidRequest(b, key, BidBooked, b.price.Add(b.fee).Neg(), b.price.Add(b.fee)))
  {
    BidTotal(b);
  }

  /** An entry that blocks available money can be placed if the account stays within range. */
  lemma BlockingApplies(books: Books, now: int, r: Request, key: string, p: string, amount: int)
    requires AccountsOk(books.accounts) && p != "" && Sound(r)
    requires r.availableAccount == r.blockedAccount == p
    requires r.availableDelta.amount == -amount && r.blockedDelta.amount == amount
    requires r.blockedDelta.currency == r.availableDelta.currency
    requires var a := AccountOf(books.accounts, p);
      && 0 <= amount <= a.available && a.available + a.blocked <= MAX64
      && (amount == 0 || a.currency == r.availableDelta.currency)
    ensures Place(books, now, r, key).Ok?
  {
    var a := AccountOf(books.accounts, p);
    CanApplyIsExact(a, Available, r.availableDelta);
    ApplyFacts(a, Available, r.availableDelta);
    var middle := ApplySide(books.accounts, p, Available, r.availableDelta, key).value.0;
    CanApplyIsExact(AccountOf(middle, p), Blocked, r.blockedDelta);
  }

  lemma BookingSucceeds(s: State, b: Bid, key: string, moveKey: string)
    requires BooksOk(s.books) && DepositsFit(s) && BidOk(b) && b.bidType == Buy
    requires BuyAccepted(AccountOf(s.books.accounts, b.participant), b.price, b.fee.amount)
    ensures BookBid(s.books.(accounts := Touch(s.books.accounts, b.participant)), b, key, moveKey).Ok?
  {
    hide BooksOk, DepositsFit, Place, Sound;
    var touched := Touch(s.books.accounts, b.participant);
    BooksAccounts(s.books);
    AccountFits(s, b.participant);
    BidTotal(b);
    BookingSound(b, key);
    TouchedOk(s.books.accounts, b.participant);
    BlockingApplies(s.books.(accounts := touched), b.created,
                    BidRequest(b, key, BidBooked, b.price.Add(b.fee).Neg(), b.price.Add(b.fee)), moveKey,
                    b.participant, Total(b));
  }

  lemma TouchedOk(accounts: map<string, Account>, p: string)
    requires AccountsOk(accounts) && p != ""
    ensures AccountsOk(Touch(accounts, p))
    ensures forall q :: AccountOf(Touch(accounts, p), q) == AccountOf(accounts, q)
  {
  }

  lemma EnqueueOutcome(s: State, b: Bid, key: string, moveKey: string)
    requires BooksOk(s.books) && DepositsFit(s) && BidOk(b)
    ensures var a := AccountOf(s.books.accounts, b.participant);
      var r := EnqueueBid(s, b, key, moveKey);
      if b.bidType == Sell then if SellAccepted(a, b.price) then r.Ok? else r == Err(WrongCurrency)
      else if BuyAccepted(a, b.price, b.fee.amount) then r.Ok? else r == Err(InsufficientFunds)
  {
    hide BooksOk, DepositsFit, BidOk, CheckBalance, BookBid, SellAccepted, BuyAccepted, MatchKey, Touch;
    BooksAccounts(s.books);
    HealthyAccount(s.books.accounts, b.participant);
    HasParticipant(b);
    if b.bidType == Sell {
      SellChecked(s.books.accounts, b);
      SellsBlockNothing(s.books.(accounts := Touch(s.books.accounts, b.participant)), b, key, moveKey);
    } else {
      BuyChecked(s.books.accounts, b);
      if BuyAccepted(AccountOf(s.books.accounts, b.participant), b.price, b.fee.amount) {
        BookingSucceeds(s, b, key, moveKey);
      }
    }
  }

  lemma HasParticipant(b: Bid)
    requires BidOk(b)
    ensures b.participant != ""
  {
  }

  lemma SellsBlockNothing(books: Books, b: Bid, key: string, moveKey: string)
    requires b.bidType == Sell
    ensures BookBid(books, b, key, moveKey) == Ok(books)
  {
  }

  /** What an accepted bid does: it is stored, its retirement and its match are on their way, and
      the money it calls for is blocked; nobody else's account changes. */
  ghost predicate Accepts(s: State, s': State, b: Bid, key: string) {
    && s'.bids == s.bids[key := b] && s'.txs == s.txs
    && RetireBidTask(key, b.expires) in s'.tasks
    && (MatchKey(b.article, b.price.currency), HotBid(key, b.bidType, b.price, b.expires)) in s'.hotQueue
    && var total := if b.bidType == Buy then b.price.amount + b.fee.amount else 0;
       OnlyChanges(s.books, s'.books, b.participant, -total, total)
  }

  lemma SameBefore(books: Books, touched: Books, after: Books, q: string, available: int, blocked: int)
    requires OnlyChanges(touched, after, q, available, blocked)
    requires forall p :: AccountOf(touched.accounts, p) == AccountOf(books.accounts, p)
    ensures OnlyChanges(books, after, q, available, blocked)
  {
    forall p ensures Changes(books, after, p, q, available, blocked) {
      assert Changes(touched, after, p, q, available, blocked);
    }
  }

  lemma CheckTouches(accounts: map<string, Account>, b: Bid)
    requires CheckBalance(accounts, b).Ok?
    ensures CheckBalance(accounts, b).value == Touch(accounts, b.participant)
  {
    hide CanApply;
  }

  lemma BookingChanges(books: Books, b: Bid, key: string, moveKey: string)
    requires AccountsOk(books.accounts) && BidOk(b) && BookBid(books, b, key, moveKey).Ok?
    ensures var total := if b.bidType == Buy then b.price.amount + b.fee.amount else 0;
      OnlyChanges(books, BookBid(books, b, key, moveKey).value, b.participant, -total, total)
  {
    hide Place, OnlyChanges;
    BidTotal(b);
    if b.bidType == Buy {
      PlacedChanges(books, b.created, BidRequest(b, key, BidBooked, b.price.Add(b.fee).Neg(), b.price.Add(b.fee)), moveKey);
    } else {
      NothingChanges(books, b.participant);
    }
  }

  lemma BidEffects(s: State, b: Bid, key: string, moveKey: string)
    requires BooksOk(s.books) && BidOk(b) && EnqueueBid(s, b, key, moveKey).Ok?
    ensures Accepts(s, EnqueueBid(s, b, key, moveKey).value, b, key)
  {
    hide BooksOk, BidOk, BookBid, CheckBalance, MatchKey, Touch, OnlyChanges;
    var touched := s.books.(accounts := Touch(s.books.accounts, b.participant));
    BooksAccounts(s.books);
    HasParticipant(b);
    TouchedOk(s.books.accounts, b.participant);
    CheckTouches(s.books.accounts, b);
    BookingChanges(touched, b, key, moveKey);
    var total := if b.bidType == Buy then b.price.amount + b.fee.amount else 0;
    SameBefore(s.books, touched, EnqueueBid(s, b, key, moveKey).value.books, b.participant, -total, total);
  }

  /** Exactly when a stated bid is accepted, from its author's account alone, and which error it
      meets otherwise. */
  lemma BidAccepted(crypto: Crypto, s: State, bidType: string, article: string, price: string, participant: string,
                    now: int, bidKey: string, moveKey: string)
    requires Reachable(crypto, s) && DepositsFit(s) && now >= 0 && participant != ""
    requires ParseBid(bidType, article, price, participant, now, SERVER_DEFAULTS).Ok?
    ensures var b := ParseBid(bidType, article, price, participant, now, SERVER_DEFAULTS).value;
      var a := AccountOf(s.books.accounts, participant);
      var r := Attempt(crypto, s, DoEnqueue(bidType, article, price, participant, now, bidKey, moveKey));
      && (bidType == "SELL" ==> if SellAccepted(a, b.price) then r.Ok? else r == Err(WrongCurrency))
      && (bidType == "BUY" ==>
            if BuyAccepted(a, b.price, b.fee.amount) then r.Ok? else r == Err(InsufficientFunds))
      && (bidType == "SELL" || bidType == "BUY")
      && (r.Ok? ==> Accepts(s, r.value, b, bidKey))
  {
    hide Accepts, Reachable, BooksOk, BidsOk, TxsLinked, BidsLinked, Escrowed, CurrenciesAgree, TasksPending,
         TxsOk, HotOk, SettledOnce, Explained, DepositsFit, EnqueueBid, SellAccepted, BuyAccepted, ParseBid, BidOk;
    ReachableOk(crypto, s);
    ParsedBidOk(bidType, article, price, participant, now);
    ParsedBidFields(bidType, article, price, participant, now);
    ParsedType(bidType, article, price, participant, now);
    var b := ParseBid(bidType, article, price, participant, now, SERVER_DEFAULTS).value;
    EnqueueOutcome(s, b, bidKey, moveKey);
    if EnqueueBid(s, b, bidKey, moveKey).Ok? { BidEffects(s, b, bidKey, moveKey); }
  }

  lemma ParsedType(bidType: string, article: string, price: string, participant: string, now: int)
    requires ParseBid(bidType, article, price, participant, now, SERVER_DEFAULTS).Ok?
    ensures var b := ParseBid(bidType, article, price, participant, now, SERVER_DEFAULTS).value;
      (bidType == "BUY" && b.bidType == Buy) || (bidType == "SELL" && b.bidType == Sell)
  {
    hide MoneyText.Reading, FeeAmount;
  }

  // ---------------------------------------------------------------- matching

  /** Two bids that fit together and are both still to be had at the given time. */
  predicate Suitable(n: Bid, o: Bid, time: int) {
    && n.bidType != o.bidType && n.article == o.article && n.price.currency == o.price.currency
    && n.state == InQueue && (o.state == InQueue || o.state == Placed)
    && n.expires > time && o.expires > time
  }

  lemma SuitableTransaction(n: Bid, o: Bid, time: int, newKey: string, oldKey: string)
    ensures var r := NewTransaction(time, newKey, oldKey, n, AsPlaced(o));
      if !Suitable(n, o, time) then r == Err(NonMatchingBids)
      else && r.Ok?
           && var (tx, n', o') := r.value;
           && n' == n.(matched := Some(time), state := Matched) && o' == o.(matched := Some(time), state := Matched)
           && Opens(tx, n, o, time, newKey, oldKey)
  {
  }

  /** A new transaction: the older bid sets the terms, and 60 seconds are granted. */
  predicate Opens(tx: Tx, n: Bid, o: Bid, time: int, newKey: string, oldKey: string) {
    && tx.price == o.price && tx.fee == o.fee && tx.article == o.article
    && (n.bidType == Buy ==> tx.buyerBid == newKey && tx.buyer == n.participant
                             && tx.sellerBid == oldKey && tx.seller == o.participant)
    && (n.bidType == Sell ==> tx.buyerBid == oldKey && tx.buyer == o.participant
                              && tx.sellerBid == newKey && tx.seller == n.participant)
    && tx.matched == time && tx.timeout == time + 60 * SECOND && tx.state == Active && tx.phase == Establishing
    && tx.workerUrl == tx.workHash == tx.workSecretHash == tx.buyerSecret == tx.resultKey == None && tx.receipt == None
  }

  /** What the buyer gets back: the excess of its bid over the older bid. */
  function Excess(n: Bid, o: Bid): int {
    if n.bidType == Buy then (n.price.amount + n.fee.amount) - (o.price.amount + o.fee.amount) else 0
  }

  function BuyerOf(n: Bid, o: Bid): string {
    if n.bidType == Buy then n.participant else o.participant
  }

  /** The state after a match: a transaction on the older bid's terms, both bids matched, the
      retirement scheduled, and the buyer's excess available again. */
  ghost predicate Matching(s: State, s': State, time: int, newKey: string, oldKey: string, t: string)
    requires newKey in s.bids && oldKey in s.bids
  {
    var n, o := s.bids[newKey], s.bids[oldKey];
    && t in s'.txs && s'.txs == s.txs[t := s'.txs[t]] && Opens(s'.txs[t], n, o, time, newKey, oldKey)
    && s'.bids == s.bids[newKey := n.(matched := Some(time), state := Matched, transaction := Some(t))]
                        [oldKey := o.(matched := Some(time), state := Matched, transaction := Some(t))]
    && s'.tasks == s.tasks + multiset{RetireTxTask(t, time + 60 * SECOND)}
    && s' == s.(books := s'.books, bids := s'.bids, txs := s'.txs, tasks := s'.tasks)
    && OnlyChanges(s.books, s'.books, BuyerOf(n, o), Excess(n, o), -Excess(n, o))
  }

  lemma BookingOutcome(s: State, tx: Tx, t: string, n: Bid, o: Bid, time: int, newKey: string, oldKey: string, moveKey: string)
    requires BooksOk(s.books) && DepositsFit(s) && BidsOk(s.bids) && TxsLinked(s.bids, s.txs) && AllEscrowed(s)
    requires newKey in s.bids && oldKey in s.bids && n == s.bids[newKey] && o == s.bids[oldKey]
    requires Suitable(n, o, time) && Opens(tx, n, o, time, newKey, oldKey)
    ensures var b := if n.bidType == Buy then n else o;
      var r := BookTx(s.books, tx, t, b.(matched := Some(time), state := Matched), moveKey);
      if Excess(n, o) < 0 then r == Err(StrangePriceDelta)
      else r.Ok? && OnlyChanges(s.books, r.value, BuyerOf(n, o), Excess(n, o), -Excess(n, o))
  {
    hide BooksOk, DepositsFit, BidsOk, TxsLinked, Escrowed, CurrenciesAgree, Place, OnlyChanges;
    BidTotalAt(s.bids, newKey);
    BidTotalAt(s.bids, oldKey);
    BidOkAt(s.bids, newKey);
    BidOkAt(s.bids, oldKey);
    var b := (if n.bidType == Buy then n else o).(matched := Some(time), state := Matched);
    if Excess(n, o) >= 0 {
      FairBooking(s, tx, t, b, if n.bidType == Buy then newKey else oldKey, moveKey);
      BooksAccounts(s.books);
      ExcessBooked(s.books, tx, t, b, moveKey);
    } else {
      TooDear(s.books, tx, t, b, moveKey);
    }
  }

  lemma TooDear(books: Books, tx: Tx, t: string, b: Bid, moveKey: string)
    requires SameMoney(b, tx) && 0 <= Total(b) < TxTotal(tx) <= MAX64
    requires tx.price.Add(tx.fee) == Money(TxTotal(tx), tx.price.currency)
    requires b.price.Add(b.fee) == Money(Total(b), b.price.currency)
    ensures BookTx(books, tx, t, b, moveKey) == Err(StrangePriceDelta)
  {
  }

  lemma ExcessBooked(books: Books, tx: Tx, t: string, b: Bid, moveKey: string)
    requires AccountsOk(books.accounts) && SameMoney(b, tx) && 0 <= TxTotal(tx) <= Total(b) <= MAX64
    requires tx.price.Add(tx.fee) == Money(TxTotal(tx), tx.price.currency)
    requires b.price.Add(b.fee) == Money(Total(b), b.price.currency)
    requires BookTx(books, tx, t, b, moveKey).Ok?
    ensures var excess := Total(b) - TxTotal(tx);
      OnlyChanges(books, BookTx(books, tx, t, b, moveKey).value, tx.buyer, excess, -excess)
  {
    hide Place, Sound;
    var r := ExcessRequest(b, tx, t);
    if Total(b) > TxTotal(tx) { PlacedChanges(books, tx.matched, r, moveKey); }
  }

  /** Exactly when two bids are joined, which error they meet otherwise, and what comes of it. */
  lemma MatchOutcome(crypto: Crypto, s: State, time: int, newKey: string, oldKey: string, t: string, moveKey: string)
    requires Reachable(crypto, s) && DepositsFit(s)
    ensures var r := MatchBids(s, time, newKey, oldKey, t, moveKey);
      if newKey !in s.bids || oldKey !in s.bids then r == Err(NoSuchObject)
      else if !Suitable(s.bids[newKey], s.bids[oldKey], time) then r == Err(NonMatchingBids)
      else if Excess(s.bids[newKey], s.bids[oldKey]) < 0 then r == Err(StrangePriceDelta)
      else r.Ok? && Matching(s, r.value, time, newKey, oldKey, t)
  {
    hide Reachable, BooksOk, BidsOk, TxsLinked, BidsLinked, Escrowed, CurrenciesAgree, TasksPending, TxsOk, HotOk, SettledOnce,
         Explained, DepositsFit, NewTransaction, BookTx, Suitable, Excess, OnlyChanges;
    ReachableOk(crypto, s);
    if newKey in s.bids && oldKey in s.bids {
      var n, o := s.bids[newKey], s.bids[oldKey];
      SuitableTransaction(n, o, time, newKey, oldKey);
      if Suitable(n, o, time) {
        var tx := NewTransaction(time, newKey, oldKey, n, AsPlaced(o)).value.0;
        SuitableTypes(n, o, time);
        BookingOutcome(s, tx, t, n, o, time, newKey, oldKey, moveKey);
      }
    }
  }

  lemma SuitableTypes(n: Bid, o: Bid, time: int)
    requires Suitable(n, o, time)
    ensures n.bidType != o.bidType
  {
  }

  // ---------------------------------------------------------------- retirement

  /** The retirement of a bid: an open one expires, and an open buy gets price and fee back; one
      that is matched or expired stays as it is. */
  lemma BidRetirementOutcome(crypto: Crypto, s: State, k: string, now: int, moveKey: string)
    requires Reachable(crypto, s) && DepositsFit(s)
    ensures var r := RetireBidStep(s, k, now, moveKey);
      if k !in s.bids then r == Err(NoSuchObject)
      else
        var b := s.bids[k];
        if b.state == Matched || b.state == Expired then r == Ok(s)
        else
          var refund := if b.bidType == Buy then b.price.amount + b.fee.amount else 0;
          && r.Ok? && r.value == s.(books := r.value.books, bids := s.bids[k := b.(state := Expired)])
          && OnlyChanges(s.books, r.value.books, b.participant, refund, -refund)
  {
    hide Reachable, Invariant, DepositsFit, Place, OnlyChanges;
    ReachableOk(crypto, s);
    if k in s.bids && IsOpen(s.bids[k]) {
      CreatedOf(crypto, s, k);
      BidTotalOf(crypto, s, k);
      if s.bids[k].bidType == Buy {
        OpenBidCanRetire(crypto, s, k, now, moveKey);
        InvariantAccounts(crypto, s);
        PlacedChanges(s.books, now, RefundRequest(s.bids[k], k), moveKey);
      } else {
        NothingChanges(s.books, s.bids[k].participant);
      }
    } else if k in s.bids {
      assert s.bids[k := s.bids[k]] == s.bids;
    }
  }

  lemma NothingChanges(books: Books, q: string)
    ensures OnlyChanges(books, books, q, 0, 0)
  {
  }

  lemma BidTotalOf(crypto: Crypto, s: State, k: string)
    requires Invariant(crypto, s) && k in s.bids
    ensures var b := s.bids[k];
      && 0 <= Total(b) <= MAX64 && b.price.currency == b.fee.currency
      && b.price.Add(b.fee) == Money(Total(b), b.price.currency)
  {
    hide BooksOk, BidsOk, TxsLinked, BidsLinked, Escrowed, CurrenciesAgree, TasksPending, TxsOk, HotOk, Explained, SettledOnce;
    BidTotalAt(s.bids, k);
  }

  /** The retirement of a transaction: never twice, never before its timeout, and then by phase. */
  lemma TxRetirementOutcome(crypto: Crypto, s: State, t: string, now: int, moveKey: string)
    requires Reachable(crypto, s) && DepositsFit(s)
    ensures var r := RetireTransaction(s, t, now, moveKey);
      if t !in s.txs then r == Err(NoSuchObject)
      else
        var tx := s.txs[t];
        if tx.state == Retired then r == Err(AlreadyRetired)
        else if now < tx.timeout then r == Err(TooYoung)
        else if (tx.phase == Finished || tx.phase == Unverified)
                && !CanTake(AccountOf(s.books.accounts, tx.seller), tx.price) then
          r == Err(CannotApply)
        else
          && r.Ok?
          && r.value == s.(books := r.value.books, txs := s.txs[t := tx.(state := Retired, revision := tx.revision + 1)])
          && forall p :: SettlesFor(tx, AccountOf(s.books.accounts, p), AccountOf(r.value.books.accounts, p), p)
  {
    hide Reachable, Invariant, DepositsFit, Place, CanTake, SettlesFor, SettlementRequest;
    ReachableOk(crypto, s);
    if t in s.txs {
      TxTotalOf(crypto, s, t);
      var tx := s.txs[t];
      if tx.state == Active && tx.timeout <= now {
        if PaysSeller(tx) {
          PaidTxCanRetire(crypto, s, t, now, moveKey);
          PaymentRefused(s.books, tx, t, now, moveKey);
        } else {
          FailedTxCanRetire(crypto, s, t, now, moveKey);
        }
        if RetireTransaction(s, t, now, moveKey).Ok? { ReachableSettles(crypto, s, t, now, moveKey); }
      }
    }
  }

  lemma TxTotalOf(crypto: Crypto, s: State, t: string)
    requires Invariant(crypto, s) && t in s.txs
    ensures var tx := s.txs[t];
      tx.price.currency == tx.fee.currency && 0 <= tx.price.amount && 0 <= tx.fee.amount && TxTotal(tx) <= MAX64
  {
    hide BooksOk, BidsOk, BidsLinked, Escrowed, CurrenciesAgree, TasksPending, TxsOk, HotOk, Explained, SettledOnce;
    assert Linked(s.bids, t, s.txs[t]);
    TxAmounts(s.bids, t, s.txs[t]);
  }

  lemma PaymentRefused(books: Books, tx: Tx, t: string, now: int, moveKey: string)
    requires tx.price.currency == tx.fee.currency && PaysSeller(tx)
    requires 0 <= tx.price.amount && 0 <= tx.fee.amount && TxTotal(tx) <= MAX64
    ensures !CanTake(AccountOf(books.accounts, tx.seller), tx.price) ==>
              Place(books, now, SettlementRequest(tx, t), moveKey) == Err(CannotApply)
  {
    SettlementSound(tx, t);
    hide Sound;
  }
}
