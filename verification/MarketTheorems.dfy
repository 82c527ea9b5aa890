/** What participants can rely on in every run of the market. */
module MarketTheorems {
  import opened Prelude
  import opened Amounts
  import MoneyText
  import opened Ledger
  import opened LedgerProofs
  import opened Bids
  import opened Transactions
  import opened TransactionProofs
  import opened OrderBook
  import opened Market
  import opened MarketInvariant
  import opened MarketSteps
  import opened MarketSteps2
  import opened MarketRuns

  // ---------------------------------------------------------------- money

  /** In every reachable state each participant's blocked amount is exactly the sum of what its
      open buys and active purchases call for, in the account's own currency. */
  lemma EscrowIsExact(crypto: Crypto, s: State, p: string)
    requires Reachable(crypto, s)
    ensures AccountOf(s.books.accounts, p).blocked == Obligations(s.bids, s.txs, p)
    ensures CurrenciesAgree(s.books.accounts, s.bids, s.txs)
  {
    hide Reachable;
    ReachableOk(crypto, s);
  }

  /** In every reachable state, per currency, what all accounts hold plus the collected fees is
      what was deposited, and no balance is negative or out of range. */
  lemma MoneyIsConserved(crypto: Crypto, s: State, c: Currency)
    requires Reachable(crypto, s)
    ensures TotalHeld(s.books, c) + FeesCollected(s.books, c) == NetDeposits(s.books, c)
    ensures 0 <= FeesCollected(s.books, c) && 0 <= TotalHeld(s.books, c) <= NetDeposits(s.books, c)
    ensures forall p :: 0 <= AccountOf(s.books.accounts, p).available <= MAX64
    ensures forall p :: 0 <= AccountOf(s.books.accounts, p).blocked <= MAX64
  {
    hide Reachable, BooksOk, BidsOk, TxsLinked, BidsLinked, Escrowed, CurrenciesAgree, TasksPending, TxsOk, HotOk, Explained, SettledOnce;
    ReachableOk(crypto, s);
    BooksConserve(s.books, c);
  }

  lemma BooksConserve(books: Books, c: Currency)
    requires BooksOk(books)
    ensures TotalHeld(books, c) + FeesCollected(books, c) == NetDeposits(books, c)
    ensures 0 <= FeesCollected(books, c) && 0 <= TotalHeld(books, c) <= NetDeposits(books, c)
    ensures forall p :: 0 <= AccountOf(books.accounts, p).available <= MAX64
    ensures forall p :: 0 <= AccountOf(books.accounts, p).blocked <= MAX64
  {
    hide Chained;
    SumNonNegative(FeesBy(books.movements, c));
    SumNonNegative(Holdings(books.accounts, c));
    forall p ensures Healthy(AccountOf(books.accounts, p)) {
      HealthyAccount(books.accounts, p);
    }
  }

  /** In every reachable state each account has exactly one history: the walk along its
      predecessors ends, visits exactly its movements, and sums up to both balances. */
  lemma HistoriesAreComplete(crypto: Crypto, s: State, p: string)
    requires Reachable(crypto, s)
    ensures exists ks ::
      && IsHistory(s.books.movements, AccountOf(s.books.accounts, p), p, ks)
      && forall js :: IsChain(s.books.movements, p, AccountOf(s.books.accounts, p).last, js) ==> js == ks
  {
    hide Reachable, Escrowed, CurrenciesAgree, SettledOnce, Explained, Conserved, TxsOk, HotOk, TasksPending;
    ReachableOk(crypto, s);
    assert HasHistory(s.books, p);
    var a := AccountOf(s.books.accounts, p);
    var ks :| IsHistory(s.books.movements, a, p, ks);
    forall js | IsChain(s.books.movements, p, a.last, js) ensures js == ks {
      ChainUnique(s.books.movements, p, a.last, js, ks);
    }
  }

  /** In every reachable state every cause has been moved at most once, exactly when the state
      calls for it, and by exactly the amounts it calls for. */
  lemma MovedExactlyOnce(crypto: Crypto, s: State, c: Cause)
    requires Reachable(crypto, s)
    ensures |Moves(s.books.movements, c)| == if Expected(s.deposits, s.bids, s.txs, c) then 1 else 0
    ensures forall k :: k in s.books.movements ==> Fits(s.books.movements[k].request, s.deposits, s.bids, s.txs)
  {
    hide Reachable;
    ReachableOk(crypto, s);
  }

  // ---------------------------------------------------------------- refunds

  /** Net deposits in every currency fit into an int64. */
  ghost predicate DepositsFit(s: State) {
    forall c :: NetDeposits(s.books, c) <= MAX64
  }

  lemma RefundApplies(books: Books, now: int, r: Request, key: string, p: string, amount: int)
    requires AccountsOk(books.accounts) && p != "" && Sound(r)
    requires r.availableAccount == r.blockedAccount == p
    requires var a := AccountOf(books.accounts, p);
             && a.available + a.blocked <= MAX64
             && 0 <= amount <= a.blocked
             && r.availableDelta.amount == amount && r.blockedDelta.amount == -amount
             && (amount > 0 ==> r.availableDelta.currency == r.blockedDelta.currency == a.currency)
    ensures Place(books, now, r, key).Ok?
  {
    var a := AccountOf(books.accounts, p);
    CanApplyIsExact(a, Available, r.availableDelta);
    ApplyFacts(a, Available, r.availableDelta);
    var middle := ApplySide(books.accounts, p, Available, r.availableDelta, key).value.0;
    var b := AccountOf(middle, p);
    CanApplyIsExact(b, Blocked, r.blockedDelta);
  }

  lemma AccountFits(s: State, p: string)
    requires BooksOk(s.books) && DepositsFit(s)
    ensures var a := AccountOf(s.books.accounts, p); a.available + a.blocked <= MAX64
  {
    HoldingBounded(s.books, p);
  }

  lemma BidRefundFits(s: State, k: string)
    requires BidsOk(s.bids) && TxsLinked(s.bids, s.txs) && AllEscrowed(s)
    requires k in s.bids && s.bids[k].bidType == Buy && IsOpen(s.bids[k])
    ensures var b := s.bids[k];
            var a := AccountOf(s.books.accounts, b.participant);
            && b.participant != "" && b.price.currency == b.fee.currency
            && 0 <= Total(b) <= a.blocked
            && (Total(b) > 0 ==> a.currency == b.price.currency)
            && RefundRequest(b, k).availableDelta == Money(Total(b), b.price.currency)
            && RefundRequest(b, k).blockedDelta == Money(-Total(b), b.price.currency)
            && Sound(RefundRequest(b, k))
  {
    AllDuesNonNegative(s.bids, s.txs);
    BidDueBounded(s.bids, s.txs, k);
    BidTotalAt(s.bids, k);
    assert BidOk(s.bids[k]);
  }

  lemma OpenBidRefund(s: State, k: string, now: int, moveKey: string)
    requires BooksOk(s.books) && DepositsFit(s)
    requires BidsOk(s.bids) && TxsLinked(s.bids, s.txs) && AllEscrowed(s)
    requires k in s.bids && s.bids[k].bidType == Buy && IsOpen(s.bids[k])
    ensures s.bids[k].price.currency == s.bids[k].fee.currency
    ensures Place(s.books, now, RefundRequest(s.bids[k], k), moveKey).Ok?
  {
    hide BidsOk, TxsLinked, Escrowed, CurrenciesAgree, Conserved, Chained, MovementsSound, DepositsFit, AccountsOk, Sound, Place;
    BidRefundFits(s, k);
    AccountFits(s, s.bids[k].participant);
    RefundApplies(s.books, now, RefundRequest(s.bids[k], k), moveKey, s.bids[k].participant, Total(s.bids[k]));
  }

  /** Refunds cannot get stuck: as long as net deposits fit into an int64, retiring an open buy
      succeeds in every reachable state, at any time. */
  lemma OpenBidCanRetire(crypto: Crypto, s: State, k: string, now: int, moveKey: string)
    requires Reachable(crypto, s) && DepositsFit(s)
    requires k in s.bids && s.bids[k].bidType == Buy && IsOpen(s.bids[k])
    ensures RetireBidStep(s, k, now, moveKey).Ok?
  {
    hide Reachable, BooksOk, BidsOk, TxsLinked, BidsLinked, Escrowed, CurrenciesAgree, TasksPending, TxsOk, HotOk, Explained, SettledOnce, Place, DepositsFit;
    ReachableOk(crypto, s);
    OpenBidRefund(s, k, now, moveKey);
  }

  lemma TxParties(bids: map<string, Bid>, txs: map<string, Tx>, t: string)
    requires BidsOk(bids) && TxsLinked(bids, txs) && t in txs
    ensures txs[t].buyer != "" && txs[t].seller != ""
  {
    assert Linked(bids, t, txs[t]);
    assert BidOk(bids[txs[t].buyerBid]) && BidOk(bids[txs[t].sellerBid]);
  }

  /** The amounts of a settlement request, in exact integers. */
  lemma SettlementAmounts(tx: Tx, t: string)
    requires tx.price.currency == tx.fee.currency
    requires 0 <= tx.price.amount && 0 <= tx.fee.amount && TxTotal(tx) <= MAX64
    ensures tx.price.Add(tx.fee) == Money(TxTotal(tx), tx.price.currency)
    ensures tx.price.Add(tx.fee).Neg() == Money(0 - TxTotal(tx), tx.price.currency)
  {
  }

  lemma PaymentSound(tx: Tx, t: string)
    requires tx.price.currency == tx.fee.currency
    requires 0 <= tx.price.amount && 0 <= tx.fee.amount && TxTotal(tx) <= MAX64
    ensures Sound(TxRequest(TxFinished, tx.seller, tx.buyer, tx.price, Money(0 - TxTotal(tx), tx.price.currency), tx.fee, t))
  {
  }

  lemma RefundSound(p: string, total: int64, c: Currency, t: string)
    requires 0 <= total
    ensures Sound(TxRequest(TxReimbursed, p, p, Money(total, c), Money(0 - total, c), Zero(c), t))
  {
  }

  lemma SettlementSound(tx: Tx, t: string)
    requires tx.price.currency == tx.fee.currency
    requires 0 <= tx.price.amount && 0 <= tx.fee.amount && TxTotal(tx) <= MAX64
    ensures tx.price.Add(tx.fee) == Money(TxTotal(tx), tx.price.currency)
    ensures Sound(SettlementRequest(tx, t))
    ensures SettlementRequest(tx, t).blockedDelta == Money(-TxTotal(tx), tx.price.currency)
  {
    hide Sound;
    SettlementAmounts(tx, t);
    PaymentSound(tx, t);
    RefundSound(tx.buyer, TxTotal(tx), tx.price.currency, t);
  }

  /** What an active transaction can count on. */
  predicate TxBacked(accounts: map<string, Account>, tx: Tx, t: string) {
    var a := AccountOf(accounts, tx.buyer);
    && tx.buyer != "" && tx.seller != "" && tx.price.currency == tx.fee.currency
    && 0 <= tx.price.amount && 0 <= tx.fee.amount && TxTotal(tx) <= a.blocked
    && (TxTotal(tx) > 0 ==> a.currency == tx.price.currency)
    && tx.price.Add(tx.fee) == Money(TxTotal(tx), tx.price.currency)
    && Sound(SettlementRequest(tx, t))
    && SettlementRequest(tx, t).blockedDelta == Money(-TxTotal(tx), tx.price.currency)
  }

  lemma TxRefundFits(s: State, t: string)
    requires BidsOk(s.bids) && TxsLinked(s.bids, s.txs) && AllEscrowed(s)
    requires t in s.txs && s.txs[t].state == Active
    ensures TxBacked(s.books.accounts, s.txs[t], t)
  {
    TxParties(s.bids, s.txs, t);
    AllDuesNonNegative(s.bids, s.txs);
    TxDueBounded(s.bids, s.txs, t);
    TxAmounts(s.bids, t, s.txs[t]);
    SettlementSound(s.txs[t], t);
    hide BidsOk, TxsLinked, Linked, SettlementRequest, Sound, DuesNonNegative, Obligations;
  }

  lemma FailedTxRefund(s: State, t: string, now: int, moveKey: string)
    requires BooksOk(s.books) && DepositsFit(s)
    requires BidsOk(s.bids) && TxsLinked(s.bids, s.txs) && AllEscrowed(s)
    requires t in s.txs && s.txs[t].state == Active && !PaysSeller(s.txs[t])
    ensures s.txs[t].price.currency == s.txs[t].fee.currency
    ensures Place(s.books, now, SettlementRequest(s.txs[t], t), moveKey).Ok?
  {
    hide BidsOk, TxsLinked, Escrowed, CurrenciesAgree, Conserved, Chained, MovementsSound, DepositsFit, AccountsOk, Sound, Place;
    TxRefundFits(s, t);
    AccountFits(s, s.txs[t].buyer);
    RefundApplies(s.books, now, SettlementRequest(s.txs[t], t), moveKey, s.txs[t].buyer, TxTotal(s.txs[t]));
  }

  /** Likewise, a due transaction that does not pay the seller can always be settled. */
  lemma FailedTxCanRetire(crypto: Crypto, s: State, t: string, now: int, moveKey: string)
    requires Reachable(crypto, s) && DepositsFit(s)
    requires t in s.txs && s.txs[t].state == Active && s.txs[t].timeout <= now && !PaysSeller(s.txs[t])
    ensures RetireTransaction(s, t, now, moveKey).Ok?
  {
    hide Reachable, BooksOk, BidsOk, TxsLinked, BidsLinked, Escrowed, CurrenciesAgree, TasksPending, TxsOk, HotOk, Explained, SettledOnce, Place, DepositsFit, SettlementRequest;
    ReachableOk(crypto, s);
    FailedTxRefund(s, t, now, moveKey);
  }

  // ---------------------------------------------------------------- paying the seller

  /** Whether an account can take a payment: its currency fits or can still change. */
  predicate CanTake(a: Account, payment: Money) {
    payment.amount == 0 || a.currency == payment.currency || CurrencyMutable(a)
  }

  /** Two accounts' money in one currency is bounded by what was deposited. */
  lemma TwoHoldingsBounded(books: Books, p: string, q: string, c: Currency)
    requires BooksOk(books) && p != q
    requires AccountOf(books.accounts, p).currency == c && AccountOf(books.accounts, q).currency == c
    ensures AccountOf(books.accounts, p).available + AccountOf(books.accounts, q).blocked
            <= if NetDeposits(books, c) >= 0 then NetDeposits(books, c) else 0
  {
    hide Chained, MovementsSound;
    BooksConserve(books, c);
    HoldingBounded(books, p);
    HoldingBounded(books, q);
    if p in books.accounts && q in books.accounts {
      SumBoundsTwoTerms(Holdings(books.accounts, c), p, q);
    }
  }

  lemma SellerHasRoom(s: State, tx: Tx, t: string)
    requires BooksOk(s.books) && DepositsFit(s) && TxBacked(s.books.accounts, tx, t)
    requires CanTake(AccountOf(s.books.accounts, tx.seller), tx.price)
    ensures AccountOf(s.books.accounts, tx.seller).available + tx.price.amount <= MAX64
  {
    hide BooksOk, Sound, SettlementRequest, NetDeposits;
    var seller, buyer := AccountOf(s.books.accounts, tx.seller), AccountOf(s.books.accounts, tx.buyer);
    BooksConserve(s.books, tx.price.currency);
    if tx.price.amount > 0 && !CurrencyMutable(seller) {
      if tx.seller == tx.buyer {
        AccountFits(s, tx.buyer);
      } else {
        TwoHoldingsBounded(s.books, tx.seller, tx.buyer, tx.price.currency);
      }
    }
  }

  lemma PaymentApplies(books: Books, now: int, r: Request, key: string)
    requires AccountsOk(books.accounts) && Sound(r) && r.availableAccount != "" && r.blockedAccount != ""
    requires r.mType == TxFinished
    requires var seller, buyer := AccountOf(books.accounts, r.availableAccount), AccountOf(books.accounts, r.blockedAccount);
             && seller.available + r.availableDelta.amount <= MAX64
             && r.blockedDelta.amount <= 0 <= buyer.blocked + r.blockedDelta.amount
             && (r.blockedDelta.amount != 0 ==> r.blockedDelta.currency == buyer.currency)
    ensures Place(books, now, r, key).Ok? <==> CanTake(AccountOf(books.accounts, r.availableAccount), r.availableDelta)
  {
    var seller := AccountOf(books.accounts, r.availableAccount);
    HealthyAccount(books.accounts, r.availableAccount);
    CanApplyIsExact(seller, Available, r.availableDelta);
    if CanTake(seller, r.availableDelta) {
      SideFacts(books.accounts, r.availableAccount, Available, r.availableDelta, key);
      var middle := ApplySide(books.accounts, r.availableAccount, Available, r.availableDelta, key).value.0;
      var buyer := AccountOf(middle, r.blockedAccount);
      HealthyAccount(middle, r.blockedAccount);
      CanApplyIsExact(buyer, Blocked, r.blockedDelta);
    }
  }

  lemma PaymentSucceeds(s: State, t: string, now: int, moveKey: string)
    requires BooksOk(s.books) && DepositsFit(s)
    requires BidsOk(s.bids) && TxsLinked(s.bids, s.txs) && AllEscrowed(s)
    requires t in s.txs && s.txs[t].state == Active && PaysSeller(s.txs[t])
    ensures s.txs[t].price.currency == s.txs[t].fee.currency
    ensures Place(s.books, now, SettlementRequest(s.txs[t], t), moveKey).Ok? <==>
            CanTake(AccountOf(s.books.accounts, s.txs[t].seller), s.txs[t].price)
  {
    hide BidsOk, TxsLinked, Escrowed, CurrenciesAgree, Conserved, Chained, MovementsSound, DepositsFit, AccountsOk, Sound,
         Place, CanTake, CurrencyMutable;
    var tx := s.txs[t];
    TxRefundFits(s, t);
    if CanTake(AccountOf(s.books.accounts, tx.seller), tx.price) {
      SellerHasRoom(s, tx, t);
      PaymentApplies(s.books, now, SettlementRequest(tx, t), moveKey);
    } else if Place(s.books, now, SettlementRequest(tx, t), moveKey).Ok? {
      PaymentNeedsCurrency(s.books, now, SettlementRequest(tx, t), moveKey);
    }
  }

  lemma PaymentNeedsCurrency(books: Books, now: int, r: Request, key: string)
    requires Place(books, now, r, key).Ok?
    ensures CanTake(AccountOf(books.accounts, r.availableAccount), r.availableDelta)
  {
  }

  /** A due transaction that pays the seller can be settled exactly when the seller's account
      is in the transaction's currency or empty. */
  lemma PaidTxCanRetire(crypto: Crypto, s: State, t: string, now: int, moveKey: string)
    requires Reachable(crypto, s) && DepositsFit(s)
    requires t in s.txs && s.txs[t].state == Active && s.txs[t].timeout <= now && PaysSeller(s.txs[t])
    ensures RetireTransaction(s, t, now, moveKey).Ok? <==>
            CanTake(AccountOf(s.books.accounts, s.txs[t].seller), s.txs[t].price)
  {
    hide Reachable, BooksOk, BidsOk, TxsLinked, BidsLinked, Escrowed, CurrenciesAgree, TasksPending, TxsOk, HotOk, Explained, SettledOnce, Place, DepositsFit, SettlementRequest,
         CanTake;
    ReachableOk(crypto, s);
    PaymentSucceeds(s, t, now, moveKey);
  }

  // ---------------------------------------------------------------- fair matches

  lemma FairTotals(bids: map<string, Bid>, time: int, newKey: string, oldKey: string)
    requires BidsOk(bids) && FairKeys(bids, time, newKey, oldKey)
    ensures var (buy, sell) := if bids[newKey].bidType == Buy then (newKey, oldKey) else (oldKey, newKey);
            && bids[sell].price.amount <= bids[oldKey].price.amount <= bids[buy].price.amount
            && Total(bids[oldKey]) <= Total(bids[buy])
  {
    assert BidOk(bids[newKey]) && BidOk(bids[oldKey]);
    if bids[newKey].bidType == Buy {
      FeeMonotone(SERVER_DEFAULTS, bids[oldKey].price.amount, bids[newKey].price.amount);
    }
  }

  /** Whether both bids are still to be had. */
  predicate BothAvailable(n: Bid, o: Bid, time: int) {
    n.state == InQueue && IsOpen(o) && n.expires > time
  }

  lemma FairNewTransaction(n: Bid, o: Bid, time: int, newKey: string, oldKey: string)
    requires n.bidType != o.bidType && n.article == o.article && n.price.currency == o.price.currency
    requires o.expires > time
    ensures NewTransaction(time, newKey, oldKey, n, AsPlaced(o)).Ok? <==> BothAvailable(n, o, time)
    ensures NewTransaction(time, newKey, oldKey, n, AsPlaced(o)).Ok? ==>
            var (tx, n', o') := NewTransaction(time, newKey, oldKey, n, AsPlaced(o)).value;
            && tx.price == o.price && tx.fee == o.fee
            && n'.price == n.price && n'.fee == n.fee && o'.price == o.price && o'.fee == o.fee
            && n'.bidType == n.bidType
            && tx.buyer == (if n.bidType == Buy then n.participant else o.participant)
  {
  }

  lemma ExcessSound(b: Bid, tx: Tx, t: string)
    requires BidOk(b) && 0 <= TxTotal(tx) < Total(b)
    requires b.price.currency == b.fee.currency == tx.price.currency == tx.fee.currency
    requires tx.price.Add(tx.fee) == Money(TxTotal(tx), tx.price.currency)
    ensures Sound(ExcessRequest(b, tx, t))
  {
    ExcessAmounts(b, tx, t);
  }

  lemma FairBooking(s: State, tx: Tx, t: string, b: Bid, buyKey: string, moveKey: string)
    requires BooksOk(s.books) && DepositsFit(s) && BidsOk(s.bids) && TxsLinked(s.bids, s.txs) && AllEscrowed(s)
    requires buyKey in s.bids && s.bids[buyKey].bidType == Buy && IsOpen(s.bids[buyKey])
    requires b.price == s.bids[buyKey].price && b.fee == s.bids[buyKey].fee && tx.buyer == s.bids[buyKey].participant
    requires 0 <= TxTotal(tx) <= Total(b)
    requires b.price.currency == b.fee.currency == tx.price.currency == tx.fee.currency
    requires tx.price.Add(tx.fee) == Money(TxTotal(tx), tx.price.currency)
    ensures BookTx(s.books, tx, t, b, moveKey).Ok?
  {
    var buy := s.bids[buyKey];
    BidRefundFits(s, buyKey);
    AccountFits(s, buy.participant);
    assert BidOk(buy);
    hide BooksOk, DepositsFit, BidsOk, TxsLinked, Escrowed, CurrenciesAgree, Sound;
    ExcessAmounts(buy, tx, t);
    if TxTotal(tx) < Total(b) {
      ExcessSound(buy, tx, t);
      assert AccountsOk(s.books.accounts) by { BooksAccounts(s.books); }
      RefundApplies(s.books, tx.matched, ExcessRequest(buy, tx, t), moveKey, buy.participant, Total(b) - TxTotal(tx));
    }
  }

  lemma BooksAccounts(books: Books)
    requires BooksOk(books)
    ensures AccountsOk(books.accounts)
  {
  }

  lemma FairMatch(s: State, time: int, newKey: string, oldKey: string, t: string, moveKey: string)
    requires BooksOk(s.books) && DepositsFit(s) && BidsOk(s.bids) && TxsLinked(s.bids, s.txs) && AllEscrowed(s)
    requires FairKeys(s.bids, time, newKey, oldKey)
    ensures MatchBids(s, time, newKey, oldKey, t, moveKey).Ok? <==> BothAvailable(s.bids[newKey], s.bids[oldKey], time)
    ensures MatchBids(s, time, newKey, oldKey, t, moveKey) != Err(StrangePriceDelta)
  {
    hide BooksOk, DepositsFit, BidsOk, TxsLinked, Escrowed, CurrenciesAgree, Place, NewTransaction, BookTx, BothAvailable;
    var n, o := s.bids[newKey], s.bids[oldKey];
    FairNewTransaction(n, o, time, newKey, oldKey);
    if BothAvailable(n, o, time) {
      var (tx, n', o') := NewTransaction(time, newKey, oldKey, n, AsPlaced(o)).value;
      var buyKey := if n.bidType == Buy then newKey else oldKey;
      FairTotals(s.bids, time, newKey, oldKey);
      BidTotalAt(s.bids, newKey);
      BidTotalAt(s.bids, oldKey);
      BidOkAt(s.bids, oldKey);
      IsAvailable(n, o, time);
      FairBooking(s, tx, t, if n'.bidType == Buy then n' else o', buyKey, moveKey);
    } else {
      NewTransactionErrors(time, newKey, oldKey, n, AsPlaced(o));
    }
  }

  lemma NewTransactionErrors(time: int, newKey: string, oldKey: string, n: Bid, o: Bid)
    requires NewTransaction(time, newKey, oldKey, n, o).Err?
    ensures NewTransaction(time, newKey, oldKey, n, o) == Err(NonMatchingBids)
  {
  }

  lemma IsAvailable(n: Bid, o: Bid, time: int)
    requires BothAvailable(n, o, time)
    ensures IsOpen(n) && IsOpen(o)
  {
  }

  lemma BidOkAt(bids: map<string, Bid>, k: string)
    requires BidsOk(bids) && k in bids
    ensures BidOk(bids[k])
  {
  }

  /** Every pair the matcher has handed over can be turned into a transaction exactly as long as
      both bids are still to be had: the price delta is never negative and the excess can always
      be freed. */
  lemma HandedOverPairsMatch(crypto: Crypto, s: State, task: Task, newKey: string, oldKey: string, t: string, moveKey: string)
    requires Reachable(crypto, s) && DepositsFit(s)
    requires task in s.tasks && task.ApplyTask? && (newKey, oldKey) in task.matched
    ensures newKey in s.bids && oldKey in s.bids
    ensures MatchBids(s, task.time, newKey, oldKey, t, moveKey).Ok? <==>
            BothAvailable(s.bids[newKey], s.bids[oldKey], task.time)
    ensures MatchBids(s, task.time, newKey, oldKey, t, moveKey) != Err(StrangePriceDelta)
  {
    hide Reachable, BooksOk, BidsOk, TxsLinked, BidsLinked, Escrowed, CurrenciesAgree, TasksPending, TxsOk, Explained, SettledOnce,
         DepositsFit, MatchBids, Mirrors, ZoneOk, BothAvailable;
    ReachableOk(crypto, s);
    assert PairsFair(s.bids, task.time, task.matched);
    FairMatch(s, task.time, newKey, oldKey, t, moveKey);
  }

  /** The price of such a transaction lies between the seller's ask and the buyer's bid. */
  lemma HandedOverPairsFair(crypto: Crypto, s: State, task: Task, newKey: string, oldKey: string, t: string, moveKey: string)
    requires Reachable(crypto, s) && t !in s.txs
    requires task in s.tasks && task.ApplyTask? && (newKey, oldKey) in task.matched
    requires MatchBids(s, task.time, newKey, oldKey, t, moveKey).Ok?
    ensures var s' := MatchBids(s, task.time, newKey, oldKey, t, moveKey).value;
            && t in s'.txs
            && var tx := s'.txs[t];
            && tx.buyerBid in s'.bids && tx.sellerBid in s'.bids
            && {tx.buyerBid, tx.sellerBid} == {newKey, oldKey}
            && s'.bids[tx.sellerBid].price.amount <= tx.price.amount <= s'.bids[tx.buyerBid].price.amount
            && s'.bids[tx.sellerBid].price.currency == tx.price.currency == s'.bids[tx.buyerBid].price.currency
  {
    hide Reachable, BooksOk, BidsOk, TxsLinked, BidsLinked, Escrowed, CurrenciesAgree, TasksPending, TxsOk, Explained, SettledOnce,
         Mirrors, ZoneOk, BookTx;
    ReachableOk(crypto, s);
    assert PairsFair(s.bids, task.time, task.matched);
    FairTotals(s.bids, task.time, newKey, oldKey);
  }

  // ---------------------------------------------------------------- evidence and time

  /** A seller has been paid only for a finished transaction the buyer accepted, or for one whose
      receipt verifies for the buyer. */
  lemma PaidOnlyWithEvidence(crypto: Crypto, s: State, k: string)
    requires Reachable(crypto, s)
    requires k in s.books.movements && s.books.movements[k].request.mType == TxFinished
    ensures exists t ::
      && t in s.txs && s.txs[t].state == Retired
      && s.books.movements[k].request.txKey == Some(t)
      && (|| (MessagesOf(s, t) != []
              && Legitimate(s.txs[t], MessagesOf(s, t)[|MessagesOf(s, t)| - 1], AcceptResult)
              && MessagesOf(s, t)[|MessagesOf(s, t)| - 1].sender == s.txs[t].buyer)
          || (ReceiptVerified(crypto, s.txs[t]) && SecretPublished(crypto, s.txs[t])))
  {
    hide Reachable, BooksOk, BidsOk, TxsLinked, BidsLinked, Escrowed, CurrenciesAgree, TasksPending, HotOk, SettledOnce, TxOk,
         Legitimate, ReceiptVerified, SecretPublished;
    ReachableOk(crypto, s);
    var r := s.books.movements[k].request;
    assert Fits(r, s.deposits, s.bids, s.txs);
    var t := r.txKey.value;
    assert TxOk(crypto, s.txs[t], MessagesOf(s, t));
    PaymentIsJustified(crypto, s.txs[t], MessagesOf(s, t));
  }

  /** No escrow is stranded: every active transaction has a retirement task due at its current
      timeout, that timeout is at most 23 minutes after the match, and at most five messages
      were accepted. Every open bid has a retirement task due when it expires. */
  lemma NothingIsStranded(crypto: Crypto, s: State)
    requires Reachable(crypto, s)
    ensures forall t :: t in s.txs && s.txs[t].state == Active ==> RetireTxTask(t, s.txs[t].timeout) in s.tasks
    ensures forall t :: t in s.txs ==> s.txs[t].timeout <= s.txs[t].matched + 23 * MINUTE
    ensures forall t :: t in s.txs ==> |MessagesOf(s, t)| <= 5
    ensures forall k :: k in s.bids && IsOpen(s.bids[k]) ==> RetireBidTask(k, s.bids[k].expires) in s.tasks
  {
    hide Reachable, BooksOk, BidsOk, TxsLinked, BidsLinked, Escrowed, CurrenciesAgree, HotOk, SettledOnce, Explained, Evidence;
    ReachableOk(crypto, s);
    forall t | t in s.txs
      ensures s.txs[t].timeout <= s.txs[t].matched + 23 * MINUTE && |MessagesOf(s, t)| <= 5
    {
      assert TxOk(crypto, s.txs[t], MessagesOf(s, t));
      FewMessages(s.txs[t], MessagesOf(s, t), s.txs[t].phase);
    }
  }

  /** In every reachable state the timeout of every transaction follows from its match and the
      messages on record, to the nanosecond. */
  lemma TimeoutIsExact(crypto: Crypto, s: State, t: string)
    requires Reachable(crypto, s) && t in s.txs
    ensures TimeoutExact(s.txs[t], MessagesOf(s, t))
    ensures forall m :: m in MessagesOf(s, t) ==> m.accepted
  {
    hide Reachable, BooksOk, BidsOk, TxsLinked, BidsLinked, Escrowed, CurrenciesAgree, TasksPending, HotOk, SettledOnce, Explained,
         Evidence, TimeoutExact, LeadsTo;
    ReachableOk(crypto, s);
    assert TxOk(crypto, s.txs[t], MessagesOf(s, t));
    OnRecordIfAccepted(s.txs[t], MessagesOf(s, t), s.txs[t].phase);
  }

  lemma {:induction false} OnRecordIfAccepted(tx: Tx, messages: seq<Tmessage>, phase: Phase)
    requires LeadsTo(tx, messages, phase)
    ensures forall m :: m in messages ==> m.accepted
  {
    if messages != [] {
      var n := |messages| - 1;
      OnRecordIfAccepted(tx, messages[..n], messages[n].prePhase);
      assert messages == messages[..n] + [messages[n]];
    }
  }

  /** How account `p` changes when a transaction is settled: in the phases Finished and Unverified
      the seller receives the price, in every other phase the buyer gets price and fee back, and
      in all of them the buyer's blocked money goes down by price and fee. */
  predicate SettlesFor(tx: Tx, a: Account, a': Account, p: string) {
    var total := tx.price.amount + tx.fee.amount;
    var paid := tx.phase == Finished || tx.phase == Unverified;
    && a'.available == a.available + (if paid && p == tx.seller then tx.price.amount
                                      else if !paid && p == tx.buyer then total else 0)
    && a'.blocked == a.blocked - (if p == tx.buyer then total else 0)
  }

  lemma SettlementMoves(s: State, t: string, now: int, moveKey: string)
    requires BooksOk(s.books) && BidsOk(s.bids) && TxsLinked(s.bids, s.txs) && t in s.txs
    requires RetireTransaction(s, t, now, moveKey).Ok?
    ensures var after := RetireTransaction(s, t, now, moveKey).value.books.accounts;
      forall p :: SettlesFor(s.txs[t], AccountOf(s.books.accounts, p), AccountOf(after, p), p)
  {
    hide BooksOk, BidsOk, TxsLinked, Linked, Place, SettlementRequest, SettlesFor, AllMoved;
    var tx := s.txs[t];
    assert Linked(s.bids, t, tx) by { LinkedAt(s.bids, s.txs, t); }
    TxAmounts(s.bids, t, tx);
    BooksAccounts(s.books);
    PlaceMoves(s.books, now, SettlementRequest(tx, t), moveKey);
    var after := RetireTransaction(s, t, now, moveKey).value.books.accounts;
    forall p ensures SettlesFor(tx, AccountOf(s.books.accounts, p), AccountOf(after, p), p) {
      MovedAt(s.books.accounts, after, SettlementRequest(tx, t), p);
      SettlementDeltas(tx, t, p);
      SettlesAsMoved(tx, t, AccountOf(s.books.accounts, p), AccountOf(after, p), p);
    }
  }

  lemma LinkedAt(bids: map<string, Bid>, txs: map<string, Tx>, t: string)
    requires TxsLinked(bids, txs) && t in txs
    ensures Linked(bids, t, txs[t])
  {
    hide Linked;
  }

  lemma SettlementDeltas(tx: Tx, t: string, p: string)
    requires tx.price.currency == tx.fee.currency
    requires 0 <= tx.price.amount && 0 <= tx.fee.amount && TxTotal(tx) <= MAX64
    ensures var r := SettlementRequest(tx, t);
      var paid := tx.phase == Finished || tx.phase == Unverified;
      && DeltaFor(r, p, Blocked) == (if p == tx.buyer then -TxTotal(tx) else 0)
      && DeltaFor(r, p, Available) == (if paid && p == tx.seller then tx.price.amount
                                       else if !paid && p == tx.buyer then TxTotal(tx) else 0)
  {
    SettlementAmounts(tx, t);
  }

  lemma SettlesAsMoved(tx: Tx, t: string, a: Account, a': Account, p: string)
    requires tx.price.currency == tx.fee.currency && Moved(a, a', p, SettlementRequest(tx, t))
    requires var r := SettlementRequest(tx, t);
      var paid := tx.phase == Finished || tx.phase == Unverified;
      && DeltaFor(r, p, Blocked) == (if p == tx.buyer then -TxTotal(tx) else 0)
      && DeltaFor(r, p, Available) == (if paid && p == tx.seller then tx.price.amount
                                       else if !paid && p == tx.buyer then TxTotal(tx) else 0)
    ensures SettlesFor(tx, a, a', p)
  {
    hide SettlementRequest, DeltaFor;
  }

  /** The retirement due at the current timeout is never wasted: whenever it runs, it settles the
      transaction, paying in the phases Finished and Unverified and reimbursing in all others,
      unless the seller's account cannot take the payment, and then it stays queued. */
  lemma DueTaskSettles(crypto: Crypto, s: State, t: string, now: int, moveKey: string)
    requires Reachable(crypto, s) && DepositsFit(s)
    requires t in s.txs && s.txs[t].state == Active && s.txs[t].timeout <= now
    ensures var tx := s.txs[t];
            var done := TaskDone(s, RetireTxTask(t, tx.timeout), now, moveKey);
            if (tx.phase == Finished || tx.phase == Unverified) && !CanTake(AccountOf(s.books.accounts, tx.seller), tx.price)
            then done.Err?
            else && done.Ok? && t in done.value.txs && done.value.txs[t].state == Retired
                 && forall p :: SettlesFor(tx, AccountOf(s.books.accounts, p), AccountOf(done.value.books.accounts, p), p)
  {
    hide Reachable, RetireTransaction, DepositsFit, CanTake, SettlesFor;
    RetirementOutcome(s, t, now, moveKey);
    if PaysSeller(s.txs[t]) {
      PaidTxCanRetire(crypto, s, t, now, moveKey);
    } else {
      FailedTxCanRetire(crypto, s, t, now, moveKey);
    }
    if RetireTransaction(s, t, now, moveKey).Ok? {
      ReachableSettles(crypto, s, t, now, moveKey);
    }
  }

  lemma ReachableSettles(crypto: Crypto, s: State, t: string, now: int, moveKey: string)
    requires Reachable(crypto, s) && t in s.txs && RetireTransaction(s, t, now, moveKey).Ok?
    ensures var after := RetireTransaction(s, t, now, moveKey).value.books.accounts;
      forall p :: SettlesFor(s.txs[t], AccountOf(s.books.accounts, p), AccountOf(after, p), p)
  {
    hide Reachable, RetireTransaction, SettlesFor, BooksOk, BidsOk, TxsLinked, BidsLinked, Escrowed, CurrenciesAgree, TasksPending,
         TxsOk, HotOk, Explained, SettledOnce;
    ReachableOk(crypto, s);
    SettlementMoves(s, t, now, moveKey);
  }

  // ---------------------------------------------------------------- the order book and the bids

  /** In every zone no resting buy is priced above a resting sell, and every resting bid stands
      for a stored bid of that zone. */
  lemma BooksNeverCross(crypto: Crypto, s: State, matchKey: string)
    requires Reachable(crypto, s)
    ensures ZoneOf(s, matchKey).Sided() && ZoneOf(s, matchKey).Uncrossed()
    ensures forall x :: x in ZoneOf(s, matchKey).All() ==> Mirrors(s.bids, matchKey, x)
  {
    hide Reachable, BooksOk, BidsOk, TxsLinked, BidsLinked, Escrowed, CurrenciesAgree, TasksPending, TxsOk, Explained, SettledOnce,
         Mirrors, HotOk;
    ReachableOk(crypto, s);
    ZonesOk(s, matchKey);
  }

  /** Whenever prices and expiries force a match while a batch is worked through, the pair is
      handed over for a transaction; where they do not allow one, there is none. */
  lemma ForcedMatchHandedOver(crypto: Crypto, s: State, b: Batch, i: nat)
    requires Reachable(crypto, s) && BatchPossible(s, b) && i < |b.events| < |b.books|
    ensures var e := b.events[i];
      var offers := b.books[i].Side(Opposite(e.incoming.bidType));
      && (MustMatch(offers, b.time, e.incoming) ==>
            && e.partner.Some?
            && (e.incoming.bidKey, e.partner.value.bidKey) in KeyPairs(Matches(b.events))
            && ApplyTask(b.time, KeyPairs(Matches(b.events)), Keys(b.placed)) in FinishBatch(s, b).tasks)
      && (!MayMatch(offers, b.time, e.incoming) ==> e.partner.None?)
  {
    hide Reachable, MustMatch, MayMatch, Matches, KeyPairs, Keys, ZoneAfter, Session, Book.Side;
    BooksNeverCross(crypto, s, b.matchKey);
    SessionMatches(b.books, b.time, b.events, i);
    var e := b.events[i];
    if e.partner.Some? && (e.incoming, e.partner.value) in Matches(b.events) {
      KeysOfPair(Matches(b.events), (e.incoming, e.partner.value));
    }
  }

  /** A bid that rests in its zone after a batch without having been stored there before is handed
      over to be placed. */
  lemma RestingIsPlaced(s: State, b: Batch, x: HotBid)
    requires BatchPossible(s, b) && b.books != []
    requires x in ZoneAfter(b).All() && x !in ZoneOf(s, b.matchKey).All()
    ensures x.bidKey in Keys(b.placed)
    ensures ApplyTask(b.time, KeyPairs(Matches(b.events)), Keys(b.placed)) in FinishBatch(s, b).tasks
  {
    hide Session, Matches, KeyPairs, Incoming, Book.All, ZoneAfter, Keys;
    SessionLengths(b);
    WithinZone(b, x);
    Remainder(b.books[|b.events|].All(), multiset(b.placed), b.books[0].All(), x);
    KeyOf(b.placed, x);
  }

  lemma WithinZone(b: Batch, x: HotBid)
    requires |b.books| == |b.events| + 1 && x in ZoneAfter(b).All()
    ensures x in b.books[|b.events|].All()
  {
  }

  lemma Remainder<T>(all: multiset<T>, part: multiset<T>, rest: multiset<T>, x: T)
    requires all - part <= rest && x in all && x !in rest
    ensures x in part
  {
    assert (all - part)[x] <= rest[x];
  }

  lemma KeyOf(bids: seq<HotBid>, x: HotBid)
    requires x in multiset(bids)
    ensures x.bidKey in Keys(bids)
  {
    var i :| 0 <= i < |bids| && bids[i] == x;
    assert Keys(bids)[i] == x.bidKey;
  }

  lemma SessionLengths(b: Batch)
    requires Session(b.books, b.time, b.events)
    ensures |b.books| == |b.events| + 1
  {
  }

  lemma KeysOfPair(pairs: seq<(HotBid, HotBid)>, pair: (HotBid, HotBid))
    requires pair in pairs
    ensures (pair.0.bidKey, pair.1.bidKey) in KeyPairs(pairs)
  {
    var i :| 0 <= i < |pairs| && pairs[i] == pair;
    assert KeyPairs(pairs)[i] == (pair.0.bidKey, pair.1.bidKey);
  }

  predicate Joins(tx: Tx, k: string) {
    tx.buyerBid == k || tx.sellerBid == k
  }

  /** A bid is in a transaction exactly if it is matched, and then in only one; an expired bid is
      in none. */
  lemma OneTransactionPerBid(crypto: Crypto, s: State, k: string)
    requires Reachable(crypto, s) && k in s.bids
    ensures s.bids[k].state == Matched <==> exists t :: t in s.txs && Joins(s.txs[t], k)
    ensures forall t, u :: t in s.txs && u in s.txs && Joins(s.txs[t], k) && Joins(s.txs[u], k) ==> t == u
  {
    hide Reachable, BooksOk, BidsOk, TxsLinked, BidsLinked, Escrowed, CurrenciesAgree, TasksPending, TxsOk, Explained,
         SettledOnce, HotOk, BidOk, Joins;
    ReachableOk(crypto, s);
    BidOkAt(s.bids, k);
    MatchedHasTransaction(s.bids[k]);
    forall t | t in s.txs && Joins(s.txs[t], k) ensures s.bids[k].transaction == Some(t) {
      TransactionOf(s.bids, s.txs, k, t);
    }
    if s.bids[k].state == Matched { InItsTransaction(s.bids, s.txs, k); }
  }

  lemma MatchedHasTransaction(b: Bid)
    requires BidOk(b)
    ensures b.state == Matched <==> b.transaction.Some?
  {
  }

  lemma TransactionOf(bids: map<string, Bid>, txs: map<string, Tx>, k: string, t: string)
    requires TxsLinked(bids, txs) && k in bids && t in txs && Joins(txs[t], k)
    ensures bids[k].transaction == Some(t)
  {
    assert Linked(bids, t, txs[t]);
  }

  lemma InItsTransaction(bids: map<string, Bid>, txs: map<string, Tx>, k: string)
    requires BidsLinked(bids, txs) && k in bids && bids[k].transaction.Some?
    ensures bids[k].transaction.value in txs && Joins(txs[bids[k].transaction.value], k)
  {
    assert InTx(txs, k, bids[k]);
  }

  /** The retirement due at a bid's expiry is pending while the bid is open, and whenever it runs
      it ends the bid: every bid ends matched or expired. */
  lemma DueBidTaskSettles(crypto: Crypto, s: State, k: string, now: int, moveKey: string)
    requires Reachable(crypto, s) && DepositsFit(s)
    requires k in s.bids && IsOpen(s.bids[k])
    ensures var task := RetireBidTask(k, s.bids[k].expires);
            && task in s.tasks
            && TaskDone(s, task, now, moveKey).Ok?
            && var bids := TaskDone(s, task, now, moveKey).value.bids;
               k in bids && bids[k].state == Expired && SameTerms(s.bids[k], bids[k])
  {
    hide Reachable, DepositsFit, RetireBidStep;
    NothingIsStranded(crypto, s);
    CreatedOf(crypto, s, k);
    if s.bids[k].bidType == Buy {
      OpenBidCanRetire(crypto, s, k, now, moveKey);
    } else {
      OpenSellCanRetire(s, k, now, moveKey);
    }
    RetirementExpires(s, k, now, moveKey);
  }

  lemma CreatedOf(crypto: Crypto, s: State, k: string)
    requires Reachable(crypto, s) && k in s.bids
    ensures s.bids[k].created >= 0
  {
    hide Reachable, Invariant;
    ReachableOk(crypto, s);
    CreatedAfterEpoch(crypto, s, k);
  }

  lemma OpenSellCanRetire(s: State, k: string, now: int, moveKey: string)
    requires k in s.bids && s.bids[k].bidType == Sell
    ensures RetireBidStep(s, k, now, moveKey).Ok?
  {
  }

  lemma RetirementExpires(s: State, k: string, now: int, moveKey: string)
    requires k in s.bids && IsOpen(s.bids[k]) && s.bids[k].created >= 0 && RetireBidStep(s, k, now, moveKey).Ok?
    ensures var bids := RetireBidStep(s, k, now, moveKey).value.bids;
            k in bids && bids[k].state == Expired && SameTerms(s.bids[k], bids[k])
  {
    hide Place;
  }

  /** Queued hot bids carry their price as text. Whatever unit it is written in, it reads back. */
  lemma HotBidsReadBack(crypto: Crypto, s: State, matchKey: string, h: HotBid, u: MoneyText.Unit)
    requires Reachable(crypto, s) && (matchKey, h) in s.hotQueue
    requires u in MoneyText.UNITS && u.currency == h.price.currency
    ensures MoneyText.Reading(MoneyText.Text(h.price, u, true)) == MoneyText.Done(h.price)
  {
    hide Reachable, BooksOk, BidsOk, TxsLinked, BidsLinked, Escrowed, CurrenciesAgree, TasksPending, TxsOk, Explained, SettledOnce,
         ZoneOk, PairsFair, MoneyText.UNITS, MoneyText.Reading, MoneyText.Text, BidOk;
    ReachableOk(crypto, s);
    assert Mirrors(s.bids, matchKey, h);
    BidOkAt(s.bids, h.bidKey);
    PriceInText(s.bids[h.bidKey]);
    MoneyText.RoundTrip(h.price, u);
  }

  lemma PriceInText(b: Bid)
    requires BidOk(b)
    ensures 0 <= b.price.amount < MoneyText.Pow10(17)
  {
    MoneyText.Powers();
    hide MoneyText.Pow10;
  }
}
