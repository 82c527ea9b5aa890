/** Every step of the market keeps the invariant, one step and one part of the invariant at a
    time. */
module MarketSteps {
  import opened Prelude
  import opened Amounts
  import opened Ledger
  import opened LedgerProofs
  import opened Bids
  import opened Transactions
  import opened TransactionProofs
  import opened Market
  import opened MarketInvariant

  // ---------------------------------------------------------------- shared frames

  predicate TxsEvolve(txs: map<string, Tx>, txs': map<string, Tx>) {
    forall t :: t in txs ==> t in txs' && SameDeal(txs[t], txs'[t]) && (txs[t].state == Retired ==> txs'[t] == txs[t])
  }

  predicate DepositsEvolve(deposits: map<string, Deposit>, deposits': map<string, Deposit>) {
    forall u :: u in deposits ==> u in deposits' && deposits'[u] == deposits[u]
  }

  lemma FitsKept(r: Request, s: State, s': State)
    requires Fits(r, s.deposits, s.bids, s.txs)
    requires DepositsEvolve(s.deposits, s'.deposits) && BidsEvolve(s.bids, s'.bids) && TxsEvolve(s.txs, s'.txs)
    ensures Fits(r, s'.deposits, s'.bids, s'.txs)
  {
    match CauseOf(r).value
    case BidCause(k) => assert SameTerms(s.bids[k], s'.bids[k]);
    case BidBackCause(k) => assert SameTerms(s.bids[k], s'.bids[k]);
    case TxCause(t) =>
      assert SameDeal(s.txs[t], s'.txs[t]);
      assert SameTerms(s.bids[s.txs[t].buyerBid], s'.bids[s.txs[t].buyerBid]);
    case TxEndCause(t) => assert s'.txs[t] == s.txs[t];
    case DepositCause(u) => assert s'.deposits[u] == s.deposits[u];
  }

  ghost predicate AllExplained(s: State) {
    Explained(s.books.movements, s.deposits, s.bids, s.txs)
  }

  ghost predicate AllSettled(s: State) {
    SettledOnce(s.books.movements, s.deposits, s.bids, s.txs)
  }

  function Expects(s: State, c: Cause): bool {
    Expected(s.deposits, s.bids, s.txs, c)
  }

  lemma ExplainedKept(s: State, s': State)
    requires AllExplained(s) && s'.books.movements == s.books.movements
    requires DepositsEvolve(s.deposits, s'.deposits) && BidsEvolve(s.bids, s'.bids) && TxsEvolve(s.txs, s'.txs)
    ensures AllExplained(s')
  {
    forall k | k in s.books.movements
      ensures Fits(s.books.movements[k].request, s'.deposits, s'.bids, s'.txs)
    {
      FitsKept(s.books.movements[k].request, s, s');
    }
  }

  /** The books gained one movement, whose cause the state now expects and did not before. */
  ghost predicate OneMore(s: State, s': State, r: Request, key: string, c0: Cause) {
    && key !in s.books.movements && key in s'.books.movements
    && s'.books.movements == s.books.movements[key := s'.books.movements[key]]
    && s'.books.movements[key].request == r
    && CauseOf(r) == Some(c0)
    && !Expects(s, c0) && Expects(s', c0)
    && (forall c :: c != c0 ==> Expects(s', c) == Expects(s, c))
  }

  lemma MoveAccounted(s: State, s': State, r: Request, key: string, c0: Cause)
    requires AllExplained(s) && AllSettled(s) && OneMore(s, s', r, key, c0)
    requires DepositsEvolve(s.deposits, s'.deposits) && BidsEvolve(s.bids, s'.bids) && TxsEvolve(s.txs, s'.txs)
    requires Fits(r, s'.deposits, s'.bids, s'.txs)
    ensures AllExplained(s') && AllSettled(s')
  {
    ExplainedKept(s, s'.(books := s.books));
    forall c ensures |Moves(s'.books.movements, c)| == if Expects(s', c) then 1 else 0 {
      PlaceAddsMove(s.books.movements, key, s'.books.movements[key], c);
    }
  }

  ghost predicate AllEscrowed(s: State) {
    && Escrowed(s.books.accounts, s.bids, s.txs)
    && CurrenciesAgree(s.books.accounts, s.bids, s.txs)
  }

  /** Every account moved as the request says. */
  predicate AccountsMoved(accounts: map<string, Account>, accounts': map<string, Account>, r: Request, p: string) {
    Moved(AccountOf(accounts, p), AccountOf(accounts', p), p, r)
  }

  ghost predicate AllMoved(accounts: map<string, Account>, accounts': map<string, Account>, r: Request) {
    forall p :: AccountsMoved(accounts, accounts', r, p)
  }

  lemma PlaceMoves(books: Books, now: int, r: Request, key: string)
    requires AccountsOk(books.accounts) && Place(books, now, r, key).Ok?
    ensures var books' := Place(books, now, r, key).value;
            && AllMoved(books.accounts, books'.accounts, r)
            && key in books'.movements
            && books'.movements == books.movements[key := books'.movements[key]]
            && books'.movements[key].request == r
  {
    PlaceFacts(books, now, r, key);
  }

  lemma CurrenciesKept(accounts: map<string, Account>, accounts': map<string, Account>, r: Request,
                       bids: map<string, Bid>, txs: map<string, Tx>)
    requires DuesNonNegative(bids, txs)
    requires Escrowed(accounts, bids, txs) && CurrenciesAgree(accounts, bids, txs)
    requires AllMoved(accounts, accounts', r)
    ensures CurrenciesAgree(accounts', bids, txs)
  {
    forall p ensures Moved(AccountOf(accounts, p), AccountOf(accounts', p), p, r) {
      assert AccountsMoved(accounts, accounts', r, p);
    }
    PlaceKeepsCurrencies(accounts, accounts', r, bids, txs);
  }

  /** Escrow is kept if obligations change by what the movement blocks or frees. */
  lemma EscrowMoves(accounts: map<string, Account>, accounts': map<string, Account>, r: Request,
                    bids: map<string, Bid>, txs: map<string, Tx>, bids': map<string, Bid>, txs': map<string, Tx>)
    requires Escrowed(accounts, bids, txs) && AllMoved(accounts, accounts', r)
    requires forall p :: Obligations(bids', txs', p) == Obligations(bids, txs, p) + DeltaFor(r, p, Blocked)
    ensures Escrowed(accounts', bids', txs')
  {
    forall p ensures AccountOf(accounts', p).blocked == Obligations(bids', txs', p) {
      assert AccountsMoved(accounts, accounts', r, p);
    }
  }

  /** The account side of a step that places one movement. */
  lemma MoneyMoves(s: State, s': State, now: int, r: Request, key: string)
    requires BooksOk(s.books) && key !in s.books.movements
    requires Place(s.books, now, r, key) == Ok(s'.books)
    requires DuesNonNegative(s.bids, s.txs) && AllEscrowed(s)
    requires forall p :: Obligations(s'.bids, s'.txs, p) == Obligations(s.bids, s.txs, p) + DeltaFor(r, p, Blocked)
    ensures BooksOk(s'.books)
    ensures Escrowed(s'.books.accounts, s'.bids, s'.txs)
    ensures CurrenciesAgree(s'.books.accounts, s.bids, s.txs)
    ensures AllMoved(s.books.accounts, s'.books.accounts, r)
    ensures key in s'.books.movements && s'.books.movements == s.books.movements[key := s'.books.movements[key]]
    ensures s'.books.movements[key].request == r
  {
    hide Place, Escrowed, CurrenciesAgree, AllMoved, Obligations, Conserved, Chained;
    PlaceKeepsBooks(s.books, now, r, key);
    PlaceMoves(s.books, now, r, key);
    CurrenciesKept(s.books.accounts, s'.books.accounts, r, s.bids, s.txs);
    EscrowMoves(s.books.accounts, s'.books.accounts, r, s.bids, s.txs, s'.bids, s'.txs);
  }

  // ---------------------------------------------------------------- deposits

  lemma DepositAccounted(s: State, s': State, uid: string, d: Deposit, moveKey: string)
    requires AllExplained(s) && AllSettled(s)
    requires uid !in s.deposits && moveKey !in s.books.movements && moveKey in s'.books.movements
    requires s' == s.(books := s'.books, deposits := s.deposits[uid := d])
    requires s'.books.movements == s.books.movements[moveKey := s'.books.movements[moveKey]]
    requires s'.books.movements[moveKey].request == DepositRequest(uid, d)
    ensures AllExplained(s') && AllSettled(s')
  {
    hide Explained, SettledOnce;
    MoveAccounted(s, s', DepositRequest(uid, d), moveKey, DepositCause(uid));
  }

  lemma DepositKeeps(crypto: Crypto, s: State, uid: string, d: Deposit, moveKey: string)
    requires Invariant(crypto, s) && moveKey !in s.books.movements
    requires PlaceDeposit(s, uid, d, moveKey).Ok?
    ensures Invariant(crypto, PlaceDeposit(s, uid, d, moveKey).value)
  {
    hide BooksOk, BidsOk, TxsLinked, BidsLinked, Escrowed, CurrenciesAgree, TasksPending, TxsOk, HotOk, Place, Explained, SettledOnce;
    if uid !in s.deposits {
      var s' := PlaceDeposit(s, uid, d, moveKey).value;
      AllDuesNonNegative(s.bids, s.txs);
      MoneyMoves(s, s', d.created, DepositRequest(uid, d), moveKey);
      DepositAccounted(s, s', uid, d, moveKey);
    }
  }

  // ---------------------------------------------------------------- changing one bid

  /** A bid advances without touching its terms or the transaction it may belong to. */
  predicate BidAdvances(bids: map<string, Bid>, bids': map<string, Bid>, k: string) {
    && k in bids && k in bids'
    && bids' == bids[k := bids'[k]]
    && SameTerms(bids[k], bids'[k])
    && bids[k].transaction == bids'[k].transaction == None
  }

  lemma LinksKept(bids: map<string, Bid>, bids': map<string, Bid>, txs: map<string, Tx>, k: string)
    requires TxsLinked(bids, txs) && BidsLinked(bids, txs) && BidAdvances(bids, bids', k)
    ensures TxsLinked(bids', txs) && BidsLinked(bids', txs)
  {
    forall t | t in txs ensures Linked(bids', t, txs[t]) {
      assert Linked(bids, t, txs[t]);
    }
    forall j | j in bids' ensures InTx(txs, j, bids'[j]) {
      assert InTx(txs, j, bids[j]);
    }
  }

  lemma CurrenciesAfterBid(accounts: map<string, Account>, bids: map<string, Bid>, bids': map<string, Bid>,
                           txs: map<string, Tx>, k: string)
    requires CurrenciesAgree(accounts, bids, txs) && BidAdvances(bids, bids', k) && Due(bids'[k]) <= Due(bids[k])
    ensures CurrenciesAgree(accounts, bids', txs)
  {
  }

  lemma ObligationsAfterBid(bids: map<string, Bid>, bids': map<string, Bid>, txs: map<string, Tx>, k: string)
    requires BidAdvances(bids, bids', k)
    ensures forall p :: Obligations(bids', txs, p) == Obligations(bids, txs, p) +
              (if p == bids[k].participant then Due(bids'[k]) - Due(bids[k]) else 0)
  {
    forall p ensures Obligations(bids', txs, p) == Obligations(bids, txs, p) +
              (if p == bids[k].participant then Due(bids'[k]) - Due(bids[k]) else 0) {
      DuesAfterBid(bids, k, bids'[k], p);
    }
  }

  lemma TasksAfterBid(tasks: multiset<Task>, bids: map<string, Bid>, bids': map<string, Bid>, txs: map<string, Tx>, k: string)
    requires TasksPending(tasks, bids, txs) && BidAdvances(bids, bids', k)
    requires IsOpen(bids'[k]) ==> IsOpen(bids[k])
    ensures TasksPending(tasks, bids', txs)
  {
  }

  lemma BidsStayOk(bids: map<string, Bid>, bids': map<string, Bid>, k: string)
    requires BidsOk(bids) && BidAdvances(bids, bids', k) && bids'[k].state != Matched
    ensures BidsOk(bids') && BidsEvolve(bids, bids')
  {
    forall j | j in bids' ensures BidOk(bids'[j]) {
      assert BidOk(bids[j]);
    }
  }

  lemma UnmatchedHasNoTx(bids: map<string, Bid>, k: string)
    requires BidsOk(bids) && k in bids && bids[k].state != Matched
    ensures bids[k].transaction == None
  {
    assert BidOk(bids[k]);
  }

  /** Everything but the money when a bid that is in no transaction advances. */
  lemma BidAdvanceKeeps(s: State, s': State, k: string)
    requires BidsOk(s.bids) && TxsLinked(s.bids, s.txs) && BidsLinked(s.bids, s.txs)
    requires TasksPending(s.tasks, s.bids, s.txs) && HotOk(s.bids, s.tasks, s.hotQueue, s.zones)
    requires BidAdvances(s.bids, s'.bids, k) && s'.bids[k].state != Matched
    requires s' == s.(books := s'.books, bids := s'.bids)
    requires IsOpen(s'.bids[k]) ==> IsOpen(s.bids[k])
    ensures BidsOk(s'.bids) && BidsEvolve(s.bids, s'.bids)
    ensures TxsLinked(s'.bids, s'.txs) && BidsLinked(s'.bids, s'.txs)
    ensures TasksPending(s'.tasks, s'.bids, s'.txs) && HotOk(s'.bids, s'.tasks, s'.hotQueue, s'.zones)
  {
    hide BidsOk, TxsLinked, BidsLinked, TasksPending, HotOk, BidsEvolve;
    BidsStayOk(s.bids, s'.bids, k);
    LinksKept(s.bids, s'.bids, s.txs, k);
    TasksAfterBid(s.tasks, s.bids, s'.bids, s.txs, k);
    HotKept(s.bids, s.tasks, s.hotQueue, s.zones, s'.bids, s.tasks);
  }

  lemma BidAdvanceAccounted(s: State, s': State, k: string)
    requires AllExplained(s) && AllSettled(s)
    requires BidAdvances(s.bids, s'.bids, k) && s' == s.(bids := s'.bids)
    requires BidsEvolve(s.bids, s'.bids)
    requires s.bids[k].bidType == Buy ==> s.bids[k].state != Expired && s'.bids[k].state != Expired
    ensures AllExplained(s') && AllSettled(s')
  {
    hide Explained, SettledOnce, Fits, BidAdvances;
    ExplainedKept(s, s');
    forall c ensures Expects(s', c) == Expects(s, c) {
      ExpectsUnchanged(s, s', k, c);
    }
    SettledUnchanged(s, s');
  }

  lemma ExpectsUnchanged(s: State, s': State, k: string, c: Cause)
    requires BidAdvances(s.bids, s'.bids, k) && s' == s.(bids := s'.bids)
    requires s.bids[k].bidType == Buy ==> s.bids[k].state != Expired && s'.bids[k].state != Expired
    ensures Expects(s', c) == Expects(s, c)
  {
  }

  lemma SettledUnchanged(s: State, s': State)
    requires AllSettled(s) && s'.books.movements == s.books.movements
    requires forall c :: Expects(s', c) == Expects(s, c)
    ensures AllSettled(s')
  {
    forall c ensures |Moves(s'.books.movements, c)| == if Expects(s', c) then 1 else 0 {
      assert Expects(s', c) == Expects(s, c);
    }
  }

  lemma EscrowUnmoved(accounts: map<string, Account>, bids: map<string, Bid>, txs: map<string, Tx>, bids': map<string, Bid>,
                      txs': map<string, Tx>)
    requires Escrowed(accounts, bids, txs)
    requires forall p :: Obligations(bids', txs', p) == Obligations(bids, txs, p)
    ensures Escrowed(accounts, bids', txs')
  {
  }

  /** A bid advances without anything being owed differently. */
  lemma FreeAdvanceKeeps(crypto: Crypto, s: State, s': State, k: string)
    requires Invariant(crypto, s)
    requires BidAdvances(s.bids, s'.bids, k) && s' == s.(bids := s'.bids)
    requires s'.bids[k].state != Matched && Due(s'.bids[k]) == Due(s.bids[k])
    requires IsOpen(s'.bids[k]) ==> IsOpen(s.bids[k])
    requires s.bids[k].bidType == Buy ==> s.bids[k].state != Expired && s'.bids[k].state != Expired
    ensures Invariant(crypto, s')
  {
    hide BooksOk, BidsOk, TxsLinked, BidsLinked, Escrowed, CurrenciesAgree, TasksPending, TxsOk, HotOk, Explained, SettledOnce,
         BidAdvances, SameTerms, Obligations;
    BidAdvanceKeeps(s, s', k);
    BidAdvanceAccounted(s, s', k);
    CurrenciesAfterBid(s.books.accounts, s.bids, s'.bids, s.txs, k);
    ObligationsAfterBid(s.bids, s'.bids, s.txs, k);
    EscrowUnmoved(s.books.accounts, s.bids, s.txs, s'.bids, s'.txs);
  }

  lemma PlaceBidKeeps(crypto: Crypto, s: State, key: string)
    requires Invariant(crypto, s) && PlaceBid(s, key).Ok?
    ensures Invariant(crypto, PlaceBid(s, key).value)
  {
    hide Invariant;
    if s.bids[key].state == InQueue {
      InvariantParts(crypto, s, key);
      FreeAdvanceKeeps(crypto, s, PlaceBid(s, key).value, key);
    }
  }

  // ---------------------------------------------------------------- retiring a bid

  function RefundRequest(b: Bid, key: string): Request
    requires b.price.currency == b.fee.currency
  {
    BidRequest(b, key, BidReimbursed, b.price.Add(b.fee), b.price.Add(b.fee).Neg())
  }

  lemma RefundAccounted(s: State, s': State, k: string, moveKey: string)
    requires AllExplained(s) && AllSettled(s)
    requires BidAdvances(s.bids, s'.bids, k) && s' == s.(books := s'.books, bids := s'.bids)
    requires s.bids[k].bidType == Buy && IsOpen(s.bids[k]) && s'.bids[k].state == Expired
    requires s.bids[k].price.currency == s.bids[k].fee.currency && BidsEvolve(s.bids, s'.bids)
    requires moveKey !in s.books.movements && moveKey in s'.books.movements
    requires s'.books.movements == s.books.movements[moveKey := s'.books.movements[moveKey]]
    requires s'.books.movements[moveKey].request == RefundRequest(s.bids[k], k)
    ensures AllExplained(s') && AllSettled(s')
  {
    hide Explained, SettledOnce;
    MoveAccounted(s, s', RefundRequest(s.bids[k], k), moveKey, BidBackCause(k));
  }

  lemma RetireBuyKeeps(crypto: Crypto, s: State, s': State, k: string, now: int, moveKey: string)
    requires Invariant(crypto, s) && moveKey !in s.books.movements
    requires k in s.bids && IsOpen(s.bids[k]) && s.bids[k].bidType == Buy
    requires s' == s.(books := s'.books, bids := s.bids[k := s.bids[k].(state := Expired)])
    requires s.bids[k].price.currency == s.bids[k].fee.currency
    requires Place(s.books, now, RefundRequest(s.bids[k], k), moveKey) == Ok(s'.books)
    ensures Invariant(crypto, s')
  {
    hide BooksOk, BidsOk, TxsLinked, BidsLinked, Escrowed, CurrenciesAgree, TasksPending, TxsOk, HotOk, Explained, SettledOnce,
         Obligations, Place;
    UnmatchedHasNoTx(s.bids, k);
    BidAdvanceKeeps(s, s', k);
    AllDuesNonNegative(s.bids, s.txs);
    BidTotalAt(s.bids, k);
    ObligationsAfterBid(s.bids, s'.bids, s.txs, k);
    MoneyMoves(s, s', now, RefundRequest(s.bids[k], k), moveKey);
    CurrenciesAfterBid(s'.books.accounts, s.bids, s'.bids, s.txs, k);
    RefundAccounted(s, s', k, moveKey);
  }

  lemma BidTotalAt(bids: map<string, Bid>, k: string)
    requires BidsOk(bids) && k in bids
    ensures 0 <= Total(bids[k]) <= MAX64
    ensures bids[k].price.currency == bids[k].fee.currency
    ensures bids[k].price.Add(bids[k].fee) == Money(Total(bids[k]), bids[k].price.currency)
  {
    BidTotal(bids[k]);
  }

  lemma RetireBidKeeps(crypto: Crypto, s: State, key: string, now: int, moveKey: string)
    requires Invariant(crypto, s) && moveKey !in s.books.movements
    requires RetireBidStep(s, key, now, moveKey).Ok?
    ensures Invariant(crypto, RetireBidStep(s, key, now, moveKey).value)
  {
    hide Invariant, Place;
    var b := s.bids[key];
    var s' := RetireBidStep(s, key, now, moveKey).value;
    if b.state != Matched && b.created >= 0 && IsOpen(b) {
      if b.bidType == Buy {
        RetireBuyKeeps(crypto, s, s', key, now, moveKey);
      } else {
        InvariantParts(crypto, s, key);
        FreeAdvanceKeeps(crypto, s, s', key);
      }
    } else {
      assert s' == s;
    }
  }

  lemma InvariantParts(crypto: Crypto, s: State, key: string)
    requires Invariant(crypto, s) && key in s.bids && s.bids[key].state != Matched
    ensures s.bids[key].transaction == None
  {
    UnmatchedHasNoTx(s.bids, key);
  }
}
