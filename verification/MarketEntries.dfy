/** What every entry of the ledger says in terms of bids, transactions and deposits alone. */
module MarketEntries {
  import opened Prelude
  import opened Amounts
  import opened Ledger
  import opened LedgerProofs
  import opened Bids
  import opened Transactions
  import opened TransactionProofs
  import opened Market
  import opened MarketInvariant
  import opened MarketSteps
  import opened MarketSteps2
  import opened MarketRuns
  import opened MarketTheorems

  // ---------------------------------------------------------------- the entries of the ledger

  /** Turns `amount` of a participant's blocked money into available money; a negative amount
      goes the other way. Nothing is charged and nothing enters or leaves. */
  predicate Frees(r: Request, p: string, amount: int, c: Currency) {
    && r.availableAccount == p && r.blockedAccount == p
    && r.availableDelta.amount == amount && r.availableDelta.currency == c
    && r.blockedDelta.amount == -amount && r.blockedDelta.currency == c
    && r.fee.amount == 0 && r.world.amount == 0
  }

  /** The seller receives the price out of the buyer's blocked money, and the fee is kept. */
  predicate PaysPrice(r: Request, tx: Tx) {
    && r.availableAccount == tx.seller && r.blockedAccount == tx.buyer
    && r.availableDelta == tx.price
    && r.blockedDelta.amount == -(tx.price.amount + tx.fee.amount) && r.blockedDelta.currency == tx.price.currency
    && r.fee == tx.fee && r.world.amount == 0
  }

  /** The deposit enters the market as available money, or leaves it if it is negative. */
  predicate Credits(r: Request, d: Deposit) {
    && r.availableAccount == d.account && r.availableDelta == d.amount
    && r.blockedDelta.amount == 0 && r.fee.amount == 0
    && r.world.amount + d.amount.amount == 0 && r.world.currency == d.amount.currency
  }

  /** How a retired transaction ends, phase by phase. */
  predicate EndsTx(r: Request, tx: Tx) {
    if tx.phase == Finished || tx.phase == Unverified then
      r.mType == TxFinished && PaysPrice(r, tx)
    else
      r.mType == TxReimbursed && Frees(r, tx.buyer, tx.price.amount + tx.fee.amount, tx.price.currency)
  }

  /** What an entry of each type says about what it refers to. */
  ghost predicate Meaning(r: Request, deposits: map<string, Deposit>, bids: map<string, Bid>, txs: map<string, Tx>) {
    match r.mType
    case BidBooked =>
      && r.bidKey.Some? && r.bidKey.value in bids
      && var b := bids[r.bidKey.value];
      b.bidType == Buy && Frees(r, b.participant, -(b.price.amount + b.fee.amount), b.price.currency)
    case BidReimbursed =>
      && r.bidKey.Some? && r.bidKey.value in bids
      && var b := bids[r.bidKey.value];
      b.bidType == Buy && b.state == Expired && Frees(r, b.participant, b.price.amount + b.fee.amount, b.price.currency)
    case TxBooked =>
      && r.txKey.Some? && r.txKey.value in txs && txs[r.txKey.value].buyerBid in bids
      && var (tx, b) := (txs[r.txKey.value], bids[txs[r.txKey.value].buyerBid]);
      Frees(r, tx.buyer, (b.price.amount + b.fee.amount) - (tx.price.amount + tx.fee.amount), tx.price.currency)
    case TxFinished =>
      r.txKey.Some? && r.txKey.value in txs && txs[r.txKey.value].state == Retired && EndsTx(r, txs[r.txKey.value])
    case TxReimbursed =>
      r.txKey.Some? && r.txKey.value in txs && txs[r.txKey.value].state == Retired && EndsTx(r, txs[r.txKey.value])
    case PayIn =>
      r.depositKey.Some? && r.depositKey.value in deposits && Credits(r, deposits[r.depositKey.value])
    case PayOut =>
      && r.depositKey.Some? && r.depositKey.value in deposits && Credits(r, deposits[r.depositKey.value])
      && deposits[r.depositKey.value].dType == Injection && deposits[r.depositKey.value].amount.amount < 0
    case PayOutReimburse => false
  }

  lemma BidMeaning(r: Request, deposits: map<string, Deposit>, bids: map<string, Bid>, txs: map<string, Tx>)
    requires Fits(r, deposits, bids, txs) && BidsOk(bids)
    requires r.mType == BidBooked || r.mType == BidReimbursed
    requires Expected(deposits, bids, txs, CauseOf(r).value)
    ensures Meaning(r, deposits, bids, txs)
  {
    BidTotalAt(bids, r.bidKey.value);
  }

  lemma ExcessMeaning(r: Request, deposits: map<string, Deposit>, bids: map<string, Bid>, txs: map<string, Tx>)
    requires Fits(r, deposits, bids, txs) && BidsOk(bids) && TxsLinked(bids, txs) && r.mType == TxBooked
    requires Sound(r)
    ensures Meaning(r, deposits, bids, txs)
  {
    var t := r.txKey.value;
    var tx := txs[t];
    assert Linked(bids, t, tx);
    TxAmounts(bids, t, tx);
    BidTotalAt(bids, tx.buyerBid);
    hide BidsOk, TxsLinked, Linked;
  }

  lemma EndOfTx(tx: Tx, t: string)
    requires tx.price.currency == tx.fee.currency
    requires 0 <= tx.price.amount && 0 <= tx.fee.amount && TxTotal(tx) <= MAX64
    ensures EndsTx(SettlementRequest(tx, t), tx)
    ensures SettlementRequest(tx, t).txKey == Some(t)
  {
    SettlementAmounts(tx, t);
  }

  lemma EndMeaning(r: Request, deposits: map<string, Deposit>, bids: map<string, Bid>, txs: map<string, Tx>)
    requires Fits(r, deposits, bids, txs) && BidsOk(bids) && TxsLinked(bids, txs)
    requires r.mType == TxFinished || r.mType == TxReimbursed
    ensures Meaning(r, deposits, bids, txs)
  {
    hide BidsOk, TxsLinked, SettlementRequest, EndsTx;
    var t := r.txKey.value;
    LinkedAmounts(bids, txs, t);
    EndOfTx(txs[t], t);
  }

  lemma LinkedAmounts(bids: map<string, Bid>, txs: map<string, Tx>, t: string)
    requires BidsOk(bids) && TxsLinked(bids, txs) && t in txs
    ensures var tx := txs[t];
      tx.price.currency == tx.fee.currency && 0 <= tx.price.amount && 0 <= tx.fee.amount && TxTotal(tx) <= MAX64
  {
    hide BidsOk;
    assert Linked(bids, t, txs[t]);
    TxAmounts(bids, t, txs[t]);
  }

  lemma DepositMeaning(r: Request, deposits: map<string, Deposit>, bids: map<string, Bid>, txs: map<string, Tx>)
    requires Fits(r, deposits, bids, txs) && Sound(r) && (r.mType == PayIn || r.mType == PayOut)
    ensures Meaning(r, deposits, bids, txs)
  {
  }

  lemma OnceExpected(movements: map<string, Movement>, deposits: map<string, Deposit>, bids: map<string, Bid>,
                     txs: map<string, Tx>, k: string)
    requires SettledOnce(movements, deposits, bids, txs) && k in movements && CauseOf(movements[k].request).Some?
    ensures Expected(deposits, bids, txs, CauseOf(movements[k].request).value)
  {
    hide Expected, CauseOf;
    assert k in Moves(movements, CauseOf(movements[k].request).value);
  }

  lemma SoundAt(books: Books, k: string)
    requires BooksOk(books) && k in books.movements
    ensures Sound(books.movements[k].request)
  {
    hide Sound, Conserved, Chained;
  }

  /** In every reachable state every entry of the ledger says, in plain amounts, what its bid,
      transaction or deposit calls for. */
  lemma EntriesMeanWhatTheySay(crypto: Crypto, s: State, k: string)
    requires Reachable(crypto, s) && k in s.books.movements
    ensures Meaning(s.books.movements[k].request, s.deposits, s.bids, s.txs)
  {
    hide Reachable, BooksOk, BidsOk, TxsLinked, BidsLinked, Escrowed, CurrenciesAgree, TasksPending, TxsOk, HotOk, SettledOnce,
         Fits, Sound, Expected, Meaning;
    ReachableOk(crypto, s);
    var r := s.books.movements[k].request;
    SoundAt(s.books, k);
    HasCause(r, s.deposits, s.bids, s.txs);
    OnceExpected(s.books.movements, s.deposits, s.bids, s.txs, k);
    match r.mType
    case BidBooked => BidMeaning(r, s.deposits, s.bids, s.txs);
    case BidReimbursed => BidMeaning(r, s.deposits, s.bids, s.txs);
    case TxBooked => ExcessMeaning(r, s.deposits, s.bids, s.txs);
    case TxFinished => EndMeaning(r, s.deposits, s.bids, s.txs);
    case TxReimbursed => EndMeaning(r, s.deposits, s.bids, s.txs);
    case PayIn => DepositMeaning(r, s.deposits, s.bids, s.txs);
    case PayOut => DepositMeaning(r, s.deposits, s.bids, s.txs);
    case PayOutReimburse =>
  }

  lemma HasCause(r: Request, deposits: map<string, Deposit>, bids: map<string, Bid>, txs: map<string, Tx>)
    requires Fits(r, deposits, bids, txs)
    ensures CauseOf(r).Some?
  {
  }

  /** The entries that end a transaction. */
  ghost function Ends(s: State, t: string): set<string> {
    set k | k in s.books.movements && s.books.movements[k].request.txKey == Some(t)
            && s.books.movements[k].request.mType != TxBooked
  }

  lemma EndsAreMoves(s: State, t: string)
    requires forall k :: k in s.books.movements ==> Fits(s.books.movements[k].request, s.deposits, s.bids, s.txs)
    ensures Ends(s, t) == Moves(s.books.movements, TxEndCause(t))
  {
    forall k | k in s.books.movements
      ensures k in Ends(s, t) <==> k in Moves(s.books.movements, TxEndCause(t))
    {
      EndsOrNot(s.books.movements[k].request, s.deposits, s.bids, s.txs, t);
    }
  }

  lemma EndsOrNot(r: Request, deposits: map<string, Deposit>, bids: map<string, Bid>, txs: map<string, Tx>, t: string)
    requires Fits(r, deposits, bids, txs)
    ensures (r.txKey == Some(t) && r.mType != TxBooked) <==> CauseOf(r) == Some(TxEndCause(t))
  {
  }

  lemma InEnds(s: State, t: string, k: string)
    requires k in Ends(s, t)
    ensures k in s.books.movements
    ensures s.books.movements[k].request.txKey == Some(t) && s.books.movements[k].request.mType != TxBooked
  {
  }

  lemma EndingType(r: Request, deposits: map<string, Deposit>, bids: map<string, Bid>, txs: map<string, Tx>, t: string)
    requires Fits(r, deposits, bids, txs) && Meaning(r, deposits, bids, txs)
    requires r.txKey == Some(t) && r.mType != TxBooked
    ensures t in txs && EndsTx(r, txs[t])
  {
    hide EndsTx;
  }

  lemma TheOnly<T>(a: set<T>) returns (x: T)
    requires |a| == 1
    ensures a == {x}
  {
    x :| x in a;
    assert |a - {x}| == 0;
  }

  /** A retired transaction has been ended by exactly one entry, an active one by none. In the
      phases Finished and Unverified that entry pays the seller and keeps the fee; in every other
      phase it returns price and fee to the buyer. */
  lemma SettledByPhase(crypto: Crypto, s: State, t: string)
    requires Reachable(crypto, s) && t in s.txs
    ensures s.txs[t].state == Active ==> Ends(s, t) == {}
    ensures s.txs[t].state == Retired ==>
              exists k :: Ends(s, t) == {k} && k in s.books.movements && EndsTx(s.books.movements[k].request, s.txs[t])
  {
    hide Reachable, Fits, Moves, EndsTx, Ends;
    MovedExactlyOnce(crypto, s, TxEndCause(t));
    EndsAreMoves(s, t);
    if s.txs[t].state == Retired {
      var k := TheOnly(Ends(s, t));
      InEnds(s, t, k);
      EntriesMeanWhatTheySay(crypto, s, k);
      EndingType(s.books.movements[k].request, s.deposits, s.bids, s.txs, t);
    }
  }
}
