/** What holds in every reachable state of the market. */
module MarketInvariant {
  import opened Prelude
  import opened Amounts
  import opened Ledger
  import opened LedgerProofs
  import opened Bids
  import opened Transactions
  import opened TransactionProofs
  import opened OrderBook
  import opened Market

  // ---------------------------------------------------------------- bids and transactions

  function Total(b: Bid): int {
    b.price.amount + b.fee.amount
  }

  function TxTotal(tx: Tx): int {
    tx.price.amount + tx.fee.amount
  }

  predicate BidOk(b: Bid) {
    && b.fee.currency == b.price.currency
    && 0 <= b.price.amount < PriceLimit(SERVER_DEFAULTS) && b.price.amount < TEXT_LIMIT
    && b.fee.amount == FeeAmount(SERVER_DEFAULTS, b.price.amount)
    && b.created >= 0
    && b.participant != ""
    && (b.transaction.Some? <==> b.state == Matched)
  }

  predicate BidsOk(bids: map<string, Bid>) {
    forall k :: k in bids ==> BidOk(bids[k])
  }

  lemma BidTotal(b: Bid)
    requires BidOk(b)
    ensures 0 <= b.fee.amount && 0 <= Total(b) <= MAX64
    ensures b.price.Add(b.fee) == Money(Total(b), b.price.currency)
  {
    FeeIsLeast(SERVER_DEFAULTS, b.price.amount);
  }

  /** The parts of a bid that no step changes. */
  predicate SameTerms(b: Bid, b': Bid) {
    && b'.bidType == b.bidType && b'.article == b.article
    && b'.price == b.price && b'.fee == b.fee
    && b'.participant == b.participant
    && b'.created == b.created && b'.expires == b.expires
  }

  /** A transaction and its two bids refer to each other; its terms are those of one of them. */
  predicate Linked(bids: map<string, Bid>, t: string, tx: Tx) {
    && tx.buyerBid in bids && tx.sellerBid in bids
    && var b, s := bids[tx.buyerBid], bids[tx.sellerBid];
    && b.bidType == Buy && s.bidType == Sell
    && b.transaction == Some(t) && s.transaction == Some(t)
    && tx.buyer == b.participant && tx.seller == s.participant
    && b.article == s.article == tx.article
    && b.price.currency == s.price.currency == tx.price.currency
    && ((tx.price == b.price && tx.fee == b.fee) || (tx.price == s.price && tx.fee == s.fee))
    && TxTotal(tx) <= Total(b)
  }

  predicate TxsLinked(bids: map<string, Bid>, txs: map<string, Tx>) {
    forall t :: t in txs ==> Linked(bids, t, txs[t])
  }

  predicate InTx(txs: map<string, Tx>, k: string, b: Bid) {
    b.transaction.Some? ==>
      && b.transaction.value in txs
      && (txs[b.transaction.value].buyerBid == k || txs[b.transaction.value].sellerBid == k)
  }

  predicate BidsLinked(bids: map<string, Bid>, txs: map<string, Tx>) {
    forall k :: k in bids ==> InTx(txs, k, bids[k])
  }

  /** In every transaction the amounts are small enough for exact arithmetic. */
  lemma TxAmounts(bids: map<string, Bid>, t: string, tx: Tx)
    requires BidsOk(bids) && Linked(bids, t, tx)
    ensures tx.price.currency == tx.fee.currency
    ensures 0 <= tx.price.amount && 0 <= tx.fee.amount && TxTotal(tx) <= MAX64
    ensures tx.price.Add(tx.fee) == Money(TxTotal(tx), tx.price.currency)
  {
    BidTotal(bids[tx.buyerBid]);
    BidTotal(bids[tx.sellerBid]);
  }

  // ---------------------------------------------------------------- escrow

  function DueFrom(b: Bid, p: string): int {
    if b.participant == p then Due(b) else 0
  }

  function TxDueFrom(tx: Tx, p: string): int {
    if tx.buyer == p then TxDue(tx) else 0
  }

  ghost function BidDues(bids: map<string, Bid>, p: string): map<string, int> {
    map k | k in bids :: DueFrom(bids[k], p)
  }

  ghost function TxDues(txs: map<string, Tx>, p: string): map<string, int> {
    map t | t in txs :: TxDueFrom(txs[t], p)
  }

  /** Everything that must stay blocked on behalf of `p`: price and fee of every open buy and of
      every active transaction in which `p` is the buyer. */
  ghost function Obligations(bids: map<string, Bid>, txs: map<string, Tx>, p: string): int {
    Sum(BidDues(bids, p)) + Sum(TxDues(txs, p))
  }

  ghost predicate Escrowed(accounts: map<string, Account>, bids: map<string, Bid>, txs: map<string, Tx>) {
    forall p :: AccountOf(accounts, p).blocked == Obligations(bids, txs, p)
  }

  /** An account owing money owes it in its own currency. */
  predicate CurrenciesAgree(accounts: map<string, Account>, bids: map<string, Bid>, txs: map<string, Tx>) {
    && (forall k :: k in bids && Due(bids[k]) > 0 ==>
          AccountOf(accounts, bids[k].participant).currency == bids[k].price.currency)
    && (forall t :: t in txs && TxDue(txs[t]) > 0 ==>
          AccountOf(accounts, txs[t].buyer).currency == txs[t].price.currency)
  }

  // ---------------------------------------------------------------- settled exactly once

  /** Why a movement was placed. */
  datatype Cause =
    | BidCause(bid: string)
    | BidBackCause(bid: string)
    | TxCause(tx: string)
    | TxEndCause(tx: string)
    | DepositCause(uid: string)

  function CauseOf(r: Request): Option<Cause> {
    match r.mType
    case BidBooked => if r.bidKey.Some? then Some(BidCause(r.bidKey.value)) else None
    case BidReimbursed => if r.bidKey.Some? then Some(BidBackCause(r.bidKey.value)) else None
    case TxBooked => if r.txKey.Some? then Some(TxCause(r.txKey.value)) else None
    case TxFinished => if r.txKey.Some? then Some(TxEndCause(r.txKey.value)) else None
    case TxReimbursed => if r.txKey.Some? then Some(TxEndCause(r.txKey.value)) else None
    case PayIn => if r.depositKey.Some? then Some(DepositCause(r.depositKey.value)) else None
    case PayOut => if r.depositKey.Some? then Some(DepositCause(r.depositKey.value)) else None
    case PayOutReimburse => None
  }

  ghost function Moves(movements: map<string, Movement>, c: Cause): set<string> {
    set k | k in movements && CauseOf(movements[k].request) == Some(c)
  }

  /** A buy is booked once and reimbursed only if it expires; a transaction frees the excess of
      the buyer's bid if there is any, and is settled once it retires; a deposit is credited. */
  function Expected(deposits: map<string, Deposit>, bids: map<string, Bid>, txs: map<string, Tx>, c: Cause): bool {
    match c
    case BidCause(k) => k in bids && bids[k].bidType == Buy
    case BidBackCause(k) => k in bids && bids[k].bidType == Buy && bids[k].state == Expired
    case TxCause(t) => t in txs && txs[t].buyerBid in bids && Total(bids[txs[t].buyerBid]) > TxTotal(txs[t])
    case TxEndCause(t) => t in txs && txs[t].state == Retired
    case DepositCause(u) => u in deposits
  }

  ghost predicate SettledOnce(movements: map<string, Movement>, deposits: map<string, Deposit>,
                              bids: map<string, Bid>, txs: map<string, Tx>) {
    forall c :: |Moves(movements, c)| == if Expected(deposits, bids, txs, c) then 1 else 0
  }

  predicate SameMoney(b: Bid, tx: Tx) {
    b.price.currency == b.fee.currency == tx.price.currency == tx.fee.currency
  }

  /** What a transaction frees of its buyer's blocked money: the excess of the bid over it. */
  function ExcessRequest(b: Bid, tx: Tx, t: string): Request
    requires SameMoney(b, tx)
  {
    var delta := b.price.Add(b.fee).Sub(tx.price.Add(tx.fee));
    TxRequest(TxBooked, tx.buyer, tx.buyer, delta, delta.Neg(), Zero(tx.price.currency), t)
  }

  predicate Fits(r: Request, deposits: map<string, Deposit>, bids: map<string, Bid>, txs: map<string, Tx>) {
    match CauseOf(r)
    case None => false
    case Some(BidCause(k)) =>
      k in bids && bids[k].price.currency == bids[k].fee.currency &&
      r == BidRequest(bids[k], k, BidBooked, bids[k].price.Add(bids[k].fee).Neg(), bids[k].price.Add(bids[k].fee))
    case Some(BidBackCause(k)) =>
      k in bids && bids[k].price.currency == bids[k].fee.currency &&
      r == BidRequest(bids[k], k, BidReimbursed, bids[k].price.Add(bids[k].fee), bids[k].price.Add(bids[k].fee).Neg())
    case Some(TxCause(t)) =>
      t in txs && txs[t].buyerBid in bids && SameMoney(bids[txs[t].buyerBid], txs[t]) &&
      r == ExcessRequest(bids[txs[t].buyerBid], txs[t], t) &&
      r.availableDelta.amount == Total(bids[txs[t].buyerBid]) - TxTotal(txs[t])
    case Some(TxEndCause(t)) =>
      t in txs && txs[t].state == Retired &&
      txs[t].price.currency == txs[t].fee.currency && r == SettlementRequest(txs[t], t)
    case Some(DepositCause(u)) =>
      u in deposits && r == DepositRequest(u, deposits[u])
  }

  /** Every movement moves exactly what its cause calls for. */
  predicate Explained(movements: map<string, Movement>, deposits: map<string, Deposit>,
                      bids: map<string, Bid>, txs: map<string, Tx>) {
    forall k :: k in movements ==> Fits(movements[k].request, deposits, bids, txs)
  }

  // ---------------------------------------------------------------- tasks, messages, hot bids

  predicate TasksPending(tasks: multiset<Task>, bids: map<string, Bid>, txs: map<string, Tx>) {
    && (forall k :: k in bids && IsOpen(bids[k]) ==> RetireBidTask(k, bids[k].expires) in tasks)
    && (forall t :: t in txs && txs[t].state == Active ==> RetireTxTask(t, txs[t].timeout) in tasks)
  }

  ghost predicate TxsOk(crypto: Crypto, txs: map<string, Tx>, messages: map<string, seq<Tmessage>>) {
    && messages.Keys <= txs.Keys
    && (forall t :: t in txs ==> TxOk(crypto, txs[t], if t in messages then messages[t] else []))
  }

  predicate Mirrors(bids: map<string, Bid>, matchKey: string, h: HotBid) {
    && h.bidKey in bids
    && h == NewHotBid(h.bidKey, bids[h.bidKey])
    && matchKey == MatchKey(bids[h.bidKey].article, bids[h.bidKey].price.currency)
  }

  ghost predicate ZoneOk(bids: map<string, Bid>, matchKey: string, zone: Book) {
    && zone.Sided() && zone.Uncrossed()
    && (forall x :: x in zone.buys || x in zone.sells ==> Mirrors(bids, matchKey, x))
  }

  /** Two bids that a batch has paired: they match, and the older one's price suits both. */
  predicate FairKeys(bids: map<string, Bid>, time: int, newKey: string, oldKey: string) {
    && newKey in bids && oldKey in bids
    && var n, o := bids[newKey], bids[oldKey];
    && n.bidType != o.bidType
    && n.article == o.article && n.price.currency == o.price.currency
    && o.expires > time
    && (o.bidType == Sell ==> o.price.amount <= n.price.amount)
    && (o.bidType == Buy ==> o.price.amount >= n.price.amount)
  }

  predicate PairsFair(bids: map<string, Bid>, time: int, pairs: seq<(string, string)>) {
    forall pair :: pair in pairs ==> FairKeys(bids, time, pair.0, pair.1)
  }

  ghost predicate HotOk(bids: map<string, Bid>, tasks: multiset<Task>, hotQueue: set<(string, HotBid)>,
                        zones: map<string, Book>) {
    && (forall mk, h :: (mk, h) in hotQueue ==> Mirrors(bids, mk, h))
    && (forall mk :: mk in zones ==> ZoneOk(bids, mk, zones[mk]))
    && (forall task :: task in tasks && task.ApplyTask? ==> PairsFair(bids, task.time, task.matched))
  }

  ghost predicate Invariant(crypto: Crypto, s: State) {
    && BooksOk(s.books)
    && BidsOk(s.bids)
    && TxsLinked(s.bids, s.txs) && BidsLinked(s.bids, s.txs)
    && Escrowed(s.books.accounts, s.bids, s.txs)
    && CurrenciesAgree(s.books.accounts, s.bids, s.txs)
    && SettledOnce(s.books.movements, s.deposits, s.bids, s.txs)
    && Explained(s.books.movements, s.deposits, s.bids, s.txs)
    && TasksPending(s.tasks, s.bids, s.txs)
    && TxsOk(crypto, s.txs, s.messages)
    && HotOk(s.bids, s.tasks, s.hotQueue, s.zones)
  }

  // ---------------------------------------------------------------- frames

  lemma DuesAfterBid(bids: map<string, Bid>, k: string, b: Bid, p: string)
    ensures Sum(BidDues(bids[k := b], p)) ==
            Sum(BidDues(bids, p)) - (if k in bids then DueFrom(bids[k], p) else 0) + DueFrom(b, p)
  {
    SumUpdate(BidDues(bids, p), BidDues(bids[k := b], p), k);
  }

  lemma DuesAfterTx(txs: map<string, Tx>, t: string, tx: Tx, p: string)
    ensures Sum(TxDues(txs[t := tx], p)) ==
            Sum(TxDues(txs, p)) - (if t in txs then TxDueFrom(txs[t], p) else 0) + TxDueFrom(tx, p)
  {
    SumUpdate(TxDues(txs, p), TxDues(txs[t := tx], p), t);
  }

  predicate DuesNonNegative(bids: map<string, Bid>, txs: map<string, Tx>) {
    && (forall k :: k in bids ==> 0 <= Due(bids[k]))
    && (forall t :: t in txs ==> 0 <= TxDue(txs[t]))
  }

  lemma BidDueNonNegative(b: Bid)
    requires BidOk(b)
    ensures 0 <= Due(b)
  {
    BidTotal(b);
  }

  lemma TxDueNonNegative(bids: map<string, Bid>, t: string, tx: Tx)
    requires BidsOk(bids) && Linked(bids, t, tx)
    ensures 0 <= TxDue(tx)
  {
    TxAmounts(bids, t, tx);
  }

  lemma AllDuesNonNegative(bids: map<string, Bid>, txs: map<string, Tx>)
    requires BidsOk(bids) && TxsLinked(bids, txs)
    ensures DuesNonNegative(bids, txs)
  {
    forall k | k in bids ensures 0 <= Due(bids[k]) { BidDueNonNegative(bids[k]); }
    forall t | t in txs ensures 0 <= TxDue(txs[t]) { TxDueNonNegative(bids, t, txs[t]); }
  }

  lemma SumsNonNegative(bids: map<string, Bid>, txs: map<string, Tx>, p: string)
    requires DuesNonNegative(bids, txs)
    ensures Sum(BidDues(bids, p)) >= 0 && Sum(TxDues(txs, p)) >= 0
  {
    SumNonNegative(BidDues(bids, p));
    SumNonNegative(TxDues(txs, p));
  }

  /** One obligation never exceeds the sum of all. */
  lemma BidDueBounded(bids: map<string, Bid>, txs: map<string, Tx>, k: string)
    requires DuesNonNegative(bids, txs) && k in bids
    ensures Due(bids[k]) <= Obligations(bids, txs, bids[k].participant)
  {
    var p := bids[k].participant;
    SumsNonNegative(bids, txs, p);
    SumBoundsTerm(BidDues(bids, p), k);
  }

  lemma TxDueBounded(bids: map<string, Bid>, txs: map<string, Tx>, t: string)
    requires DuesNonNegative(bids, txs) && t in txs
    ensures TxDue(txs[t]) <= Obligations(bids, txs, txs[t].buyer)
  {
    var p := txs[t].buyer;
    SumsNonNegative(bids, txs, p);
    SumBoundsTerm(TxDues(txs, p), t);
  }

  /** A movement never changes the currency of an account that owes anything. */
  lemma PlaceKeepsCurrencies(accounts: map<string, Account>, accounts': map<string, Account>, r: Request,
                             bids: map<string, Bid>, txs: map<string, Tx>)
    requires DuesNonNegative(bids, txs)
    requires Escrowed(accounts, bids, txs) && CurrenciesAgree(accounts, bids, txs)
    requires forall p :: Moved(AccountOf(accounts, p), AccountOf(accounts', p), p, r)
    ensures CurrenciesAgree(accounts', bids, txs)
  {
    forall k | k in bids && Due(bids[k]) > 0
      ensures AccountOf(accounts', bids[k].participant).currency == bids[k].price.currency
    {
      BidDueBounded(bids, txs, k);
      var p := bids[k].participant;
      assert Moved(AccountOf(accounts, p), AccountOf(accounts', p), p, r);
    }
    forall t | t in txs && TxDue(txs[t]) > 0
      ensures AccountOf(accounts', txs[t].buyer).currency == txs[t].price.currency
    {
      TxDueBounded(bids, txs, t);
      var p := txs[t].buyer;
      assert Moved(AccountOf(accounts, p), AccountOf(accounts', p), p, r);
    }
  }

  /** A new movement adds itself to the moves of its own cause and to no other. */
  lemma PlaceAddsMove(movements: map<string, Movement>, key: string, m: Movement, c: Cause)
    requires key !in movements
    ensures |Moves(movements[key := m], c)| ==
            |Moves(movements, c)| + if CauseOf(m.request) == Some(c) then 1 else 0
  {
    var ms, ms' := Moves(movements, c), Moves(movements[key := m], c);
    if CauseOf(m.request) == Some(c) {
      assert ms' == ms + {key};
    } else {
      assert ms' == ms;
    }
  }

  predicate BidsEvolve(bids: map<string, Bid>, bids': map<string, Bid>) {
    forall k :: k in bids ==> k in bids' && SameTerms(bids[k], bids'[k])
  }

  lemma HotKept(bids: map<string, Bid>, tasks: multiset<Task>, hotQueue: set<(string, HotBid)>,
                zones: map<string, Book>, bids': map<string, Bid>, tasks': multiset<Task>)
    requires HotOk(bids, tasks, hotQueue, zones) && BidsEvolve(bids, bids')
    requires forall task :: task in tasks' && task.ApplyTask? ==> task in tasks
    ensures HotOk(bids', tasks', hotQueue, zones)
  {
    forall mk | mk in zones ensures ZoneOk(bids', mk, zones[mk]) {
      assert ZoneOk(bids, mk, zones[mk]);
    }
    forall task | task in tasks' && task.ApplyTask? ensures PairsFair(bids', task.time, task.matched) {
      assert PairsFair(bids, task.time, task.matched);
    }
  }
}
