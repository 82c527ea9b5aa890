/** The market as a state machine: everything the server stores, and each datastore transaction
    as one atomic step that either happens completely or not at all. */
module Market {
  import opened Prelude
  import opened Amounts
  import opened Ledger
  import opened Bids
  import opened Transactions
  import opened OrderBook

  datatype DepositType = Injection | Bitcoin

  datatype Deposit = Deposit(dType: DepositType, amount: Money, account: string, reference: string, created: int)

  predicate SameDeposit(a: Deposit, b: Deposit) {
    a.account == b.account && a.amount == b.amount && a.reference == b.reference && a.dType == b.dType
  }

  /** Work handed to the task queue. Retirement tasks must not run before their `eta`. */
  datatype Task =
    | RetireBidTask(bid: string, eta: int)
    | RetireTxTask(tx: string, eta: int)
    | ApplyTask(time: int, matched: seq<(string, string)>, placed: seq<string>)

  /** All persistent state. `hotQueue` holds every hot bid ever handed to the matcher together
      with its match key; leasing does not remove it, since a lease may expire and recur. */
  datatype State = State(
    books: Books,
    deposits: map<string, Deposit>,
    bids: map<string, Bid>,
    txs: map<string, Tx>,
    messages: map<string, seq<Tmessage>>,
    tasks: multiset<Task>,
    hotQueue: set<(string, HotBid)>,
    zones: map<string, Book>)

  const EMPTY_BOOK := Book(multiset{}, multiset{})

  const INITIAL := State(Books(map[], map[]), map[], map[], map[], map[], multiset{}, {}, map[])

  function ZoneOf(s: State, matchKey: string): Book {
    if matchKey in s.zones then s.zones[matchKey] else EMPTY_BOOK
  }

  function MessagesOf(s: State, key: string): seq<Tmessage> {
    if key in s.messages then s.messages[key] else []
  }

  // ---------------------------------------------------------------- the atomic steps

  function DepositRequest(uid: string, d: Deposit): Request {
    Request(if d.amount.amount < 0 && d.dType == Injection then PayOut else PayIn,
            d.account, d.account, d.amount, Zero(d.amount.currency),
            Zero(d.amount.currency), d.amount.Neg(), None, None, Some(uid))
  }

  function PlaceDeposit(s: State, uid: string, d: Deposit, moveKey: string): Result<State> {
    if uid in s.deposits then
      if SameDeposit(s.deposits[uid], d) then Ok(s) else Err(DifferentDeposit)
    else match Place(s.books, d.created, DepositRequest(uid, d), moveKey)
      case Err(e) => Err(e)
      case Ok(books) => Ok(s.(books := books, deposits := s.deposits[uid := d]))
  }

  /** Blocks the money, stores the bid, schedules its retirement and hands it to the matcher. */
  function EnqueueBid(s: State, b: Bid, bidKey: string, moveKey: string): Result<State> {
    match Reserve(s.books, b, bidKey, moveKey)
    case Err(e) => Err(e)
    case Ok(books) =>
      if b.participant == "" then Err(Panicked)
      else Ok(s.(books := books,
                 bids := s.bids[bidKey := b],
                 tasks := s.tasks + multiset{RetireBidTask(bidKey, b.expires)},
                 hotQueue := s.hotQueue + {(MatchKey(b.article, b.price.currency), NewHotBid(bidKey, b))}))
  }

  function PlaceBid(s: State, key: string): Result<State> {
    if key !in s.bids then Err(NoSuchObject)
    else if s.bids[key].state != InQueue then Ok(s)
    else Ok(s.(bids := s.bids[key := s.bids[key].(state := Placed)]))
  }

  function RetireBidStep(s: State, key: string, now: int, moveKey: string): Result<State> {
    if key !in s.bids then Err(NoSuchObject)
    else if s.bids[key].state == Matched then Ok(s)
    else if s.bids[key].created < 0 then Ok(s)
    else match RetireBid(s.books, s.bids[key], key, now, moveKey)
      case Err(e) => Err(e)
      case Ok((books, b)) => Ok(s.(books := books, bids := s.bids[key := b]))
  }

  /** An older bid may still be in the queue because its placement has not been recorded yet. */
  function AsPlaced(b: Bid): Bid {
    if b.state == InQueue then b.(state := Placed) else b
  }

  function MatchBids(s: State, time: int, newKey: string, oldKey: string, txKey: string, moveKey: string)
    : Result<State>
  {
    if newKey !in s.bids || oldKey !in s.bids then Err(NoSuchObject)
    else match NewTransaction(time, newKey, oldKey, s.bids[newKey], AsPlaced(s.bids[oldKey]))
      case Err(e) => Err(e)
      case Ok((tx, newBid, oldBid)) =>
        match BookTx(s.books, tx, txKey, if newBid.bidType == Buy then newBid else oldBid, moveKey)
        case Err(e) => Err(e)
        case Ok(books) =>
          Ok(s.(books := books,
                bids := s.bids[newKey := newBid.(transaction := Some(txKey))]
                              [oldKey := oldBid.(transaction := Some(txKey))],
                txs := s.txs[txKey := tx],
                tasks := s.tasks + multiset{RetireTxTask(txKey, tx.timeout)}))
  }

  function UpdateTransaction(crypto: Crypto, s: State, key: string, now: int, address: string, arguments: Arguments)
    : Result<State>
  {
    if key !in s.txs then Err(NoSuchObject)
    else
      var (tx, m) := Deliver(crypto, s.txs[key], now, address, arguments);
      if !m.accepted then Err(Rejected)
      else Ok(s.(txs := s.txs[key := tx],
                 messages := s.messages[key := MessagesOf(s, key) + [m]],
                 tasks := s.tasks + multiset{RetireTxTask(key, tx.timeout)}))
  }

  function RetireTransaction(s: State, key: string, now: int, moveKey: string): Result<State> {
    if key !in s.txs then Err(NoSuchObject)
    else match RetireTx(s.books, s.txs[key], key, now, moveKey)
      case Err(e) => Err(e)
      case Ok((books, tx)) => Ok(s.(books := books, txs := s.txs[key := tx]))
  }

  /** One batch of the matcher: `books` and `events` are its session, `placed` the incoming bids
      that now rest in the zone, `purged` the stored bids removed for having expired. */
  datatype Batch = Batch(
    matchKey: string,
    time: int,
    books: seq<Book>,
    events: seq<Event>,
    placed: seq<HotBid>,
    purged: Book)

  function ZoneAfter(b: Batch): Book
    requires b.books != []
  {
    var last := b.books[|b.books| - 1];
    Book(last.buys - b.purged.buys, last.sells - b.purged.sells)
  }

  /** The stored zone plus the incoming bids account for everything: what rests afterwards is
      either a placed incoming bid or a stored bid that is still alive. */
  ghost predicate BatchPossible(s: State, b: Batch) {
    && Session(b.books, b.time, b.events)
    && b.books[0] == ZoneOf(s, b.matchKey)
    && (forall x :: x in Incoming(b.events) ==> (b.matchKey, x) in s.hotQueue)
    && (forall x :: x in b.placed ==> x in Incoming(b.events))
    && b.purged.buys <= b.books[|b.events|].buys && b.purged.sells <= b.books[|b.events|].sells
    && b.purged.All() <= b.books[0].All()
    && (forall x :: x in b.purged.All() ==> x.expires <= b.time)
    && multiset(b.placed) <= ZoneAfter(b).All()
    && b.books[|b.events|].All() - multiset(b.placed) <= b.books[0].All()
    && (forall x :: x in ZoneAfter(b).All() - multiset(b.placed) ==> x.expires > b.time)
  }

  function KeyPairs(pairs: seq<(HotBid, HotBid)>): seq<(string, string)> {
    seq(|pairs|, i requires 0 <= i < |pairs| => (pairs[i].0.bidKey, pairs[i].1.bidKey))
  }

  function Keys(bids: seq<HotBid>): seq<string> {
    seq(|bids|, i requires 0 <= i < |bids| => bids[i].bidKey)
  }

  function BatchTasks(b: Batch): multiset<Task> {
    if Matches(b.events) == [] && b.placed == [] then multiset{}
    else multiset{ApplyTask(b.time, KeyPairs(Matches(b.events)), Keys(b.placed))}
  }

  function FinishBatch(s: State, b: Batch): State
    requires b.books != []
  {
    s.(zones := s.zones[b.matchKey := ZoneAfter(b)], tasks := s.tasks + BatchTasks(b))
  }

  /** A task that ran and was acknowledged. A failing retirement is not acknowledged and stays
      queued; a transaction that is too young or already retired counts as done. The changes an
      apply task makes are steps of their own. */
  function TaskDone(s: State, task: Task, now: int, moveKey: string): Result<State> {
    var left := s.tasks - multiset{task};
    match task
    case ApplyTask(_, _, _) => Ok(s.(tasks := left))
    case RetireBidTask(key, _) =>
      (match RetireBidStep(s, key, now, moveKey)
       case Err(e) => Err(e)
       case Ok(s') => Ok(s'.(tasks := left)))
    case RetireTxTask(key, _) =>
      (match RetireTransaction(s, key, now, moveKey)
       case Err(e) => if e == TooYoung || e == AlreadyRetired then Ok(s.(tasks := left)) else Err(e)
       case Ok(s') => Ok(s'.(tasks := left)))
  }

  datatype Step =
    | DoDeposit(uid: string, deposit: Deposit, moveKey: string)
    | DoEnqueue(bidType: string, article: string, price: string, participant: string, now: int,
                bidKey: string, moveKey: string)
    | DoBatch(batch: Batch)
    | DoPlace(key: string)
    | DoMatch(time: int, newKey: string, oldKey: string, txKey: string, moveKey: string)
    | DoMessage(key: string, now: int, address: string, arguments: Arguments)
    | DoRetireBid(key: string, now: int, moveKey: string)
    | DoRetireTx(key: string, now: int, moveKey: string)
    | DoTask(task: Task, now: int, moveKey: string)

  lemma ServerRatioSane()
    ensures SaneRatio(SERVER_DEFAULTS)
  {
  }

  /** Keys are fresh; tasks are queued and due; clocks show a time after 1970. Match pairs, bid
      keys, senders, arguments and deposits are arbitrary, and retirement may be attempted at
      any time and any number of times. */
  ghost predicate Possible(s: State, step: Step) {
    match step
    case DoDeposit(_, _, moveKey) => moveKey !in s.books.movements
    case DoEnqueue(_, _, _, _, now, bidKey, moveKey) =>
      now >= 0 && bidKey !in s.bids && moveKey !in s.books.movements
    case DoBatch(batch) => BatchPossible(s, batch)
    case DoPlace(_) => true
    case DoMatch(_, _, _, txKey, moveKey) => txKey !in s.txs && moveKey !in s.books.movements
    case DoMessage(_, _, _, _) => true
    case DoRetireBid(_, _, moveKey) => moveKey !in s.books.movements
    case DoRetireTx(_, _, moveKey) => moveKey !in s.books.movements
    case DoTask(task, now, moveKey) =>
      && task in s.tasks && moveKey !in s.books.movements
      && (!task.ApplyTask? ==> task.eta <= now)
  }

  function Attempt(crypto: Crypto, s: State, step: Step): Result<State>
    requires step.DoBatch? ==> step.batch.books != []
  {
    match step
    case DoDeposit(uid, deposit, moveKey) => PlaceDeposit(s, uid, deposit, moveKey)
    case DoEnqueue(bidType, article, price, participant, now, bidKey, moveKey) =>
      (match ParseBid(bidType, article, price, participant, now, SERVER_DEFAULTS)
       case Err(e) => Err(e)
       case Ok(b) => EnqueueBid(s, b, bidKey, moveKey))
    case DoBatch(batch) => Ok(FinishBatch(s, batch))
    case DoPlace(key) => PlaceBid(s, key)
    case DoMatch(time, newKey, oldKey, txKey, moveKey) => MatchBids(s, time, newKey, oldKey, txKey, moveKey)
    case DoMessage(key, now, address, arguments) => UpdateTransaction(crypto, s, key, now, address, arguments)
    case DoRetireBid(key, now, moveKey) => RetireBidStep(s, key, now, moveKey)
    case DoRetireTx(key, now, moveKey) => RetireTransaction(s, key, now, moveKey)
    case DoTask(task, now, moveKey) => TaskDone(s, task, now, moveKey)
  }

  /** A failed step leaves the stored state as it was. */
  function After(crypto: Crypto, s: State, step: Step): State
    requires step.DoBatch? ==> step.batch.books != []
  {
    match Attempt(crypto, s, step)
    case Ok(s') => s'
    case Err(_) => s
  }

  /** A run of the market: any possible steps in any order, starting with nothing stored. */
  ghost predicate Run(crypto: Crypto, states: seq<State>, steps: seq<Step>) {
    && |states| == |steps| + 1
    && states[0] == INITIAL
    && forall i :: 0 <= i < |steps| ==>
         Possible(states[i], steps[i]) && states[i + 1] == After(crypto, states[i], steps[i])
  }

  ghost predicate Reachable(crypto: Crypto, s: State) {
    exists states, steps :: Run(crypto, states, steps) && states[|steps|] == s
  }
}
