/** Transactions: the message protocol between buyer and seller as a table of phase
    transitions, what each message must contain, and the money a transaction moves. */
module Transactions {
  import opened Prelude
  import opened Amounts
  import opened Ledger
  import opened Bids

  datatype Phase =
    | Establishing
    | BuyerEstablished
    | SellerEstablished
    | Transmitting
    | Working
    | Unverified
    | Finished
    | WorkDisputed
    | ResultDisputed

  datatype TxState = Active | Retired

  datatype Origin = FromBuyer | FromSeller | FromUnknown

  /** Hashes and keys are kept as their 64 lower-case hexadecimal digits. */
  datatype Receipt = Receipt(hash: string, signature: string)

  datatype Tx = Tx(
    revision: int,
    buyerBid: string,
    sellerBid: string,
    buyer: string,
    seller: string,
    article: string,
    price: Money,
    fee: Money,
    matched: int,
    state: TxState,
    phase: Phase,
    timeout: int,
    workerUrl: Option<string>,
    workHash: Option<string>,
    workSecretHash: Option<string>,
    buyerSecret: Option<string>,
    receipt: Option<Receipt>,
    resultKey: Option<string>)

  /** Foreign functions: SHA-256 over two concatenated hashes, signature verification
      (document, address, signature), base64 decoding of a 65-byte signature, and URL syntax. */
  datatype Crypto = Crypto(
    sha: (string, string) -> string,
    verify: (string, string, string) -> bool,
    decodeSignature: string -> Option<string>,
    validUri: string -> bool)

  type Arguments = map<string, string>

  datatype Tmessage = Tmessage(
    received: int,
    sender: string,
    arguments: Arguments,
    from: Origin,
    accepted: bool,
    rejection: Option<Error>,
    prePhase: Phase,
    postPhase: Phase)

  // ---------------------------------------------------------------- the rule table

  datatype Kind =
    | WorkHashes
    | WorkerUrl
    | BuyerSecret
    | RejectWork
    | TransmitFinished
    | RejectResult
    | AcceptResult

  datatype Transition = Transition(prePhase: Phase, postPhase: Phase)

  datatype Rule = Rule(kind: Kind, from: Origin, names: seq<string>, transitions: seq<Transition>)

  const RULES: seq<Rule> := [
    Rule(WorkHashes, FromBuyer, ["workhash", "worksecrethash"],
         [Transition(Establishing, BuyerEstablished),
          Transition(SellerEstablished, Transmitting)]),
    Rule(WorkerUrl, FromSeller, ["workerurl"],
         [Transition(Establishing, SellerEstablished),
          Transition(BuyerEstablished, Transmitting)]),
    Rule(BuyerSecret, FromSeller, ["buyersecret"],
         [Transition(BuyerEstablished, Working),
          Transition(Transmitting, Working)]),
    Rule(RejectWork, FromSeller, ["rejectwork"],
         [Transition(SellerEstablished, WorkDisputed),
          Transition(Transmitting, WorkDisputed),
          Transition(Working, WorkDisputed)]),
    Rule(TransmitFinished, FromSeller, ["encresulthash", "encresulthashsig", "encresultkey"],
         [Transition(Working, Unverified)]),
    Rule(RejectResult, FromBuyer, ["rejectresult"],
         [Transition(Unverified, WorkDisputed)]),
    Rule(AcceptResult, FromBuyer, ["acceptresult"],
         [Transition(Establishing, Finished),
          Transition(BuyerEstablished, Finished),
          Transition(SellerEstablished, Finished),
          Transition(Transmitting, Finished),
          Transition(Working, Finished),
          Transition(Unverified, Finished)])
  ]

  predicate SenderFits(rule: Rule, tx: Tx, address: string) {
    && (rule.from == FromBuyer ==> address == tx.buyer)
    && (rule.from == FromSeller ==> address == tx.seller)
  }

  predicate NamesFit(rule: Rule, arguments: Arguments) {
    |arguments| == |rule.names| && forall i :: 0 <= i < |rule.names| ==> rule.names[i] in arguments
  }

  /** The first rule for which both sender and argument names fit. */
  function FindRule(rules: seq<Rule>, tx: Tx, address: string, arguments: Arguments): (r: Option<Rule>)
    ensures r.Some? ==> r.value in rules && SenderFits(r.value, tx, address) && NamesFit(r.value, arguments)
    ensures r.None? ==>
      forall rule :: rule in rules ==> !(SenderFits(rule, tx, address) && NamesFit(rule, arguments))
  {
    if rules == [] then None
    else if SenderFits(rules[0], tx, address) && NamesFit(rules[0], arguments) then Some(rules[0])
    else FindRule(rules[1..], tx, address, arguments)
  }

  function FindTransition(transitions: seq<Transition>, phase: Phase): (r: Option<Transition>)
    ensures r.Some? ==> r.value in transitions && r.value.prePhase == phase
    ensures r.None? ==> forall t :: t in transitions ==> t.prePhase != phase
  {
    if transitions == [] then None
    else if transitions[0].prePhase == phase then Some(transitions[0])
    else FindTransition(transitions[1..], phase)
  }

  // ---------------------------------------------------------------- message contents

  predicate IsHexDigit(c: char) {
    '0' <= c <= '9' || 'a' <= c <= 'f'
  }

  predicate IsHash(s: string) {
    |s| == 64 && forall i :: 0 <= i < 64 ==> IsHexDigit(s[i])
  }

  /** The value of an argument; a missing one reads as the empty string. */
  function Argument(arguments: Arguments, name: string): string {
    if name in arguments then arguments[name] else ""
  }

  const HTTP_PREFIX := "http://"

  predicate IsWorkerUrl(crypto: Crypto, s: string) {
    && HTTP_PREFIX <= s
    && (forall i :: 7 <= i < |s| ==> s[i] != '\n')
    && crypto.validUri(s)
  }

  /** Runs the handler of one kind of message. A handler that panics counts as failed. */
  function Handle(crypto: Crypto, kind: Kind, tx: Tx, arguments: Arguments): Result<Tx> {
    match kind
    case WorkHashes =>
      var h, s := Argument(arguments, "workhash"), Argument(arguments, "worksecrethash");
      if IsHash(h) && IsHash(s) then Ok(tx.(workHash := Some(h), workSecretHash := Some(s)))
      else Err(Panicked)
    case WorkerUrl =>
      var u := Argument(arguments, "workerurl");
      if IsWorkerUrl(crypto, u) then Ok(tx.(workerUrl := Some(u))) else Err(Panicked)
    case BuyerSecret =>
      var s := Argument(arguments, "buyersecret");
      if !IsHash(s) || tx.workHash.None? || tx.workSecretHash.None? then Err(Panicked)
      else if crypto.sha(tx.workHash.value, s) != tx.workSecretHash.value then Err(Rejected)
      else Ok(tx.(buyerSecret := Some(s)))
    case TransmitFinished =>
      var h := Argument(arguments, "encresulthash");
      var signature := crypto.decodeSignature(Argument(arguments, "encresulthashsig"));
      var key := Argument(arguments, "encresultkey");
      if !IsHash(h) || signature.None? then Err(Panicked)
      else if !crypto.verify(h, tx.buyer, signature.value) || !IsHash(key) then Err(Panicked)
      else Ok(tx.(resultKey := Some(key), receipt := Some(Receipt(h, signature.value))))
    case RejectWork => Ok(tx)
    case RejectResult => Ok(tx)
    case AcceptResult => Ok(tx)
  }

  /** What happens on arrival in a phase: more time is granted, or the transaction is due for
      retirement at once. */
  function Arrive(tx: Tx, now: int): Tx {
    match tx.phase
    case Transmitting => tx.(timeout := tx.timeout + 2 * MINUTE)
    case Working => tx.(timeout := tx.timeout + 5 * MINUTE)
    case Unverified => tx.(timeout := tx.timeout + 15 * MINUTE)
    case Finished => tx.(timeout := now)
    case WorkDisputed => tx.(timeout := now)
    case ResultDisputed => tx.(timeout := now)
    case _ => tx
  }

  function Identify(tx: Tx, address: string): Origin {
    if address == tx.buyer then FromBuyer
    else if address == tx.seller then FromSeller
    else FromUnknown
  }

  function Reject(tx: Tx, now: int, address: string, arguments: Arguments,
                  from: Origin, error: Error, post: Phase): Tmessage {
    Tmessage(now, address, arguments, from, false, Some(error), tx.phase, post)
  }

  /** The outcome of sending a message: the transaction afterwards (unchanged when the message
      is not accepted) and the record of the message. */
  function Deliver(crypto: Crypto, tx: Tx, now: int, address: string, arguments: Arguments): (Tx, Tmessage) {
    if tx.state != Active || tx.timeout <= now then
      (tx, Reject(tx, now, address, arguments, FromBuyer, Rejected, tx.phase))
    else match FindRule(RULES, tx, address, arguments)
      case None => (tx, Reject(tx, now, address, arguments, Identify(tx, address), Rejected, tx.phase))
      case Some(rule) =>
        match FindTransition(rule.transitions, tx.phase)
        case None => (tx, Reject(tx, now, address, arguments, rule.from, Rejected, tx.phase))
        case Some(transition) =>
          match Handle(crypto, rule.kind, tx, arguments)
          case Err(e) => (tx, Reject(tx, now, address, arguments, rule.from, e, transition.postPhase))
          case Ok(handled) =>
            var moved := handled.(phase := transition.postPhase, revision := tx.revision + 1);
            (if transition.postPhase != tx.phase then Arrive(moved, now) else moved,
             Tmessage(now, address, arguments, rule.from, true, None, tx.phase, transition.postPhase))
  }

  // ---------------------------------------------------------------- creation and settlement

  /** A transaction between an older, placed bid and a newer, queued one. The older bid defines
      price and fee. Both bids become matched. */
  function NewTransaction(now: int, newKey: string, oldKey: string, newBid: Bid, oldBid: Bid)
    : Result<(Tx, Bid, Bid)>
  {
    if oldBid.bidType == newBid.bidType || oldBid.price.currency != newBid.price.currency
       || oldBid.article != newBid.article then Err(NonMatchingBids)
    else if oldBid.state != Placed then Err(NonMatchingBids)
    else if newBid.state != InQueue then Err(NonMatchingBids)
    else if oldBid.expires <= now || newBid.expires <= now then Err(NonMatchingBids)
    else
      var newBuys := newBid.bidType == Buy;
      var tx := Tx(
        0,
        if newBuys then newKey else oldKey,
        if newBuys then oldKey else newKey,
        if newBuys then newBid.participant else oldBid.participant,
        if newBuys then oldBid.participant else newBid.participant,
        oldBid.article, oldBid.price, oldBid.fee,
        now, Active, Establishing, now + 60 * SECOND,
        None, None, None, None, None, None);
      Ok((tx,
          newBid.(matched := Some(now), state := Matched),
          oldBid.(matched := Some(now), state := Matched)))
  }

  function TxRequest(t: MovementType, availableAccount: string, blockedAccount: string,
                     available: Money, blocked: Money, fee: Money, key: string): Request {
    Request(t, availableAccount, blockedAccount, available, blocked,
            fee, Zero(available.currency), None, Some(key), None)
  }

  /** Frees what the buyer's bid blocked beyond the transaction's price and fee. */
  function BookTx(books: Books, tx: Tx, key: string, buyerBid: Bid, moveKey: string): Result<Books> {
    if buyerBid.price.currency != buyerBid.fee.currency || tx.price.currency != tx.fee.currency
       || buyerBid.price.currency != tx.price.currency then Err(Panicked)
    else
      var delta := buyerBid.price.Add(buyerBid.fee).Sub(tx.price.Add(tx.fee));
      if delta.amount < 0 then Err(StrangePriceDelta)
      else if delta.amount == 0 then Ok(books)
      else Place(books, tx.matched,
                 TxRequest(TxBooked, tx.buyer, tx.buyer, delta, delta.Neg(), Zero(tx.price.currency), key), moveKey)
  }

  predicate PaysSeller(tx: Tx) {
    tx.phase == Finished || tx.phase == Unverified
  }

  function SettlementRequest(tx: Tx, key: string): Request
    requires tx.price.currency == tx.fee.currency
  {
    var total := tx.price.Add(tx.fee);
    if PaysSeller(tx) then TxRequest(TxFinished, tx.seller, tx.buyer, tx.price, total.Neg(), tx.fee, key)
    else TxRequest(TxReimbursed, tx.buyer, tx.buyer, total, total.Neg(), Zero(tx.price.currency), key)
  }

  function RetireTx(books: Books, tx: Tx, key: string, now: int, moveKey: string): Result<(Books, Tx)> {
    if tx.price.currency != tx.fee.currency then Err(Panicked)
    else if tx.state != Active then Err(AlreadyRetired)
    else if tx.timeout > now then Err(TooYoung)
    else match Place(books, now, SettlementRequest(tx, key), moveKey)
      case Err(e) => Err(e)
      case Ok(books') => Ok((books', tx.(state := Retired, revision := tx.revision + 1)))
  }

  /** What must stay blocked on the buyer's account on behalf of this transaction. */
  function TxDue(tx: Tx): int {
    if tx.state == Active then tx.price.amount + tx.fee.amount else 0
  }
}
