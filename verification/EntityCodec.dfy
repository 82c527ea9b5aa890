/** How transactions and ledger entries are stored as lists of properties, and read back. */
module EntityCodec {
  import opened Prelude
  import opened Amounts
  import opened Ledger
  import opened LedgerProofs
  import opened Bids
  import opened Transactions
  import opened TransactionProofs
  import opened Market
  import opened MarketInvariant
  import opened MarketRuns

  datatype Value =
    | IntValue(int)
    | TextValue(string)
    | TimeValue(int)
    | KeyValue(string)
    | BytesValue(string)

  datatype Name =
    | NRevision | NBuyerBid | NSellerBid | NBuyer | NSeller | NArticle | NCurrency | NPrice | NFee
    | NMatched | NState | NPhase | NTimeout | NWorkerUrl | NWorkHash | NWorkSecretHash | NBuyerSecret
    | NResultHash | NResultHashSignature | NResultKey
    | NTimestamp | NType | NAvailableDelta | NAvailableAccount | NAvailablePredecessor
    | NBlockedDelta | NBlockedAccount | NBlockedPredecessor | NWorld | NBidKey | NTxKey | NDepositKey

  datatype Property = Property(name: Name, value: Value)

  type Properties = seq<Property>

  // ---------------------------------------------------------------- codes

  function CurrencyNamed(s: string): Option<Currency> {
    if s == "BTC" then Some(BTC) else if s == "EUR" then Some(EUR) else if s == "USD" then Some(USD)
    else if s == "BRL" then Some(BRL) else if s == "GBP" then Some(GBP) else None
  }

  lemma CurrencyRoundTrip(c: Currency)
    ensures CurrencyNamed(CurrencyCode(c)) == Some(c)
  {
  }

  const PHASES := [Establishing, BuyerEstablished, SellerEstablished, Transmitting, Working, Unverified, Finished,
                   WorkDisputed, ResultDisputed]

  function PhaseCode(p: Phase): (n: nat)
    ensures n < |PHASES| && PHASES[n] == p
  {
    match p
    case Establishing => 0 case BuyerEstablished => 1 case SellerEstablished => 2 case Transmitting => 3
    case Working => 4 case Unverified => 5 case Finished => 6 case WorkDisputed => 7 case ResultDisputed => 8
  }

  const TYPES := [PayIn, PayOut, PayOutReimburse, BidBooked, BidReimbursed, TxBooked, TxFinished, TxReimbursed]

  /** Code zero is reserved for an invalid movement. */
  function TypeCode(t: MovementType): (n: nat)
    ensures 1 <= n <= |TYPES| && TYPES[n - 1] == t
  {
    match t
    case PayIn => 1 case PayOut => 2 case PayOutReimburse => 3 case BidBooked => 4
    case BidReimbursed => 5 case TxBooked => 6 case TxFinished => 7 case TxReimbursed => 8
  }

  // ---------------------------------------------------------------- transactions

  const NO_TX := Tx(0, "", "", "", "", "", Zero(BTC), Zero(BTC), 0, Active, Establishing, 0,
                    None, None, None, None, None, None)

  /** One loaded property. A value of the wrong type is a panic. */
  function SetTx(crypto: Crypto, tx: Tx, p: Property): Result<Tx> {
    match (p.name, p.value)
    case (NRevision, IntValue(n)) => Ok(tx.(revision := n))
    case (NBuyerBid, KeyValue(k)) => Ok(tx.(buyerBid := k))
    case (NSellerBid, KeyValue(k)) => Ok(tx.(sellerBid := k))
    case (NBuyer, TextValue(s)) => Ok(tx.(buyer := s))
    case (NSeller, TextValue(s)) => Ok(tx.(seller := s))
    case (NArticle, TextValue(s)) => Ok(tx.(article := s))
    case (NCurrency, TextValue(s)) =>
      (match CurrencyNamed(s)
       case Some(c) => Ok(tx.(price := Money(tx.price.amount, c), fee := Money(tx.fee.amount, c)))
       case None => Err(Panicked))
    case (NPrice, IntValue(n)) =>
      if MIN64 <= n <= MAX64 then Ok(tx.(price := Money(n, tx.price.currency))) else Err(Panicked)
    case (NFee, IntValue(n)) =>
      if MIN64 <= n <= MAX64 then Ok(tx.(fee := Money(n, tx.fee.currency))) else Err(Panicked)
    case (NMatched, TimeValue(t)) => Ok(tx.(matched := t))
    case (NState, IntValue(n)) => if n == 0 then Ok(tx.(state := Active)) else Ok(tx.(state := Retired))
    case (NPhase, IntValue(n)) => if 0 <= n < |PHASES| then Ok(tx.(phase := PHASES[n])) else Err(Rejected)
    case (NTimeout, TimeValue(t)) => Ok(tx.(timeout := t))
    case (NWorkerUrl, TextValue(s)) => if crypto.validUri(s) then Ok(tx.(workerUrl := Some(s))) else Err(Rejected)
    case (NWorkHash, BytesValue(h)) => Ok(tx.(workHash := Some(h)))
    case (NWorkSecretHash, BytesValue(h)) => Ok(tx.(workSecretHash := Some(h)))
    case (NBuyerSecret, BytesValue(h)) => Ok(tx.(buyerSecret := Some(h)))
    case (NResultHash, BytesValue(h)) => Ok(tx.(receipt := Some(ReceiptOf(tx).(hash := h))))
    case (NResultHashSignature, BytesValue(h)) => Ok(tx.(receipt := Some(ReceiptOf(tx).(signature := h))))
    case (NResultKey, BytesValue(h)) => Ok(tx.(resultKey := Some(h)))
    case _ => Err(Panicked)
  }

  function ReceiptOf(tx: Tx): Receipt {
    if tx.receipt.Some? then tx.receipt.value else Receipt("", "")
  }

  function LoadTx(crypto: Crypto, tx: Tx, props: Properties): Result<Tx>
    decreases props
  {
    if props == [] then Ok(tx)
    else match SetTx(crypto, tx, props[0])
      case Ok(tx') => LoadTx(crypto, tx', props[1..])
      case Err(e) => Err(e)
  }

  method Load(crypto: Crypto, props: Properties) returns (r: Result<Tx>)
    ensures r == LoadTx(crypto, NO_TX, props)
  {
    hide SetTx;
    var tx := NO_TX;
    var i := 0;
    assert props[0..] == props;
    while i < |props|
      invariant 0 <= i <= |props|
      invariant LoadTx(crypto, NO_TX, props) == LoadTx(crypto, tx, props[i..])
    {
      var next := SetTx(crypto, tx, props[i]);
      assert props[i..][1..] == props[i + 1..];
      if next.Err? { return next; }
      tx := next.value;
      i := i + 1;
    }
    return Ok(tx);
  }

  function BytesProperty(name: Name, v: Option<string>): Properties {
    if v.Some? then [Property(name, BytesValue(v.value))] else []
  }

  /** The properties every transaction has. */
  function Parties(tx: Tx): Properties {
    [Property(NRevision, IntValue(tx.revision)),
     Property(NBuyerBid, KeyValue(tx.buyerBid)),
     Property(NSellerBid, KeyValue(tx.sellerBid)),
     Property(NBuyer, TextValue(tx.buyer)),
     Property(NSeller, TextValue(tx.seller)),
     Property(NArticle, TextValue(tx.article))]
  }

  function Terms(tx: Tx): Properties {
    [Property(NCurrency, TextValue(CurrencyCode(tx.price.currency))),
     Property(NPrice, IntValue(tx.price.amount)),
     Property(NFee, IntValue(tx.fee.amount)),
     Property(NMatched, TimeValue(tx.matched)),
     Property(NState, IntValue(if tx.state == Active then 0 else 1)),
     Property(NPhase, IntValue(PhaseCode(tx.phase))),
     Property(NTimeout, TimeValue(tx.timeout))]
  }

  function Progressed(tx: Tx): Properties {
    (if tx.workerUrl.Some? then [Property(NWorkerUrl, TextValue(tx.workerUrl.value))] else []) +
    BytesProperty(NWorkHash, tx.workHash) +
    BytesProperty(NWorkSecretHash, tx.workSecretHash) +
    BytesProperty(NBuyerSecret, tx.buyerSecret)
  }

  function Outcome(tx: Tx): Properties {
    if tx.receipt.Some? && tx.resultKey.Some? then
      [Property(NResultHash, BytesValue(tx.receipt.value.hash)),
       Property(NResultHashSignature, BytesValue(tx.receipt.value.signature)),
       Property(NResultKey, BytesValue(tx.resultKey.value))]
    else []
  }

  function SavedTx(tx: Tx): Properties {
    Parties(tx) + Terms(tx) + Progressed(tx) + Outcome(tx)
  }

  /** Fails with a panic if there is a receipt but no key. */
  method Save(tx: Tx) returns (r: Result<Properties>)
    ensures r == if tx.receipt.Some? && tx.resultKey.None? then Err(Panicked) else Ok(SavedTx(tx))
  {
    hide Parties, Terms;
    var props := Parties(tx) + Terms(tx);
    ghost var base := props;
    if tx.workerUrl.Some? {
      props := props + [Property(NWorkerUrl, TextValue(tx.workerUrl.value))];
    }
    if tx.workHash.Some? {
      props := props + [Property(NWorkHash, BytesValue(tx.workHash.value))];
    }
    if tx.workSecretHash.Some? {
      props := props + [Property(NWorkSecretHash, BytesValue(tx.workSecretHash.value))];
    }
    if tx.buyerSecret.Some? {
      props := props + [Property(NBuyerSecret, BytesValue(tx.buyerSecret.value))];
    }
    assert props == base + Progressed(tx);
    if tx.receipt.Some? {
      if tx.resultKey.None? { return Err(Panicked); }
      props := props + [Property(NResultHash, BytesValue(tx.receipt.value.hash)),
                        Property(NResultHashSignature, BytesValue(tx.receipt.value.signature)),
                        Property(NResultKey, BytesValue(tx.resultKey.value))];
    }
    assert props == base + Progressed(tx) + Outcome(tx);
    return Ok(props);
  }

  lemma {:induction false} LoadJoin(crypto: Crypto, tx: Tx, a: Properties, b: Properties)
    ensures LoadTx(crypto, tx, a + b) ==
      match LoadTx(crypto, tx, a) case Ok(tx') => LoadTx(crypto, tx', b) case Err(e) => Err(e)
    decreases a
  {
    hide SetTx;
    if a == [] {
      assert a + b == b;
    } else {
      assert (a + b)[1..] == a[1..] + b;
      match SetTx(crypto, tx, a[0])
      case Ok(tx') => LoadJoin(crypto, tx', a[1..], b);
      case Err(e) =>
    }
  }

  lemma LoadAt(crypto: Crypto, props: Properties, i: nat, tx: Tx, tx': Tx)
    requires i < |props| && SetTx(crypto, tx, props[i]) == Ok(tx')
    ensures LoadTx(crypto, tx, props[i..]) == LoadTx(crypto, tx', props[i + 1..])
  {
    hide SetTx;
    assert props[i..][1..] == props[i + 1..];
  }

  lemma LoadParties(crypto: Crypto, tx: Tx)
    ensures LoadTx(crypto, NO_TX, Parties(tx)) ==
            Ok(NO_TX.(revision := tx.revision, buyerBid := tx.buyerBid, sellerBid := tx.sellerBid, buyer := tx.buyer,
                      seller := tx.seller, article := tx.article))
  {
    hide LoadTx;
    var ps := Parties(tx);
    var t1 := NO_TX.(revision := tx.revision);
    var t2 := t1.(buyerBid := tx.buyerBid);
    var t3 := t2.(sellerBid := tx.sellerBid);
    var t4 := t3.(buyer := tx.buyer);
    var t5 := t4.(seller := tx.seller);
    var t6 := t5.(article := tx.article);
    assert ps[0..] == ps;
    LoadAt(crypto, ps, 0, NO_TX, t1);
    LoadAt(crypto, ps, 1, t1, t2);
    LoadAt(crypto, ps, 2, t2, t3);
    LoadAt(crypto, ps, 3, t3, t4);
    LoadAt(crypto, ps, 4, t4, t5);
    LoadAt(crypto, ps, 5, t5, t6);
    LoadNothing(crypto, t6, ps[6..]);
  }

  lemma LoadNothing(crypto: Crypto, tx: Tx, props: Properties)
    requires props == []
    ensures LoadTx(crypto, tx, props) == Ok(tx)
  {
  }

  lemma LoadTerms(crypto: Crypto, tx: Tx, t0: Tx)
    requires t0.price == t0.fee == Zero(BTC)
    ensures LoadTx(crypto, t0, Terms(tx)) ==
            Ok(t0.(price := tx.price, fee := Money(tx.fee.amount, tx.price.currency), matched := tx.matched,
                   state := tx.state, phase := tx.phase, timeout := tx.timeout))
  {
    hide LoadTx;
    var ps := Terms(tx);
    var c := tx.price.currency;
    CurrencyRoundTrip(c);
    var t1 := t0.(price := Zero(c), fee := Zero(c));
    var t2 := t1.(price := tx.price);
    var t3 := t2.(fee := Money(tx.fee.amount, c));
    var t4 := t3.(matched := tx.matched);
    var t5 := t4.(state := tx.state);
    var t6 := t5.(phase := tx.phase);
    var t7 := t6.(timeout := tx.timeout);
    assert ps[0..] == ps;
    LoadAt(crypto, ps, 0, t0, t1);
    LoadAt(crypto, ps, 1, t1, t2);
    LoadAt(crypto, ps, 2, t2, t3);
    LoadAt(crypto, ps, 3, t3, t4);
    LoadAt(crypto, ps, 4, t4, t5);
    LoadAt(crypto, ps, 5, t5, t6);
    LoadAt(crypto, ps, 6, t6, t7);
    LoadNothing(crypto, t7, ps[7..]);
  }

  lemma LoadMaybe(crypto: Crypto, t0: Tx, props: Properties, t1: Tx)
    requires |props| <= 1
    requires props == [] ==> t1 == t0
    requires props != [] ==> SetTx(crypto, t0, props[0]) == Ok(t1)
    ensures LoadTx(crypto, t0, props) == Ok(t1)
  {
    hide SetTx;
  }

  lemma LoadProgressed(crypto: Crypto, tx: Tx, t0: Tx)
    requires t0.workerUrl == t0.workHash == t0.workSecretHash == t0.buyerSecret == None
    requires tx.workerUrl.Some? ==> crypto.validUri(tx.workerUrl.value)
    ensures LoadTx(crypto, t0, Progressed(tx)) ==
            Ok(t0.(workerUrl := tx.workerUrl, workHash := tx.workHash, workSecretHash := tx.workSecretHash,
                   buyerSecret := tx.buyerSecret))
  {
    hide LoadTx;
    var url := if tx.workerUrl.Some? then [Property(NWorkerUrl, TextValue(tx.workerUrl.value))] else [];
    var t1 := t0.(workerUrl := tx.workerUrl);
    var t2 := t1.(workHash := tx.workHash);
    var t3 := t2.(workSecretHash := tx.workSecretHash);
    LoadMaybe(crypto, t0, url, t1);
    LoadMaybe(crypto, t1, BytesProperty(NWorkHash, tx.workHash), t2);
    LoadMaybe(crypto, t2, BytesProperty(NWorkSecretHash, tx.workSecretHash), t3);
    LoadMaybe(crypto, t3, BytesProperty(NBuyerSecret, tx.buyerSecret), t3.(buyerSecret := tx.buyerSecret));
    LoadJoin(crypto, t0, url, BytesProperty(NWorkHash, tx.workHash));
    LoadJoin(crypto, t0, url + BytesProperty(NWorkHash, tx.workHash), BytesProperty(NWorkSecretHash, tx.workSecretHash));
    LoadJoin(crypto, t0, url + BytesProperty(NWorkHash, tx.workHash) + BytesProperty(NWorkSecretHash, tx.workSecretHash),
             BytesProperty(NBuyerSecret, tx.buyerSecret));
  }

  lemma LoadOutcome(crypto: Crypto, tx: Tx, t0: Tx)
    requires t0.receipt == None && t0.resultKey == None
    ensures LoadTx(crypto, t0, Outcome(tx)) ==
            Ok(if tx.receipt.Some? && tx.resultKey.Some? then t0.(receipt := tx.receipt, resultKey := tx.resultKey) else t0)
  {
    hide LoadTx;
    var ps := Outcome(tx);
    assert ps[0..] == ps;
    if ps == [] {
      LoadNothing(crypto, t0, ps);
    } else {
      var t1 := t0.(receipt := Some(Receipt(tx.receipt.value.hash, "")));
      var t2 := t1.(receipt := tx.receipt);
      var t3 := t2.(resultKey := tx.resultKey);
      LoadAt(crypto, ps, 0, t0, t1);
      LoadAt(crypto, ps, 1, t1, t2);
      LoadAt(crypto, ps, 2, t2, t3);
      LoadNothing(crypto, t3, ps[3..]);
    }
  }

  /** What survives being saved and loaded. */
  function Survivor(tx: Tx): Tx {
    tx.(fee := Money(tx.fee.amount, tx.price.currency),
        receipt := if tx.resultKey.Some? then tx.receipt else None,
        resultKey := if tx.receipt.Some? then tx.resultKey else None)
  }

  lemma TxReload(crypto: Crypto, tx: Tx)
    requires tx.workerUrl.Some? ==> crypto.validUri(tx.workerUrl.value)
    ensures LoadTx(crypto, NO_TX, SavedTx(tx)) == Ok(Survivor(tx))
  {
    hide LoadTx, Parties, Terms, Progressed, Outcome;
    var t1 := NO_TX.(revision := tx.revision, buyerBid := tx.buyerBid, sellerBid := tx.sellerBid, buyer := tx.buyer,
                     seller := tx.seller, article := tx.article);
    var t2 := t1.(price := tx.price, fee := Money(tx.fee.amount, tx.price.currency), matched := tx.matched,
                  state := tx.state, phase := tx.phase, timeout := tx.timeout);
    var t3 := t2.(workerUrl := tx.workerUrl, workHash := tx.workHash, workSecretHash := tx.workSecretHash,
                  buyerSecret := tx.buyerSecret);
    LoadParties(crypto, tx);
    LoadTerms(crypto, tx, t1);
    LoadProgressed(crypto, tx, t2);
    LoadOutcome(crypto, tx, t3);
    LoadJoin(crypto, NO_TX, Parties(tx), Terms(tx));
    LoadJoin(crypto, NO_TX, Parties(tx) + Terms(tx), Progressed(tx));
    LoadJoin(crypto, NO_TX, Parties(tx) + Terms(tx) + Progressed(tx), Outcome(tx));
  }

  /** A URL that does not parse makes the stored transaction unreadable. */
  lemma BadUrlFails(crypto: Crypto, tx: Tx)
    requires tx.workerUrl.Some? && !crypto.validUri(tx.workerUrl.value)
    ensures LoadTx(crypto, NO_TX, SavedTx(tx)).Err?
  {
    hide LoadTx, Parties, Terms, Outcome;
    var t1 := NO_TX.(revision := tx.revision, buyerBid := tx.buyerBid, sellerBid := tx.sellerBid, buyer := tx.buyer,
                     seller := tx.seller, article := tx.article);
    var t2 := t1.(price := tx.price, fee := Money(tx.fee.amount, tx.price.currency), matched := tx.matched,
                  state := tx.state, phase := tx.phase, timeout := tx.timeout);
    LoadParties(crypto, tx);
    LoadTerms(crypto, tx, t1);
    var ps := Progressed(tx);
    assert ps[0] == Property(NWorkerUrl, TextValue(tx.workerUrl.value));
    LoadFails(crypto, t2, ps);
    LoadJoin(crypto, NO_TX, Parties(tx), Terms(tx));
    LoadJoin(crypto, NO_TX, Parties(tx) + Terms(tx), ps);
    LoadJoin(crypto, NO_TX, Parties(tx) + Terms(tx) + ps, Outcome(tx));
  }

  lemma LoadFails(crypto: Crypto, tx: Tx, props: Properties)
    requires props != [] && SetTx(crypto, tx, props[0]).Err?
    ensures LoadTx(crypto, tx, props).Err?
  {
    hide SetTx;
  }

  predicate Persistent(crypto: Crypto, tx: Tx) {
    && (tx.receipt.Some? <==> tx.resultKey.Some?)
    && tx.price.currency == tx.fee.currency
    && (tx.workerUrl.Some? ==> crypto.validUri(tx.workerUrl.value))
  }

  /** Loading what was saved is the identity exactly for persistent transactions. */
  lemma TxRoundTrip(crypto: Crypto, tx: Tx)
    ensures LoadTx(crypto, NO_TX, SavedTx(tx)) == Ok(tx) <==> Persistent(crypto, tx)
  {
    hide LoadTx, SavedTx;
    if tx.workerUrl.Some? && !crypto.validUri(tx.workerUrl.value) {
      BadUrlFails(crypto, tx);
    } else {
      TxReload(crypto, tx);
    }
  }

  /** Every transaction of a reachable state survives being saved and loaded. */
  lemma ReachableTxRoundTrip(crypto: Crypto, s: State, t: string)
    requires Reachable(crypto, s) && t in s.txs
    ensures LoadTx(crypto, NO_TX, SavedTx(s.txs[t])) == Ok(s.txs[t])
  {
    hide Reachable, LoadTx, SavedTx, BooksOk, BidsOk, BidsLinked, Escrowed, CurrenciesAgree, HotOk, SettledOnce, Explained,
         LeadsTo, Linked;
    ReachableOk(crypto, s);
    var ms := if t in s.messages then s.messages[t] else [];
    assert TxOk(crypto, s.txs[t], ms);
    assert Linked(s.bids, t, s.txs[t]);
    TxAmounts(s.bids, t, s.txs[t]);
    TxRoundTrip(crypto, s.txs[t]);
  }

  // ---------------------------------------------------------------- ledger entries

  const NO_MOVEMENT := Movement(
    Request(PayIn, "", "", Zero(BTC), Zero(BTC), Zero(BTC), Zero(BTC), None, None, None), 0, None, None)

  function SetMovement(m: Movement, p: Property): Result<Movement> {
    var r := m.request;
    match (p.name, p.value)
    case (NTimestamp, TimeValue(t)) => Ok(m.(timestamp := t))
    case (NType, IntValue(n)) => if 1 <= n <= |TYPES| then Ok(m.(request := r.(mType := TYPES[n - 1]))) else Err(Rejected)
    case (NCurrency, TextValue(s)) =>
      (match CurrencyNamed(s)
       case Some(c) => Ok(m.(request := InCurrency(r, c)))
       case None => Err(Panicked))
    case (NAvailableDelta, IntValue(n)) =>
      if MIN64 <= n <= MAX64 then Ok(m.(request := r.(availableDelta := Money(n, r.availableDelta.currency)))) else Err(Panicked)
    case (NAvailableAccount, TextValue(s)) => Ok(m.(request := r.(availableAccount := s)))
    case (NAvailablePredecessor, KeyValue(k)) => Ok(m.(availablePredecessor := Some(k)))
    case (NBlockedDelta, IntValue(n)) =>
      if MIN64 <= n <= MAX64 then Ok(m.(request := r.(blockedDelta := Money(n, r.blockedDelta.currency)))) else Err(Panicked)
    case (NBlockedAccount, TextValue(s)) => Ok(m.(request := r.(blockedAccount := s)))
    case (NBlockedPredecessor, KeyValue(k)) => Ok(m.(blockedPredecessor := Some(k)))
    case (NFee, IntValue(n)) =>
      if MIN64 <= n <= MAX64 then Ok(m.(request := r.(fee := Money(n, r.fee.currency)))) else Err(Panicked)
    case (NWorld, IntValue(n)) =>
      if MIN64 <= n <= MAX64 then Ok(m.(request := r.(world := Money(n, r.world.currency)))) else Err(Panicked)
    case (NBidKey, KeyValue(k)) => Ok(m.(request := r.(bidKey := Some(k))))
    case (NTxKey, KeyValue(k)) => Ok(m.(request := r.(txKey := Some(k))))
    case (NDepositKey, KeyValue(k)) => Ok(m.(request := r.(depositKey := Some(k))))
    case _ => Err(Panicked)
  }

  function InCurrency(r: Request, c: Currency): Request {
    r.(availableDelta := Money(r.availableDelta.amount, c), blockedDelta := Money(r.blockedDelta.amount, c),
       fee := Money(r.fee.amount, c), world := Money(r.world.amount, c))
  }

  function LoadProperties(m: Movement, props: Properties): Result<Movement>
    decreases props
  {
    if props == [] then Ok(m)
    else match SetMovement(m, props[0])
      case Ok(m') => LoadProperties(m', props[1..])
      case Err(e) => Err(e)
  }

  /** An entry saved without a blocked account is within one account. */
  function Completed(m: Movement): Movement {
    if m.request.blockedAccount == "" then
      m.(request := m.request.(blockedAccount := m.request.availableAccount), blockedPredecessor := m.availablePredecessor)
    else m
  }

  method LoadMovement(props: Properties) returns (r: Result<Movement>)
    ensures r == match LoadProperties(NO_MOVEMENT, props) case Ok(m) => Ok(Completed(m)) case Err(e) => Err(e)
  {
    hide SetMovement;
    var m := NO_MOVEMENT;
    var i := 0;
    assert props[0..] == props;
    while i < |props|
      invariant 0 <= i <= |props|
      invariant LoadProperties(NO_MOVEMENT, props) == LoadProperties(m, props[i..])
    {
      var next := SetMovement(m, props[i]);
      assert props[i..][1..] == props[i + 1..];
      if next.Err? { return next; }
      m := next.value;
      i := i + 1;
    }
    if m.request.blockedAccount == "" {
      m := m.(request := m.request.(blockedAccount := m.request.availableAccount), blockedPredecessor := m.availablePredecessor);
    }
    return Ok(m);
  }

  function KeyProperty(name: Name, v: Option<string>): Properties {
    if v.Some? then [Property(name, KeyValue(v.value))] else []
  }

  function CurrencyProperty(c: Currency): Properties {
    if c != BTC then [Property(NCurrency, TextValue(CurrencyCode(c)))] else []
  }

  function BlockedSide(m: Movement): Properties {
    if m.request.blockedAccount == m.request.availableAccount then []
    else [Property(NBlockedAccount, TextValue(m.request.blockedAccount))] +
         KeyProperty(NBlockedPredecessor, m.blockedPredecessor)
  }

  function SavedMovement(m: Movement): Properties {
    var r := m.request;
    Start(m) +
    [Property(NAvailableDelta, IntValue(r.availableDelta.amount)), Property(NAvailableAccount, TextValue(r.availableAccount))] +
    KeyProperty(NAvailablePredecessor, m.availablePredecessor) +
    [Property(NBlockedDelta, IntValue(r.blockedDelta.amount))] +
    BlockedSide(m) +
    [Property(NFee, IntValue(r.fee.amount)), Property(NWorld, IntValue(r.world.amount))] +
    KeyProperty(NBidKey, r.bidKey) + KeyProperty(NTxKey, r.txKey) + KeyProperty(NDepositKey, r.depositKey)
  }

  method SaveMovement(m: Movement) returns (props: Properties)
    ensures props == SavedMovement(m)
  {
    hide KeyProperty, CurrencyCode;
    var r := m.request;
    props := [Property(NTimestamp, TimeValue(m.timestamp)), Property(NType, IntValue(TypeCode(r.mType)))];
    if r.availableDelta.currency != BTC {
      props := props + [Property(NCurrency, TextValue(CurrencyCode(r.availableDelta.currency)))];
    }
    assert props == Start(m);
    hide Start, TypeCode;
    props := props + [Property(NAvailableDelta, IntValue(r.availableDelta.amount)),
                      Property(NAvailableAccount, TextValue(r.availableAccount))];
    props := AppendKey(props, NAvailablePredecessor, m.availablePredecessor);
    props := props + [Property(NBlockedDelta, IntValue(r.blockedDelta.amount))];
    props := AppendBlockedSide(props, m);
    hide BlockedSide;
    props := props + [Property(NFee, IntValue(r.fee.amount)), Property(NWorld, IntValue(r.world.amount))];
    props := AppendKey(props, NBidKey, r.bidKey);
    props := AppendKey(props, NTxKey, r.txKey);
    props := AppendKey(props, NDepositKey, r.depositKey);
  }

  method AppendBlockedSide(props: Properties, m: Movement) returns (r: Properties)
    ensures r == props + BlockedSide(m)
  {
    hide KeyProperty;
    r := props;
    if m.request.blockedAccount != m.request.availableAccount {
      r := r + [Property(NBlockedAccount, TextValue(m.request.blockedAccount))];
      r := AppendKey(r, NBlockedPredecessor, m.blockedPredecessor);
    }
  }

  method AppendKey(props: Properties, name: Name, v: Option<string>) returns (r: Properties)
    ensures r == props + KeyProperty(name, v)
  {
    if v.Some? { return props + [Property(name, KeyValue(v.value))]; }
    assert props + [] == props;
    return props;
  }

  lemma {:induction false} LoadMore(m: Movement, a: Properties, b: Properties, m': Movement)
    requires LoadProperties(m, a) == Ok(m')
    ensures LoadProperties(m, a + b) == LoadProperties(m', b)
    decreases a
  {
    hide SetMovement;
    if a == [] {
      assert a + b == b;
    } else {
      assert (a + b)[1..] == a[1..] + b;
      LoadMore(SetMovement(m, a[0]).value, a[1..], b, m');
    }
  }

  lemma SetOne(m: Movement, p: Property)
    ensures LoadProperties(m, [p]) == SetMovement(m, p)
  {
    hide SetMovement;
    assert [p][1..] == [];
  }

  lemma SetTwo(m: Movement, p: Property, q: Property, m': Movement)
    requires SetMovement(m, p) == Ok(m')
    ensures LoadProperties(m, [p, q]) == SetMovement(m', q)
  {
    hide SetMovement;
    assert [p, q][1..] == [q];
    SetOne(m', q);
  }

  lemma SetMaybe(m: Movement, props: Properties, m': Movement)
    requires |props| <= 1
    requires props == [] ==> m' == m
    requires props != [] ==> SetMovement(m, props[0]) == Ok(m')
    ensures LoadProperties(m, props) == Ok(m')
  {
    hide SetMovement;
  }

  lemma Chain(m: Movement, a: Properties, b: Properties, m1: Movement, m2: Movement)
    requires LoadProperties(m, a) == Ok(m1) && LoadProperties(m1, b) == Ok(m2)
    ensures LoadProperties(m, a + b) == Ok(m2)
  {
    hide LoadProperties;
    LoadMore(m, a, b, m1);
  }

  /** What is read back: all amounts in the currency of the available part, and between two
      parts of one account one common predecessor. */
  function Reload(m: Movement): Movement {
    var r := InCurrency(m.request, m.request.availableDelta.currency);
    if r.blockedAccount == r.availableAccount || r.blockedAccount == "" then
      m.(request := r.(blockedAccount := r.availableAccount), blockedPredecessor := m.availablePredecessor)
    else m.(request := r)
  }

  function Start(m: Movement): Properties {
    [Property(NTimestamp, TimeValue(m.timestamp)), Property(NType, IntValue(TypeCode(m.request.mType)))] +
    CurrencyProperty(m.request.availableDelta.currency)
  }

  /** An entry of which only the time, type and currency are known. */
  function Started(m: Movement): Movement {
    NO_MOVEMENT.(timestamp := m.timestamp,
                 request := InCurrency(NO_MOVEMENT.request, m.request.availableDelta.currency).(mType := m.request.mType))
  }

  lemma LoadStart(m: Movement)
    ensures LoadProperties(NO_MOVEMENT, Start(m)) == Ok(Started(m))
  {
    hide LoadProperties;
    var r := m.request;
    CurrencyRoundTrip(r.availableDelta.currency);
    var m0 := NO_MOVEMENT.(timestamp := m.timestamp);
    var m1 := m0.(request := m0.request.(mType := r.mType));
    var a := [Property(NTimestamp, TimeValue(m.timestamp)), Property(NType, IntValue(TypeCode(r.mType)))];
    SetTwo(NO_MOVEMENT, a[0], a[1], m0);
    SetMaybe(m1, CurrencyProperty(r.availableDelta.currency), Started(m));
    Chain(NO_MOVEMENT, a, CurrencyProperty(r.availableDelta.currency), m1, Started(m));
  }

  /** The entry before its blocked side is known. */
  lemma LoadAmounts(m: Movement) returns (m5: Movement)
    ensures m5 == Started(m).(
                    availablePredecessor := m.availablePredecessor,
                    request := Started(m).request.(
                      availableDelta := m.request.availableDelta,
                      availableAccount := m.request.availableAccount,
                      blockedDelta := Money(m.request.blockedDelta.amount, m.request.availableDelta.currency)))
    ensures LoadProperties(NO_MOVEMENT, Start(m) +
      [Property(NAvailableDelta, IntValue(m.request.availableDelta.amount)),
       Property(NAvailableAccount, TextValue(m.request.availableAccount))] +
      KeyProperty(NAvailablePredecessor, m.availablePredecessor) +
      [Property(NBlockedDelta, IntValue(m.request.blockedDelta.amount))]) == Ok(m5)
  {
    hide LoadProperties, Start;
    var r := m.request;
    var c := r.availableDelta.currency;
    var m2 := Started(m);
    var m2' := m2.(request := m2.request.(availableDelta := r.availableDelta));
    var m3 := m2'.(request := m2'.request.(availableAccount := r.availableAccount));
    var m4 := m3.(availablePredecessor := m.availablePredecessor);
    m5 := m4.(request := m4.request.(blockedDelta := Money(r.blockedDelta.amount, c)));
    var b := [Property(NAvailableDelta, IntValue(r.availableDelta.amount)), Property(NAvailableAccount, TextValue(r.availableAccount))];
    var d := [Property(NBlockedDelta, IntValue(r.blockedDelta.amount))];
    LoadStart(m);
    SetTwo(m2, b[0], b[1], m2');
    SetMaybe(m3, KeyProperty(NAvailablePredecessor, m.availablePredecessor), m4);
    SetMaybe(m4, d, m5);
    Chain(NO_MOVEMENT, Start(m), b, m2, m3);
    Chain(NO_MOVEMENT, Start(m) + b, KeyProperty(NAvailablePredecessor, m.availablePredecessor), m3, m4);
    Chain(NO_MOVEMENT, Start(m) + b + KeyProperty(NAvailablePredecessor, m.availablePredecessor), d, m4, m5);
  }

  lemma LoadBlockedSide(m: Movement, m5: Movement) returns (m6: Movement)
    requires m5.request.blockedAccount == "" && m5.blockedPredecessor == None
    ensures LoadProperties(m5, BlockedSide(m)) == Ok(m6)
    ensures m6 == if m.request.blockedAccount == m.request.availableAccount then m5
                  else m5.(request := m5.request.(blockedAccount := m.request.blockedAccount),
                           blockedPredecessor := m.blockedPredecessor)
  {
    hide LoadProperties;
    if m.request.blockedAccount == m.request.availableAccount {
      m6 := m5;
      SetMaybe(m5, [], m5);
    } else {
      var account := [Property(NBlockedAccount, TextValue(m.request.blockedAccount))];
      var middle := m5.(request := m5.request.(blockedAccount := m.request.blockedAccount));
      m6 := middle.(blockedPredecessor := m.blockedPredecessor);
      SetMaybe(m5, account, middle);
      SetMaybe(middle, KeyProperty(NBlockedPredecessor, m.blockedPredecessor), m6);
      Chain(m5, account, KeyProperty(NBlockedPredecessor, m.blockedPredecessor), middle, m6);
    }
  }

  lemma LoadKeys(m: Movement, m6: Movement, prefix: Properties) returns (m10: Movement)
    requires LoadProperties(NO_MOVEMENT, prefix) == Ok(m6)
    requires m6.request.bidKey == m6.request.txKey == m6.request.depositKey == None
    ensures LoadProperties(NO_MOVEMENT, prefix +
      [Property(NFee, IntValue(m.request.fee.amount)), Property(NWorld, IntValue(m.request.world.amount))] +
      KeyProperty(NBidKey, m.request.bidKey) + KeyProperty(NTxKey, m.request.txKey) +
      KeyProperty(NDepositKey, m.request.depositKey)) == Ok(m10)
    ensures m10 == m6.(request := m6.request.(
                     fee := Money(m.request.fee.amount, m6.request.fee.currency),
                     world := Money(m.request.world.amount, m6.request.world.currency),
                     bidKey := m.request.bidKey, txKey := m.request.txKey, depositKey := m.request.depositKey))
  {
    hide LoadProperties;
    var r := m.request;
    var fees := [Property(NFee, IntValue(r.fee.amount)), Property(NWorld, IntValue(r.world.amount))];
    var m7' := m6.(request := m6.request.(fee := Money(r.fee.amount, m6.request.fee.currency)));
    var m7 := m7'.(request := m7'.request.(world := Money(r.world.amount, m7'.request.world.currency)));
    var m8 := m7.(request := m7.request.(bidKey := r.bidKey));
    var m9 := m8.(request := m8.request.(txKey := r.txKey));
    m10 := m9.(request := m9.request.(depositKey := r.depositKey));
    SetTwo(m6, fees[0], fees[1], m7');
    SetMaybe(m7, KeyProperty(NBidKey, r.bidKey), m8);
    SetMaybe(m8, KeyProperty(NTxKey, r.txKey), m9);
    SetMaybe(m9, KeyProperty(NDepositKey, r.depositKey), m10);
    Chain(NO_MOVEMENT, prefix, fees, m6, m7);
    Chain(NO_MOVEMENT, prefix + fees, KeyProperty(NBidKey, r.bidKey), m7, m8);
    Chain(NO_MOVEMENT, prefix + fees + KeyProperty(NBidKey, r.bidKey), KeyProperty(NTxKey, r.txKey), m8, m9);
    Chain(NO_MOVEMENT, prefix + fees + KeyProperty(NBidKey, r.bidKey) + KeyProperty(NTxKey, r.txKey),
          KeyProperty(NDepositKey, r.depositKey), m9, m10);
  }

  /** Saving an entry and loading it gives its reloaded form. */
  lemma MovementReload(m: Movement)
    ensures LoadProperties(NO_MOVEMENT, SavedMovement(m)).Ok?
    ensures Completed(LoadProperties(NO_MOVEMENT, SavedMovement(m)).value) == Reload(m)
  {
    hide LoadProperties, CurrencyProperty, KeyProperty, BlockedSide;
    var r := m.request;
    var m5 := LoadAmounts(m);
    var m6 := LoadBlockedSide(m, m5);
    var prefix := Start(m) +
      [Property(NAvailableDelta, IntValue(r.availableDelta.amount)), Property(NAvailableAccount, TextValue(r.availableAccount))] +
      KeyProperty(NAvailablePredecessor, m.availablePredecessor) +
      [Property(NBlockedDelta, IntValue(r.blockedDelta.amount))];
    Chain(NO_MOVEMENT, prefix, BlockedSide(m), m5, m6);
    var m10 := LoadKeys(m, m6, prefix + BlockedSide(m));
  }

  predicate SameCurrencies(r: Request) {
    r.availableDelta.currency == r.blockedDelta.currency == r.fee.currency == r.world.currency
  }

  /** Reloading is the identity exactly for entries in one currency whose two sides, if they are
      one account, agree on their predecessor, and which name a blocked account. */
  lemma MovementRoundTrip(m: Movement)
    ensures Reload(m) == m <==>
      && SameCurrencies(m.request)
      && (m.request.blockedAccount == m.request.availableAccount ==> m.blockedPredecessor == m.availablePredecessor)
      && (m.request.blockedAccount == "" ==> m.request.availableAccount == "")
  {
  }

  /** An entry between two parts of one account is not read back as it was written: placed under
      `key`, it names itself as its blocked predecessor, and reads back without that link. */
  lemma SelfLinkDisappears(books: Books, now: int, r: Request, key: string)
    requires AccountsOk(books.accounts) && Place(books, now, r, key).Ok? && r.availableAccount == r.blockedAccount
    ensures var m := Place(books, now, r, key).value.movements[key];
      && m.blockedPredecessor == Some(key)
      && Reload(m).blockedPredecessor == AccountOf(books.accounts, r.availableAccount).last
  {
    hide Sound, CanApply;
  }

  // ---------------------------------------------------------------- histories survive

  function Reloaded(movements: map<string, Movement>): map<string, Movement> {
    map k | k in movements :: Reload(movements[k])
  }

  lemma ReloadKeepsLink(m: Movement, p: string)
    requires p != ""  && m.request.blockedAccount != ""
    ensures Involves(Reload(m), p) <==> Involves(m, p)
    ensures Involves(m, p) ==> PredecessorFor(Reload(m), p) == PredecessorFor(m, p)
    ensures forall part :: DeltaFor(Reload(m).request, p, part) == DeltaFor(m.request, p, part)
  {
  }

  predicate Named(movements: map<string, Movement>) {
    forall k :: k in movements ==> movements[k].request.blockedAccount != "" && movements[k].request.availableAccount != ""
  }

  lemma {:induction false} ReloadKeepsChain(movements: map<string, Movement>, p: string, head: Option<string>, ks: seq<string>)
    requires Named(movements) && p != "" && IsChain(movements, p, head, ks) && forall k :: k in ks ==> k in movements
    ensures IsChain(Reloaded(movements), p, head, ks)
    ensures forall k :: k in ks ==> k in Reloaded(movements)
    ensures forall part :: ChainSum(Reloaded(movements), p, part, ks) == ChainSum(movements, p, part, ks)
    decreases |ks|
  {
    hide Reload, PredecessorFor, DeltaFor, Involves;
    if ks != [] {
      ReloadKeepsLink(movements[ks[0]], p);
      ReloadKeepsChain(movements, p, PredecessorFor(movements[ks[0]], p), ks[1..]);
    }
  }

  lemma ReloadKeepsHistory(movements: map<string, Movement>, a: Account, p: string, ks: seq<string>)
    requires Named(movements) && p != "" && IsHistory(movements, a, p, ks)
    ensures IsHistory(Reloaded(movements), a, p, ks)
  {
    hide Reload, IsChain, Involves;
    ReloadKeepsChain(movements, p, a.last, ks);
    forall k | k in Reloaded(movements) && Involves(Reloaded(movements)[k], p) ensures k in ks {
      ReloadKeepsLink(movements[k], p);
    }
  }

  /** Nothing in sound books involves a nameless account. */
  lemma BooksNamed(books: Books)
    requires BooksOk(books)
    ensures Named(books.movements)
  {
    hide Conserved, MovementsSound;
    assert HasHistory(books, "");
    var ks :| IsHistory(books.movements, AccountOf(books.accounts, ""), "", ks);
    assert ks == [];
    forall k | k in books.movements
      ensures books.movements[k].request.blockedAccount != "" && books.movements[k].request.availableAccount != ""
    {
      assert !Involves(books.movements[k], "");
    }
  }

  /** In every reachable state, after all entries have been stored and read back, each account
      still has the same history, and it still explains both balances. */
  lemma HistoriesSurviveStorage(crypto: Crypto, s: State, p: string, ks: seq<string>)
    requires Reachable(crypto, s) && p != ""
    requires IsHistory(s.books.movements, AccountOf(s.books.accounts, p), p, ks)
    ensures IsHistory(Reloaded(s.books.movements), AccountOf(s.books.accounts, p), p, ks)
  {
    hide Reachable, BooksOk, BidsOk, TxsLinked, BidsLinked, Escrowed, CurrenciesAgree, TasksPending, TxsOk, HotOk, SettledOnce,
         Explained, IsHistory;
    ReachableOk(crypto, s);
    BooksNamed(s.books);
    ReloadKeepsHistory(s.books.movements, AccountOf(s.books.accounts, p), p, ks);
  }
}
