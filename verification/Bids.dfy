/** Bids: the fee arithmetic of a new bid and the money a bid blocks or frees. */
module Bids {
  import opened Prelude
  import opened Amounts
  import opened Ledger
  import MoneyText

  datatype BidType = Buy | Sell

  datatype BidState = InQueue | Placed | Matched | Expired

  datatype Bid = Bid(
    bidType: BidType,
    state: BidState,
    article: string,
    price: Money,
    fee: Money,
    participant: string,
    created: int,
    expires: int,
    matched: Option<int>,
    transaction: Option<string>)

  /** Policy for the fields of a new bid that its author does not control. Times are in
      nanoseconds. */
  datatype BidDefaults = BidDefaults(initialState: BidState, numerator: int64, denominator: int64, timeout: int)

  const SECOND: int := 1_000_000_000
  const MINUTE: int := 60 * SECOND

  /** The server's policy: bids start in the queue, cost 3 percent, and live for 120 seconds. */
  const SERVER_DEFAULTS := BidDefaults(InQueue, 3, 100, 120 * SECOND)

  /** Go's integer division truncates toward zero. */
  function Quotient(a: int, b: int): int
    requires b != 0
  {
    if a >= 0 then a / b else -((-a) / b)
  }

  /** A fee ratio with which the fee of every accepted price can be computed. */
  predicate SaneRatio(d: BidDefaults) {
    && 0 <= d.numerator < MAX64
    && 1 <= d.denominator
    && d.denominator - 1 <= MAX64 / (d.numerator + 1)
  }

  /** The fee as computed on wrapping integers, rounding up. */
  function FeeAmount(d: BidDefaults, price: int64): int64
    requires d.denominator > 0
  {
    Wrap(Quotient(Wrap(Wrap(d.numerator * price) + d.denominator - 1), d.denominator))
  }

  function PriceLimit(d: BidDefaults): int
    requires 0 <= d.numerator
  {
    MAX64 / (d.numerator + 1)
  }

  function NewBid(bidType: BidType, article: string, price: Money, participant: string,
                  now: int, d: BidDefaults): Result<Bid>
    requires SaneRatio(d)
  {
    if price.amount < 0 then Err(InvalidBid)
    else if price.amount >= PriceLimit(d) then Err(InvalidBid)
    else Ok(Bid(bidType, d.initialState, article, price,
                Money(FeeAmount(d, price.amount), price.currency),
                participant, now, now + d.timeout, None, None))
  }

  /** A bid as its author states it, in text. */
  function ParseBid(bidType: string, article: string, price: string, participant: string,
                    now: int, d: BidDefaults): Result<Bid>
    requires SaneRatio(d)
  {
    if bidType != "BUY" && bidType != "SELL" then Err(InvalidBid)
    else match MoneyText.Reading(price)
      case Refused(_) => Err(InvalidBid)
      case Done(m) => NewBid(if bidType == "BUY" then Buy else Sell, article, m, participant, now, d)
  }

  /** Amounts in text stay below this limit. */
  const TEXT_LIMIT: int := 100_000_000_000_000_000

  /** A stated price is not negative and can be written and read again. */
  lemma ParsedPrice(bidType: string, article: string, price: string, participant: string, now: int, d: BidDefaults)
    requires SaneRatio(d) && ParseBid(bidType, article, price, participant, now, d).Ok?
    ensures 0 <= ParseBid(bidType, article, price, participant, now, d).value.price.amount < TEXT_LIMIT
  {
    hide MoneyText.Reading, FeeAmount, PriceLimit;
    MoneyText.AcceptedRange(price);
    MoneyText.Powers();
  }

  lemma MulMonotone(a: int, b: int, c: int)
    requires a <= b && 0 <= c
    ensures a * c <= b * c
  {
  }

  lemma CeilingIsLeast(n: int, m: int)
    requires 0 <= n && 1 <= m
    ensures var q := (n + m - 1) / m;
            && 0 <= q <= n
            && n <= m * q
            && (forall f: int :: n <= m * f ==> q <= f)
  {
    var q := (n + m - 1) / m;
    assert m * q <= n + m - 1 < m * q + m;
    forall f: int | n <= m * f ensures q <= f {
      if f < q { MulMonotone(f, q - 1, m); }
    }
    assert n <= m * n by { MulMonotone(1, m, n); }
  }

  lemma GuardPreventsOverflow(numerator: int, denominator: int, price: int)
    requires 0 <= numerator && 1 <= denominator
    requires denominator - 1 <= MAX64 / (numerator + 1)
    requires 0 <= price < MAX64 / (numerator + 1)
    ensures 0 <= numerator * price
    ensures numerator * price + denominator - 1 <= MAX64
    ensures numerator * price + price <= MAX64
  {
    var limit := MAX64 / (numerator + 1);
    MulMonotone(price, limit - 1, numerator);
    assert (numerator + 1) * limit <= MAX64;
    assert (numerator + 1) * limit == numerator * (limit - 1) + numerator + limit;
  }

  /** Under NewBid's guard nothing overflows: the fee is the least one that covers the ratio,
      and price and fee together still fit. */
  lemma FeeIsLeast(d: BidDefaults, price: int64)
    requires SaneRatio(d) && 0 <= price < PriceLimit(d)
    ensures var fee := FeeAmount(d, price);
            && 0 <= fee
            && d.numerator * price <= d.denominator * fee
            && (forall f: int :: d.numerator * price <= d.denominator * f ==> fee <= f)
            && price + fee <= MAX64
  {
    GuardPreventsOverflow(d.numerator, d.denominator, price);
    CeilingIsLeast(d.numerator * price, d.denominator);
  }

  /** A higher price never has a lower fee. */
  lemma FeeMonotone(d: BidDefaults, low: int64, high: int64)
    requires SaneRatio(d) && 0 <= low <= high < PriceLimit(d)
    ensures FeeAmount(d, low) <= FeeAmount(d, high)
  {
    FeeIsLeast(d, low);
    FeeIsLeast(d, high);
    MulMonotone(low, high, d.numerator);
  }

  /** The server takes every bid whose type is known and whose price can be read and is not
      negative: no price in text reaches the limit of the fee computation. The fee is 3 percent,
      rounded up, and the bid expires after two minutes. */
  lemma StatedBid(bidType: string, article: string, price: string, participant: string, now: int)
    ensures var r := ParseBid(bidType, article, price, participant, now, SERVER_DEFAULTS);
      && (r.Ok? <==> (bidType == "BUY" || bidType == "SELL")
                     && MoneyText.Reading(price).Done? && MoneyText.Reading(price).value.amount >= 0)
      && (r.Err? ==> r == Err(InvalidBid))
      && (r.Ok? ==>
            var m, b := MoneyText.Reading(price).value, r.value;
            && (b.bidType == Buy <==> bidType == "BUY")
            && b.article == article && b.participant == participant && b.price == m
            && b.fee.currency == m.currency && 3 * m.amount <= 100 * b.fee.amount < 3 * m.amount + 100
            && b.created == now && b.expires == now + 120_000_000_000
            && b.state == InQueue && b.matched == None && b.transaction == None)
  {
    hide MoneyText.Reading, MoneyText.Pow10, FeeAmount;
    if MoneyText.Reading(price).Done? && MoneyText.Reading(price).value.amount >= 0 {
      var m := MoneyText.Reading(price).value;
      MoneyText.AcceptedRange(price);
      MoneyText.Powers();
      FeeIsLeast(SERVER_DEFAULTS, m.amount);
      var fewer: int := FeeAmount(SERVER_DEFAULTS, m.amount) - 1;
      assert 3 * m.amount > 100 * fewer;
    }
  }

  // ---------------------------------------------------------------- money blocked by a bid

  predicate IsOpen(b: Bid) {
    b.state == InQueue || b.state == Placed
  }

  /** What must stay blocked on the participant's account on behalf of this bid. */
  function Due(b: Bid): int {
    if b.bidType == Buy && IsOpen(b) then b.price.amount + b.fee.amount else 0
  }

  function BidRequest(b: Bid, key: string, t: MovementType, available: Money, blocked: Money): Request {
    Request(t, b.participant, b.participant, available, blocked,
            Zero(b.price.currency), Zero(b.price.currency), Some(key), None, None)
  }

  /** Reading the account creates it if necessary, also when the check then fails. */
  function CheckBalance(accounts: map<string, Account>, b: Bid): Result<map<string, Account>> {
    if b.bidType == Buy && b.price.currency != b.fee.currency then Err(Panicked)
    else
      var price := if b.bidType == Buy then b.price.Add(b.fee) else b.price;
      if b.bidType == Buy && price.amount < 0 then Err(InvalidBid)
      else if !CanApply(AccountOf(accounts, b.participant), Available,
                        if b.bidType == Buy then price.Neg() else price) then
        Err(if b.bidType == Buy then InsufficientFunds else WrongCurrency)
      else Ok(Touch(accounts, b.participant))
  }

  function BookBid(books: Books, b: Bid, key: string, moveKey: string): Result<Books> {
    if b.bidType == Sell then Ok(books)
    else if b.price.currency != b.fee.currency then Err(Panicked)
    else
      var price := b.price.Add(b.fee);
      Place(books, b.created, BidRequest(b, key, BidBooked, price.Neg(), price), moveKey)
  }

  /** Checks the balance and blocks what the bid calls for. */
  function Reserve(books: Books, b: Bid, key: string, moveKey: string): Result<Books> {
    match CheckBalance(books.accounts, b)
    case Err(e) => Err(e)
    case Ok(accounts) => BookBid(books.(accounts := accounts), b, key, moveKey)
  }

  /** Reimburses an unmatched buy and expires an unmatched bid; other bids are left alone. */
  function RetireBid(books: Books, b: Bid, key: string, now: int, moveKey: string): Result<(Books, Bid)> {
    if !IsOpen(b) then Ok((books, b))
    else if b.bidType == Sell then Ok((books, b.(state := Expired)))
    else if b.price.currency != b.fee.currency then Err(Panicked)
    else
      var price := b.price.Add(b.fee);
      match Place(books, now, BidRequest(b, key, BidReimbursed, price, price.Neg()), moveKey)
      case Err(e) => Err(e)
      case Ok(books') => Ok((books', b.(state := Expired)))
  }

  /** The string by which bids that may match are grouped. */
  function CurrencyCode(c: Currency): string {
    match c
    case BTC => "BTC"
    case EUR => "EUR"
    case USD => "USD"
    case BRL => "BRL"
    case GBP => "GBP"
  }

  function MatchKey(article: string, c: Currency): string {
    article + ":" + CurrencyCode(c)
  }

  /** Bids grouped under one key agree on article and currency, whatever characters the
      article contains. */
  lemma MatchKeyInjective(a1: string, c1: Currency, a2: string, c2: Currency)
    requires MatchKey(a1, c1) == MatchKey(a2, c2)
    ensures a1 == a2 && c1 == c2
  {
    var k1, k2 := MatchKey(a1, c1), MatchKey(a2, c2);
    assert |CurrencyCode(c1)| == 3 && |CurrencyCode(c2)| == 3;
    assert k1[..|a1|] == a1 && k2[..|a2|] == a2;
    assert k1[|a1| + 1..] == CurrencyCode(c1) && k2[|a2| + 1..] == CurrencyCode(c2);
    assert CurrencyCode(c1)[0] == CurrencyCode(c2)[0] && CurrencyCode(c1)[1] == CurrencyCode(c2)[1];
  }
}
