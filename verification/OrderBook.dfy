/** The reference order book: resting bids of both sides as plain multisets, and what one
    incoming bid may do to them. */
module OrderBook {
  import opened Prelude
  import opened Amounts
  import opened Bids

  /** The part of a bid that matching needs. All hot bids of one zone share article and
      currency, so prices compare by amount. */
  datatype HotBid = HotBid(bidKey: string, bidType: BidType, price: Money, expires: int)

  function NewHotBid(key: string, b: Bid): HotBid {
    HotBid(key, b.bidType, b.price, b.expires)
  }

  /** Cheaper for a sell, dearer for a buy. */
  predicate BetterPriced(a: HotBid, b: HotBid) {
    if a.bidType == Sell then a.price.amount < b.price.amount else a.price.amount > b.price.amount
  }

  /** Better price first; among equal prices the earlier expiry first. */
  predicate HotterThan(a: HotBid, b: HotBid) {
    if a.price.amount == b.price.amount then a.expires < b.expires else BetterPriced(a, b)
  }

  function Opposite(t: BidType): BidType {
    if t == Buy then Sell else Buy
  }

  datatype Book = Book(buys: multiset<HotBid>, sells: multiset<HotBid>) {
    function Side(t: BidType): multiset<HotBid> {
      if t == Buy then buys else sells
    }

    function All(): multiset<HotBid> {
      buys + sells
    }

    ghost predicate Sided() {
      && (forall b :: b in buys ==> b.bidType == Buy)
      && (forall s :: s in sells ==> s.bidType == Sell)
    }

    /** No resting buy is priced above a resting sell. */
    ghost predicate Uncrossed() {
      forall b, s :: b in buys && s in sells ==> b.price.amount <= s.price.amount
    }
  }

  /** What happened to one incoming bid: which expired bids of the other side were dropped on
      the way, and which bid, if any, it was matched with. */
  datatype Event = Event(incoming: HotBid, dropped: multiset<HotBid>, partner: Option<HotBid>)

  /** Why the incoming bid found no partner on a side that is not empty: the best offer left, still
      alive, asks for more than the bid gives, or for the same while expiring no earlier. */
  ghost predicate Declines(x: HotBid, resting: multiset<HotBid>, now: int, bid: HotBid) {
    && x in resting && x.expires > now
    && (forall y :: y in resting ==> !BetterPriced(y, x))
    && !BetterPriced(x, bid)
    && (x.price.amount == bid.price.amount ==> x.expires >= bid.expires)
  }

  ghost predicate NoPartner(resting: multiset<HotBid>, now: int, bid: HotBid) {
    && (forall x :: x in resting ==> !BetterPriced(x, bid))
    && (resting == multiset{} || exists x :: Declines(x, resting, now, bid))
  }

  /** One side of the book, `mine`, receives the incoming bid; it may be matched against the
      other side, `theirs`. */
  ghost predicate Dealt(mine: multiset<HotBid>, theirs: multiset<HotBid>,
                        mine': multiset<HotBid>, theirs': multiset<HotBid>, now: int, e: Event) {
    && e.dropped <= theirs
    && (forall d :: d in e.dropped ==> d.expires <= now)
    && match e.partner
       case Some(p) =>
         && p in theirs - e.dropped && p.expires > now
         && HotterThan(p, e.incoming)
         && (forall x :: x in theirs - e.dropped ==> !BetterPriced(x, p))
         && theirs' == theirs - e.dropped - multiset{p}
         && mine' == mine
       case None =>
         && NoPartner(theirs - e.dropped, now, e.incoming)
         && theirs' == theirs - e.dropped
         && mine' == mine + multiset{e.incoming}
  }

  ghost predicate Handled(book: Book, book': Book, now: int, e: Event) {
    if e.incoming.bidType == Buy then Dealt(book.buys, book.sells, book'.buys, book'.sells, now, e)
    else Dealt(book.sells, book.buys, book'.sells, book'.buys, now, e)
  }

  /** `books` are the successive states while `events` happen in order. */
  ghost predicate Session(books: seq<Book>, now: int, events: seq<Event>) {
    && |books| == |events| + 1
    && forall i :: 0 <= i < |events| ==> Handled(books[i], books[i + 1], now, events[i])
  }

  /** The pairs of a session: newer bid first, older bid second. */
  function Matches(events: seq<Event>): seq<(HotBid, HotBid)> {
    if events == [] then [] else
    Matches(events[..|events| - 1]) +
    match events[|events| - 1].partner
    case Some(p) => [(events[|events| - 1].incoming, p)]
    case None => []
  }

  function Incoming(events: seq<Event>): seq<HotBid> {
    if events == [] then [] else
    Incoming(events[..|events| - 1]) + [events[|events| - 1].incoming]
  }

  function Dropped(events: seq<Event>): multiset<HotBid> {
    if events == [] then multiset{} else
    Dropped(events[..|events| - 1]) + events[|events| - 1].dropped
  }

  /** The bids on both sides of all matches of a session. */
  function Matched(events: seq<Event>): multiset<HotBid> {
    if events == [] then multiset{} else
    Matched(events[..|events| - 1]) + Settled(events[|events| - 1])
  }

  // ---------------------------------------------------------------- properties of a session

  lemma Difference<T>(a: multiset<T>, b: multiset<T>)
    requires b <= a
    ensures a == (a - b) + b
  {
  }

  lemma DealtConserves(mine: multiset<HotBid>, theirs: multiset<HotBid>,
                       mine': multiset<HotBid>, theirs': multiset<HotBid>, now: int, e: Event)
    requires Dealt(mine, theirs, mine', theirs', now, e)
    ensures mine + theirs + multiset{e.incoming} == mine' + theirs' + e.dropped + Settled(e)
  {
    hide HotterThan, BetterPriced, NoPartner;
    Difference(theirs, e.dropped);
    if e.partner.Some? {
      Difference(theirs - e.dropped, multiset{e.partner.value});
      assert mine + ((theirs' + multiset{e.partner.value}) + e.dropped) + multiset{e.incoming} ==
             mine + theirs' + e.dropped + multiset{e.incoming, e.partner.value};
    }
  }

  function Settled(e: Event): multiset<HotBid> {
    match e.partner
    case Some(p) => multiset{e.incoming, p}
    case None => multiset{}
  }

  /** What rests afterwards rested before, apart from the incoming bid. */
  lemma DealtOrigin(mine: multiset<HotBid>, theirs: multiset<HotBid>,
                    mine': multiset<HotBid>, theirs': multiset<HotBid>, now: int, e: Event, x: HotBid)
    requires Dealt(mine, theirs, mine', theirs', now, e)
    ensures x in theirs' ==> x in theirs && (e.partner.None? ==> !BetterPriced(x, e.incoming))
    ensures x in mine' ==> x in mine || (x == e.incoming && e.partner.None?)
    ensures e.partner == Some(x) ==> x in theirs
  {
  }

  lemma HandledKeepsSided(book: Book, book': Book, now: int, e: Event)
    requires book.Sided() && Handled(book, book', now, e)
    ensures book'.Sided()
  {
    forall x
      ensures x in book'.buys ==> x.bidType == Buy
      ensures x in book'.sells ==> x.bidType == Sell
    {
      if e.incoming.bidType == Buy {
        DealtOrigin(book.buys, book.sells, book'.buys, book'.sells, now, e, x);
      } else {
        DealtOrigin(book.sells, book.buys, book'.sells, book'.buys, now, e, x);
      }
    }
  }

  lemma HandledKeepsUncrossed(book: Book, book': Book, now: int, e: Event)
    requires book.Sided() && book.Uncrossed() && Handled(book, book', now, e)
    ensures book'.Uncrossed()
  {
    forall b, s | b in book'.buys && s in book'.sells ensures b.price.amount <= s.price.amount {
      if e.incoming.bidType == Buy {
        DealtOrigin(book.buys, book.sells, book'.buys, book'.sells, now, e, b);
        DealtOrigin(book.buys, book.sells, book'.buys, book'.sells, now, e, s);
      } else {
        DealtOrigin(book.sells, book.buys, book'.sells, book'.buys, now, e, b);
        DealtOrigin(book.sells, book.buys, book'.sells, book'.buys, now, e, s);
      }
    }
  }

  /** Nobody is lost: an incoming bid and everything resting before ends up matched, dropped
      as expired, or resting afterwards, and in one of these only. */
  lemma HandledConserves(book: Book, book': Book, now: int, e: Event)
    requires Handled(book, book', now, e)
    ensures book.All() + multiset{e.incoming} == book'.All() + e.dropped + Settled(e)
  {
    if e.incoming.bidType == Buy {
      DealtConserves(book.buys, book.sells, book'.buys, book'.sells, now, e);
    } else {
      DealtConserves(book.sells, book.buys, book'.sells, book'.buys, now, e);
      assert book.All() == book.sells + book.buys && book'.All() == book'.sells + book'.buys;
    }
  }

  lemma Accumulate<T>(start: multiset<T>, came: multiset<T>, middle: multiset<T>, m: multiset<T>, d: multiset<T>,
                      one: multiset<T>, end: multiset<T>, m': multiset<T>, d': multiset<T>)
    requires start + came == middle + m + d
    requires middle + one == end + d' + m'
    ensures start + (came + one) == end + (m + m') + (d + d')
  {
    assert start + (came + one) == (start + came) + one;
    assert (middle + m + d) + one == (middle + one) + (m + d);
    assert (end + d' + m') + (m + d) == end + (m + m') + (d + d');
  }

  /** Over a whole session the fates of all bids add up. */
  lemma {:induction false} SessionConserves(books: seq<Book>, now: int, events: seq<Event>)
    requires Session(books, now, events)
    ensures books[0].All() + multiset(Incoming(events)) ==
            books[|events|].All() + Matched(events) + Dropped(events)
  {
    if events != [] {
      var n := |events| - 1;
      SessionConserves(books[..|events|], now, events[..n]);
      HandledConserves(books[n], books[n + 1], now, events[n]);
      Accumulate(books[0].All(), multiset(Incoming(events[..n])), books[n].All(),
                 Matched(events[..n]), Dropped(events[..n]),
                 multiset{events[n].incoming}, books[n + 1].All(), Settled(events[n]), events[n].dropped);
    }
  }

  /** Over a whole session the book stays uncrossed. */
  lemma {:induction false} SessionKeepsUncrossed(books: seq<Book>, now: int, events: seq<Event>)
    requires Session(books, now, events) && books[0].Sided() && books[0].Uncrossed()
    ensures books[|events|].Sided() && books[|events|].Uncrossed()
  {
    if events != [] {
      var n := |events| - 1;
      SessionKeepsUncrossed(books[..|events|], now, events[..n]);
      HandledKeepsSided(books[n], books[n + 1], now, events[n]);
      HandledKeepsUncrossed(books[n], books[n + 1], now, events[n]);
    }
  }

  // ---------------------------------------------------------------- when a match must happen

  /** The offer `x` is strictly better than what the bid asks for. */
  predicate Undercuts(x: HotBid, bid: HotBid) {
    if bid.bidType == Buy then x.price.amount < bid.price.amount else x.price.amount > bid.price.amount
  }

  /** Everything alive that is offered at exactly the bid's price expires before the bid. */
  ghost predicate EqualsExpireFirst(offers: multiset<HotBid>, now: int, bid: HotBid) {
    forall y :: y in offers && y.expires > now && y.price.amount == bid.price.amount ==> y.expires < bid.expires
  }

  /** Prices and expiries alone force a match: some living offer undercuts the bid, or some living
      offer has its price and all those that do expire before it. */
  ghost predicate MustMatch(offers: multiset<HotBid>, now: int, bid: HotBid) {
    || (exists x :: x in offers && x.expires > now && Undercuts(x, bid))
    || (EqualsExpireFirst(offers, now, bid)
        && exists x :: x in offers && x.expires > now && x.price.amount == bid.price.amount)
  }

  /** Prices and expiries alone allow a match: some living offer undercuts the bid, or has its
      price and expires before it. */
  ghost predicate MayMatch(offers: multiset<HotBid>, now: int, bid: HotBid) {
    exists x :: x in offers && x.expires > now
      && (Undercuts(x, bid) || (x.price.amount == bid.price.amount && x.expires < bid.expires))
  }

  ghost predicate OneSide(offers: multiset<HotBid>, t: BidType) {
    forall x :: x in offers ==> x.bidType == t
  }

  lemma LivingRemain(theirs: multiset<HotBid>, dropped: multiset<HotBid>, now: int, x: HotBid)
    requires dropped <= theirs && forall d :: d in dropped ==> d.expires <= now
    requires x in theirs && x.expires > now
    ensures x in theirs - dropped
  {
  }

  /** Where there is no partner, nothing forces a match. */
  lemma NothingForced(theirs: multiset<HotBid>, dropped: multiset<HotBid>, now: int, bid: HotBid)
    requires dropped <= theirs && forall d :: d in dropped ==> d.expires <= now
    requires NoPartner(theirs - dropped, now, bid) && OneSide(theirs, Opposite(bid.bidType))
    ensures !MustMatch(theirs, now, bid)
  {
    forall x | x in theirs && x.expires > now
      ensures !Undercuts(x, bid) && (EqualsExpireFirst(theirs, now, bid) ==> x.price.amount != bid.price.amount)
    {
      LivingRemain(theirs, dropped, now, x);
      var w :| Declines(w, theirs - dropped, now, bid);
      assert w in theirs && !BetterPriced(x, w);
    }
  }

  /** A match happens whenever it must, and only when it may. */
  lemma DealtMatches(mine: multiset<HotBid>, theirs: multiset<HotBid>,
                     mine': multiset<HotBid>, theirs': multiset<HotBid>, now: int, e: Event)
    requires Dealt(mine, theirs, mine', theirs', now, e) && OneSide(theirs, Opposite(e.incoming.bidType))
    ensures MustMatch(theirs, now, e.incoming) ==> e.partner.Some?
    ensures e.partner.Some? ==> MayMatch(theirs, now, e.incoming)
  {
    if e.partner.None? {
      NothingForced(theirs, e.dropped, now, e.incoming);
    }
  }

  lemma HandledMatches(book: Book, book': Book, now: int, e: Event)
    requires Handled(book, book', now, e) && book.Sided()
    ensures var offers := book.Side(Opposite(e.incoming.bidType));
      && (MustMatch(offers, now, e.incoming) ==> e.partner.Some?)
      && (e.partner.Some? ==> MayMatch(offers, now, e.incoming))
  {
    hide Dealt, MustMatch, MayMatch;
    if e.incoming.bidType == Buy {
      DealtMatches(book.buys, book.sells, book'.buys, book'.sells, now, e);
    } else {
      DealtMatches(book.sells, book.buys, book'.sells, book'.buys, now, e);
    }
  }

  lemma {:induction false} SessionStaysSided(books: seq<Book>, now: int, events: seq<Event>, i: nat)
    requires Session(books, now, events) && books[0].Sided() && i <= |events|
    ensures books[i].Sided()
  {
    hide Handled, Book.Sided;
    if i > 0 {
      SessionStaysSided(books, now, events, i - 1);
      HandledKeepsSided(books[i - 1], books[i], now, events[i - 1]);
    }
  }

  lemma {:induction false} PairEmitted(events: seq<Event>, i: nat)
    requires i < |events| && events[i].partner.Some?
    ensures (events[i].incoming, events[i].partner.value) in Matches(events)
  {
    if i < |events| - 1 {
      PairEmitted(events[..|events| - 1], i);
    }
  }

  /** In a session every incoming bid that must match when its turn comes is in an emitted pair,
      and one that may not match is not given a partner. */
  lemma SessionMatches(books: seq<Book>, now: int, events: seq<Event>, i: nat)
    requires Session(books, now, events) && books[0].Sided() && i < |events|
    ensures var e := events[i];
      var offers := books[i].Side(Opposite(e.incoming.bidType));
      && (MustMatch(offers, now, e.incoming) ==>
            e.partner.Some? && (e.incoming, e.partner.value) in Matches(events))
      && (!MayMatch(offers, now, e.incoming) ==> e.partner.None?)
  {
    hide Handled, Book.Sided, MustMatch, MayMatch, Matches;
    SessionStaysSided(books, now, events, i);
    HandledMatches(books[i], books[i + 1], now, events[i]);
    if events[i].partner.Some? { PairEmitted(events, i); }
  }

  /** A pair as it leaves the matcher: opposite sides, the older bid still alive, and its
      price at least as good as the newer bid asks for. */
  predicate FairPair(newer: HotBid, older: HotBid, now: int) {
    && newer.bidType != older.bidType
    && older.expires > now
    && (older.bidType == Sell ==> older.price.amount <= newer.price.amount)
    && (older.bidType == Buy ==> older.price.amount >= newer.price.amount)
  }

  ghost predicate From(x: HotBid, book: Book, incoming: seq<HotBid>) {
    x in book.buys || x in book.sells || x in incoming
  }

  lemma HandledOrigin(book: Book, book': Book, now: int, e: Event, x: HotBid)
    requires Handled(book, book', now, e)
    requires x in book'.buys || x in book'.sells || e.partner == Some(x)
    ensures From(x, book, [e.incoming])
  {
    if e.incoming.bidType == Buy {
      DealtOrigin(book.buys, book.sells, book'.buys, book'.sells, now, e, x);
    } else {
      DealtOrigin(book.sells, book.buys, book'.sells, book'.buys, now, e, x);
    }
  }

  lemma HandledPairFair(book: Book, book': Book, now: int, e: Event)
    requires book.Sided() && Handled(book, book', now, e) && e.partner.Some?
    ensures FairPair(e.incoming, e.partner.value, now)
  {
  }

  /** Only bids that were there before or came in rest afterwards or take part in a match. */
  lemma {:induction false} SessionOrigin(books: seq<Book>, now: int, events: seq<Event>, x: HotBid)
    requires Session(books, now, events)
    requires x in books[|events|].buys || x in books[|events|].sells
    ensures From(x, books[0], Incoming(events))
  {
    if events != [] {
      var n := |events| - 1;
      HandledOrigin(books[n], books[n + 1], now, events[n], x);
      if x in books[n].buys || x in books[n].sells {
        SessionOrigin(books[..|events|], now, events[..n], x);
      }
    }
  }

  /** Every emitted pair is fair, and both its bids were there before or came in. */
  lemma {:induction false} SessionPairsFair(books: seq<Book>, now: int, events: seq<Event>, newer: HotBid, older: HotBid)
    requires Session(books, now, events) && books[0].Sided() && books[0].Uncrossed()
    requires (newer, older) in Matches(events)
    ensures FairPair(newer, older, now)
    ensures From(newer, books[0], Incoming(events)) && From(older, books[0], Incoming(events))
  {
    var n := |events| - 1;
    var e := events[n];
    if (newer, older) in Matches(events[..n]) {
      SessionPairsFair(books[..|events|], now, events[..n], newer, older);
    } else {
      SessionKeepsUncrossed(books[..|events|], now, events[..n]);
      HandledPairFair(books[n], books[n + 1], now, e);
      HandledOrigin(books[n], books[n + 1], now, e, older);
      if older in books[n].buys || older in books[n].sells {
        SessionOrigin(books[..|events|], now, events[..n], older);
      }
    }
  }
}
