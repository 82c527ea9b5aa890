/** Price statistics: trades of a period, cut into tiles and summed up in time slots. */
module Prices {
  import opened Prelude
  import opened Amounts

  datatype Trade = Trade(matched: int, price: Money)

  datatype Timeslot = Timeslot(begin: int, end: int, sum: Money, min: Money, max: Money, count: nat)

  // ---------------------------------------------------------------- resolutions

  const SECOND: int := 1_000_000_000
  const HOUR: int := 3600 * SECOND

  /** The intervals of all resolutions, from one year down to one second. */
  const INTERVALS: seq<int> := [
    9 * 42 * 24 * HOUR, 42 * 24 * HOUR, 7 * 24 * HOUR, 24 * HOUR, 6 * HOUR, HOUR,
    720 * SECOND, 180 * SECOND, 30 * SECOND, 6 * SECOND, SECOND]

  type resolution = r: nat | r < 11

  function Interval(r: resolution): (i: int)
    ensures i > 0
  {
    INTERVALS[r]
  }

  predicate FinerThan(a: resolution, b: resolution) {
    Interval(a) < Interval(b)
  }

  function CoarsestTile(r: resolution): resolution {
    if r < 5 then 0 else r - 5
  }

  function FinestTile(r: resolution): resolution {
    if r < 2 then 0 else r - 2
  }

  /** Each interval is a multiple of the next finer one. */
  lemma Nested(r: resolution)
    requires r < 10
    ensures Interval(r) % Interval(r + 1) == 0 && Interval(r) > Interval(r + 1)
  {
  }

  lemma {:induction false} NestedAll(a: resolution, b: resolution)
    requires a <= b
    ensures Interval(a) % Interval(b) == 0
    ensures Interval(a) >= Interval(b) && (a < b ==> Interval(a) > Interval(b))
    decreases b - a
  {
    hide Interval;
    if a < b {
      Nested(a);
      NestedAll(a + 1, b);
      MultipleOfMultiple(Interval(a), Interval(a + 1), Interval(b));
    }
  }

  lemma MultipleOfMultiple(x: int, y: int, z: int)
    requires y > 0 && z > 0 && x % y == 0 && y % z == 0
    ensures x % z == 0
  {
    var k, l := x / y, y / z;
    assert x == k * (l * z) == (k * l) * z;
    MultipleMod(k * l, z);
  }

  lemma MultipleMod(k: int, z: int)
    requires z > 0
    ensures (k * z) % z == 0
  {
    var q, r := (k * z) / z, (k * z) % z;
    assert (k - q) * z == r;
    assert k - q >= 1 ==> (k - q) * z >= z;
    assert k - q <= -1 ==> (k - q) * z <= -z;
  }

  // ---------------------------------------------------------------- the datastore

  ghost predicate Sorted(db: seq<Trade>) {
    forall i, j :: 0 <= i < j < |db| ==> db[i].matched <= db[j].matched
  }

  /** The trades matched in a half-open interval. */
  function Select(db: seq<Trade>, begin: int, end: int): seq<Trade> {
    if db == [] then [] else
    (if begin <= db[0].matched < end then [db[0]] else []) + Select(db[1..], begin, end)
  }

  const LIMIT: nat := 10000

  function Limited(trades: seq<Trade>): seq<Trade> {
    if |trades| <= LIMIT then trades else trades[..LIMIT]
  }

  // ---------------------------------------------------------------- what is summed up

  /** The trades of one slot. */
  datatype Group = Group(begin: int, end: int, trades: seq<Trade>)

  function Wrapped(trades: seq<Trade>): int64
    requires trades != []
  {
    if |trades| == 1 then trades[0].price.amount
    else Wrap(Wrapped(trades[..|trades| - 1]) + trades[|trades| - 1].price.amount)
  }

  function Least(trades: seq<Trade>): int64
    requires trades != []
  {
    var x := trades[|trades| - 1].price.amount;
    if |trades| == 1 then x
    else var y := Least(trades[..|trades| - 1]); if x < y then x else y
  }

  function Greatest(trades: seq<Trade>): int64
    requires trades != []
  {
    var x := trades[|trades| - 1].price.amount;
    if |trades| == 1 then x
    else var y := Greatest(trades[..|trades| - 1]); if x > y then x else y
  }

  function Summary(g: Group, c: Currency): Timeslot
    requires g.trades != []
  {
    Timeslot(g.begin, g.end, Money(Wrapped(g.trades), c), Money(Least(g.trades), c), Money(Greatest(g.trades), c), |g.trades|)
  }

  function Summaries(gs: seq<Group>, c: Currency): seq<Timeslot>
    requires forall g :: g in gs ==> g.trades != []
  {
    seq(|gs|, i requires 0 <= i < |gs| => Summary(gs[i], c))
  }

  function Total(trades: seq<Trade>): int {
    if trades == [] then 0 else Total(trades[..|trades| - 1]) + trades[|trades| - 1].price.amount
  }

  /** The sum is exact unless it leaves the int64 range, in which case it wraps around. */
  lemma {:induction false} SumMeaning(trades: seq<Trade>)
    requires trades != []
    ensures Wrapped(trades) == Wrap(Total(trades))
  {
    var n := |trades| - 1;
    if n == 0 {
      assert Total(trades[..0]) == 0;
    } else {
      SumMeaning(trades[..n]);
      WrapAdds(Total(trades[..n]), trades[n].price.amount);
    }
  }

  /** No trade is below the least price, and one has it. */
  lemma {:induction false} LeastMeaning(trades: seq<Trade>)
    requires trades != []
    ensures forall i :: 0 <= i < |trades| ==> Least(trades) <= trades[i].price.amount
    ensures exists i :: 0 <= i < |trades| && trades[i].price.amount == Least(trades)
  {
    var n := |trades| - 1;
    assert trades[n].price.amount >= Least(trades);
    if n > 0 {
      LeastMeaning(trades[..n]);
      var i :| 0 <= i < n && trades[..n][i].price.amount == Least(trades[..n]);
      assert trades[i] == trades[..n][i];
      forall j | 0 <= j < n ensures Least(trades) <= trades[j].price.amount {
        assert trades[j] == trades[..n][j];
      }
    }
  }

  lemma {:induction false} GreatestMeaning(trades: seq<Trade>)
    requires trades != []
    ensures forall i :: 0 <= i < |trades| ==> trades[i].price.amount <= Greatest(trades)
    ensures exists i :: 0 <= i < |trades| && trades[i].price.amount == Greatest(trades)
  {
    var n := |trades| - 1;
    assert trades[n].price.amount <= Greatest(trades);
    if n > 0 {
      GreatestMeaning(trades[..n]);
      var i :| 0 <= i < n && trades[..n][i].price.amount == Greatest(trades[..n]);
      assert trades[i] == trades[..n][i];
      forall j | 0 <= j < n ensures trades[j].price.amount <= Greatest(trades) {
        assert trades[j] == trades[..n][j];
      }
    }
  }

  lemma WrapAdds(x: int, y: int)
    ensures Wrap(Wrap(x) + y) == Wrap(x + y)
  {
    var k := (x - Wrap(x)) / TWO64;
    assert x == Wrap(x) + k * TWO64;
  }

  // ---------------------------------------------------------------- slots of one tile

  /** How many leading trades fall into a slot that ends at `end`, the end included. */
  function Fitting(trades: seq<Trade>, end: int): (n: nat)
    ensures n <= |trades|
    ensures forall i :: 0 <= i < n ==> trades[i].matched <= end
    ensures n < |trades| ==> trades[n].matched > end
  {
    if trades != [] && trades[0].matched <= end then 1 + Fitting(trades[1..], end) else 0
  }

  /** The non-empty slots of a tile. */
  function Slots(begin: int, interval: int, trades: seq<Trade>): (gs: seq<Group>)
    requires interval > 0
    ensures forall g :: g in gs ==> g.trades != []
    decreases |trades|, if trades == [] then 0 else trades[0].matched - begin
  {
    if trades == [] then []
    else
      var n := Fitting(trades, begin + interval);
      if n == 0 then Slots(begin + interval, interval, trades)
      else [Group(begin, begin + interval, trades[..n])] + Slots(begin + interval, interval, trades[n..])
  }

  lemma FittingAll(group: seq<Trade>, more: seq<Trade>, end: int)
    requires forall t :: t in group ==> t.matched <= end
    requires more != [] ==> more[0].matched > end
    ensures Fitting(group + more, end) == |group|
  {
    assert forall i :: 0 <= i < |group| ==> (group + more)[i] == group[i];
    assert more != [] ==> (group + more)[|group|] == more[0];
  }

  /** A slot is closed by the first trade after its end. */
  lemma SlotFlush(begin: int, interval: int, group: seq<Trade>, more: seq<Trade>)
    requires interval > 0 && group != []
    requires forall t :: t in group ==> t.matched <= begin + interval
    requires more != [] ==> more[0].matched > begin + interval
    ensures Slots(begin, interval, group + more) ==
            [Group(begin, begin + interval, group)] + Slots(begin + interval, interval, more)
  {
    FittingAll(group, more, begin + interval);
    assert (group + more)[..|group|] == group;
    assert (group + more)[|group|..] == more;
  }

  lemma SlotSkip(begin: int, interval: int, more: seq<Trade>)
    requires interval > 0 && more != [] && more[0].matched > begin + interval
    ensures Slots(begin, interval, more) == Slots(begin + interval, interval, more)
  {
  }

  /** One pass over consecutive tiles of size `tile`, the last one cut off at the end. */
  function Pass(db: seq<Trade>, tile: int, interval: int, begin: int, end: int): (gs: seq<Group>)
    requires tile > 0 && interval > 0
    ensures forall g :: g in gs ==> g.trades != []
    decreases end - begin
  {
    if begin >= end then [] else
    var tileEnd := if begin + tile > end then end else begin + tile;
    Slots(begin, interval, Limited(Select(db, begin, tileEnd))) + Pass(db, tile, interval, tileEnd, end)
  }

  /** A pass can be split wherever a tile ends. */
  lemma {:induction false} PassSplit(db: seq<Trade>, tile: int, interval: int, begin: int, middle: int, end: int)
    requires tile > 0 && interval > 0 && begin <= middle <= end && (middle - begin) % tile == 0
    ensures Pass(db, tile, interval, begin, end) ==
            Pass(db, tile, interval, begin, middle) + Pass(db, tile, interval, middle, end)
    decreases middle - begin
  {
    hide Slots, Limited, Select;
    if begin < middle {
      WholeTile(middle - begin, tile);
      PassSplit(db, tile, interval, begin + tile, middle, end);
    } else {
      assert Pass(db, tile, interval, begin, middle) == [];
    }
  }

  lemma WholeTile(n: int, tile: int)
    requires tile > 0 && n > 0 && n % tile == 0
    ensures n >= tile && (n - tile) % tile == 0
  {
    assert n - tile == (n / tile - 1) * tile;
    MultipleMod(n / tile - 1, tile);
  }

  // ---------------------------------------------------------------- the slot in progress

  class Slot {
    var begin: int
    var end: int
    var sum: Money
    var min: Money
    var max: Money
    var count: nat

    constructor (b: int, e: int)
      ensures begin == b && end == e && count == 0
    {
      begin, end, sum, min, max, count := b, e, Zero(BTC), Zero(BTC), Zero(BTC), 0;
    }

    function View(): Timeslot reads this {
      Timeslot(begin, end, sum, min, max, count)
    }

    /** The accumulators are those of the given trades. */
    ghost predicate Shows(trades: seq<Trade>, c: Currency) reads this {
      count == |trades| && (trades != [] ==> View() == Summary(Group(begin, end, trades), c))
    }

    method AddPrice(price: Money, ghost trades: seq<Trade>, ghost t: Trade)
      requires Shows(trades, price.currency) && t.price == price
      modifies this
      ensures begin == old(begin) && end == old(end)
      ensures Shows(trades + [t], price.currency)
    {
      assert (trades + [t])[..|trades|] == trades;
      if count == 0 {
        sum, min, max := price, price, price;
      } else {
        sum := sum.Add(price);
        if price.amount < min.amount {
          min := Money(price.amount, min.currency);
        }
        if price.amount > max.amount {
          max := Money(price.amount, max.currency);
        }
      }
      count := count + 1;
    }

    /** Moves on to the next slot. */
    method Advance()
      modifies this
      ensures begin == old(end) && end == old(end) + (old(end) - old(begin)) && count == 0
    {
      var interval := end - begin;
      begin := end;
      end := end + interval;
      count := 0;
      sum := Money(0, sum.currency);
      min := Money(0, min.currency);
      max := Money(0, max.currency);
    }
  }

  /** Sums up the trades of one tile. */
  method QueryTile(reliable: bool, db: seq<Trade>, c: Currency, res: resolution, begin: int, end: int)
    returns (r: Result<seq<Timeslot>>)
    requires forall t :: t in db ==> t.price.currency == c
    ensures reliable ==> r.Ok?
    ensures r == Err(Unavailable) ||
            r == Ok(Summaries(Slots(begin, Interval(res), Limited(Select(db, begin, end))), c))
  {
    hide Slots, Summary, Limited, Select, Interval, Summaries, Summed;
    var up: bool := *;
    if !reliable && !up { return Err(Unavailable); }
    var rows := Limited(Select(db, begin, end));
    RowsOfDb(db, begin, end);
    var interval := Interval(res);
    var slot := new Slot(begin, begin + interval);
    var result: seq<Timeslot> := [];
    ghost var all := Slots(begin, interval, rows);
    ghost var group: seq<Trade> := [];
    SumStart(begin, interval, rows, c);
    var i := 0;
    assert rows[0..] == rows;
    while i < |rows|
      invariant 0 <= i <= |rows| && slot.end == slot.begin + interval && slot.Shows(group, c)
      invariant Summed(all, result, c, slot.begin, interval, group, rows[i..])
    {
      var tx := rows[i];
      while slot.end < tx.matched
        invariant slot.end == slot.begin + interval && slot.Shows(group, c)
        invariant Summed(all, result, c, slot.begin, interval, group, rows[i..])
        decreases tx.matched - slot.end
      {
        SumFlush(all, result, c, slot.begin, interval, group, rows[i..]);
        assert result + [] == result;
        if slot.count > 0 {
          result := result + [slot.View()];
        }
        slot.Advance();
        group := [];
      }
      SumAdd(all, result, c, slot.begin, interval, group, rows[i..]);
      slot.AddPrice(tx.price, group, tx);
      group := group + [tx];
      assert rows[i..][1..] == rows[i + 1..];
      i := i + 1;
    }
    assert rows[i..] == [];
    SumEnd(all, result, c, slot.begin, interval, group);
    assert result + [] == result;
    if slot.count > 0 {
      result := result + [slot.View()];
    }
    return Ok(result);
  }

  /** The loop of a tile: the slots already emitted, those of the current group and those of the
      trades to come make up all slots of the tile. */
  ghost predicate Summed(all: seq<Group>, result: seq<Timeslot>, c: Currency, begin: int, interval: int,
                         group: seq<Trade>, more: seq<Trade>)
    requires interval > 0
  {
    exists done :: SummedBy(done, all, result, c, begin, interval, group, more)
  }

  ghost predicate SummedBy(done: seq<Group>, all: seq<Group>, result: seq<Timeslot>, c: Currency, begin: int, interval: int,
                           group: seq<Trade>, more: seq<Trade>)
    requires interval > 0
  {
    && (forall g :: g in done ==> g.trades != [])
    && result == Summaries(done, c)
    && (forall t :: t in group ==> t.matched <= begin + interval)
    && all == done + Slots(begin, interval, group + more)
  }

  lemma SumStart(begin: int, interval: int, rows: seq<Trade>, c: Currency)
    requires interval > 0
    ensures Summed(Slots(begin, interval, rows), [], c, begin, interval, [], rows)
  {
    SummariesNone(c);
    assert [] + rows == rows;
    assert SummedBy([], Slots(begin, interval, rows), [], c, begin, interval, [], rows);
  }

  /** A trade after the end of the slot closes it. */
  lemma SumFlush(all: seq<Group>, result: seq<Timeslot>, c: Currency, begin: int, interval: int,
                 group: seq<Trade>, more: seq<Trade>)
    requires interval > 0 && Summed(all, result, c, begin, interval, group, more)
    requires more != [] && more[0].matched > begin + interval
    ensures Summed(all, result + (if group == [] then [] else [Summary(Group(begin, begin + interval, group), c)]), c,
                   begin + interval, interval, [], more)
  {
    hide Slots, Summary, Summaries;
    var done :| SummedBy(done, all, result, c, begin, interval, group, more);
    assert [] + more == more;
    if group == [] {
      SlotSkip(begin, interval, more);
      assert result + [] == result;
      assert SummedBy(done, all, result, c, begin + interval, interval, [], more);
    } else {
      var g := Group(begin, begin + interval, group);
      SlotFlush(begin, interval, group, more);
      SummariesSnoc(done, g, c);
      Regroup(done, g, Slots(begin + interval, interval, more));
      assert SummedBy(done + [g], all, result + [Summary(g, c)], c, begin + interval, interval, [], more);
    }
  }

  lemma SumAdd(all: seq<Group>, result: seq<Timeslot>, c: Currency, begin: int, interval: int,
               group: seq<Trade>, more: seq<Trade>)
    requires interval > 0 && Summed(all, result, c, begin, interval, group, more)
    requires more != [] && more[0].matched <= begin + interval
    ensures Summed(all, result, c, begin, interval, group + [more[0]], more[1..])
  {
    hide Slots, Summaries;
    var done :| SummedBy(done, all, result, c, begin, interval, group, more);
    assert group + more == (group + [more[0]]) + more[1..];
    assert SummedBy(done, all, result, c, begin, interval, group + [more[0]], more[1..]);
  }

  lemma SumEnd(all: seq<Group>, result: seq<Timeslot>, c: Currency, begin: int, interval: int, group: seq<Trade>)
    requires interval > 0 && Summed(all, result, c, begin, interval, group, [])
    requires forall g :: g in all ==> g.trades != []
    ensures Summaries(all, c) ==
            result + if group == [] then [] else [Summary(Group(begin, begin + interval, group), c)]
  {
    hide Slots, Summary, Summaries;
    var done :| SummedBy(done, all, result, c, begin, interval, group, []);
    if group == [] {
      NoSlots(begin, interval);
      assert group + [] == [];
      assert done + [] == done;
      assert result + [] == result;
    } else {
      var g := Group(begin, begin + interval, group);
      SlotFlush(begin, interval, group, []);
      NoSlots(begin + interval, interval);
      assert all == done + [g];
      SummariesSnoc(done, g, c);
    }
  }

  lemma NoSlots(begin: int, interval: int)
    requires interval > 0
    ensures Slots(begin, interval, []) == []
  {
  }

  lemma Regroup(done: seq<Group>, g: Group, rest: seq<Group>)
    ensures done + ([g] + rest) == done + [g] + rest
  {
  }

  lemma {:induction false} RowsOfDb(db: seq<Trade>, begin: int, end: int)
    ensures forall t :: t in Limited(Select(db, begin, end)) ==> t in db
  {
    SelectedFromDb(db, begin, end);
  }

  lemma {:induction false} SelectedFromDb(db: seq<Trade>, begin: int, end: int)
    ensures forall t :: t in Select(db, begin, end) ==> t in db && begin <= t.matched < end
  {
    if db != [] { SelectedFromDb(db[1..], begin, end); }
  }

  lemma SummariesNone(c: Currency)
    ensures Summaries([], c) == []
  {
  }

  lemma SummariesSnoc(gs: seq<Group>, g: Group, c: Currency)
    requires (forall h :: h in gs ==> h.trades != []) && g.trades != []
    ensures Summaries(gs + [g], c) == Summaries(gs, c) + [Summary(g, c)]
  {
    hide Summary;
  }

  lemma SummariesJoin(gs: seq<Group>, hs: seq<Group>, c: Currency)
    requires (forall g :: g in gs ==> g.trades != []) && (forall h :: h in hs ==> h.trades != [])
    ensures Summaries(gs + hs, c) == Summaries(gs, c) + Summaries(hs, c)
  {
    hide Summary;
  }

  // ---------------------------------------------------------------- the recursion over tiles

  /** A tile or less is one tile of the pass, if it is as fine as the tiles get. */
  lemma PassOfOne(db: seq<Trade>, tile: int, interval: int, begin: int, end: int)
    requires tile > 0 && interval > 0 && begin + tile >= end
    ensures Pass(db, tile, interval, begin, end) == Slots(begin, interval, Limited(Select(db, begin, end)))
  {
    hide Slots;
    if begin < end {
      assert Pass(db, tile, interval, end, end) == [];
      var s := Slots(begin, interval, Limited(Select(db, begin, end)));
      assert s + [] == s;
    } else {
      SelectNothing(db, begin, end);
      NoSlots(begin, interval);
    }
  }

  lemma {:induction false} SelectNothing(db: seq<Trade>, begin: int, end: int)
    requires begin >= end
    ensures Select(db, begin, end) == []
  {
    if db != [] { SelectNothing(db[1..], begin, end); }
  }

  predicate Unsplit(tile: resolution, begin: int, end: int) {
    begin + Interval(tile) >= end
  }

  /** Fans out to tiles, and recurses to finer tiles down to the finest suitable ones. Without a
      cache the outcome is that of one pass over the finest tiles. Unless the datastore is reliable a
      query may fail. Panics on too fine a tile. */
  method QueryPrices(reliable: bool, db: seq<Trade>, c: Currency, tile: resolution, res: resolution, begin: int, end: int)
    returns (r: Result<seq<Timeslot>>)
    requires forall t :: t in db ==> t.price.currency == c
    ensures FinerThan(tile, FinestTile(res)) ==> r == Err(Panicked)
    ensures reliable && !FinerThan(tile, FinestTile(res)) ==> r.Ok?
    ensures !FinerThan(tile, FinestTile(res)) ==>
      r == Err(Unavailable) ||
      r == Ok(Summaries(Pass(db, Interval(FinestTile(res)), Interval(res), begin, end), c))
    decreases 11 - tile, if Unsplit(tile, begin, end) then 0 else 1
  {
    hide Interval, Pass, Slots, Limited, Select, Summary, Summaries;
    var finest := FinestTile(res);
    if FinerThan(tile, finest) { return Err(Panicked); }
    CoarserIndex(tile, finest);
    if !Unsplit(tile, begin, end) {
      var result: seq<Timeslot> := [];
      var b := begin;
      NestedAll(tile, finest);
      StartPass(db, Interval(finest), Interval(res), begin, c);
      while b < end
        invariant b == end || (begin <= b < end && (b - begin) % Interval(finest) == 0)
        invariant result == Summaries(Pass(db, Interval(finest), Interval(res), begin, b), c)
        decreases end - b
      {
        var tileEnd := b + Interval(tile);
        if tileEnd > end { tileEnd := end; }
        var s := QueryPrices(reliable, db, c, tile, res, b, tileEnd);
        if s.Err? { return s; }
        PassSplit(db, Interval(finest), Interval(res), begin, b, tileEnd);
        SummariesJoin(Pass(db, Interval(finest), Interval(res), begin, b),
                      Pass(db, Interval(finest), Interval(res), b, tileEnd), c);
        SumOfMultiples(b - begin, Interval(tile), Interval(finest));
        result := result + s.value;
        b := tileEnd;
      }
      return Ok(result);
    }
    if tile == finest {
      PassOfOne(db, Interval(finest), Interval(res), begin, end);
      r := QueryTile(reliable, db, c, res, begin, end);
    } else {
      CoarserIndex(tile + 1, finest);
      r := QueryPrices(reliable, db, c, tile + 1, res, begin, end);
    }
  }

  lemma CoarserIndex(a: resolution, b: resolution)
    ensures FinerThan(a, b) <==> a > b
  {
    hide Interval;
    if a <= b { NestedAll(a, b); } else { NestedAll(b, a); }
  }

  lemma StartPass(db: seq<Trade>, tile: int, interval: int, begin: int, c: Currency)
    requires tile > 0 && interval > 0
    ensures Summaries(Pass(db, tile, interval, begin, begin), c) == []
  {
  }

  lemma SumOfMultiples(x: int, y: int, z: int)
    requires z > 0 && x % z == 0 && y % z == 0
    ensures (x + y) % z == 0
  {
    var k, l := x / z, y / z;
    assert x + y == (k + l) * z;
    MultipleMod(k + l, z);
  }

  /** The tile size a request starts with. */
  function StartTile(period: resolution, res: resolution): resolution {
    var coarsest := CoarsestTile(res);
    var tile := if FinerThan(period, coarsest) then period else coarsest;
    if FinerThan(tile, FinestTile(res)) then FinestTile(res) else tile
  }

  /** A request never starts with too fine a tile, so it never panics. */
  lemma StartTileSuffices(period: resolution, res: resolution)
    ensures !FinerThan(StartTile(period, res), FinestTile(res))
  {
    hide Interval;
  }

  // ---------------------------------------------------------------- every trade counted once

  /** All trades of all slots, in order. */
  function Counted(gs: seq<Group>): seq<Trade> {
    if gs == [] then [] else gs[0].trades + Counted(gs[1..])
  }

  lemma {:induction false} CountedJoin(gs: seq<Group>, hs: seq<Group>)
    ensures Counted(gs + hs) == Counted(gs) + Counted(hs)
  {
    if gs == [] {
      assert gs + hs == hs;
    } else {
      assert (gs + hs)[1..] == gs[1..] + hs;
      CountedJoin(gs[1..], hs);
    }
  }

  lemma NoneCounted()
    ensures Counted([]) == []
  {
  }

  lemma CountedFirst(g: Group, gs: seq<Group>)
    ensures Counted([g] + gs) == g.trades + Counted(gs)
  {
    assert ([g] + gs)[1..] == gs;
  }

  /** The slots of a tile, one slot further. */
  lemma SlotsStep(begin: int, interval: int, trades: seq<Trade>, n: nat)
    requires interval > 0 && trades != [] && n == Fitting(trades, begin + interval)
    ensures Slots(begin, interval, trades) ==
      if n == 0 then Slots(begin + interval, interval, trades)
      else [Group(begin, begin + interval, trades[..n])] + Slots(begin + interval, interval, trades[n..])
    ensures n == 0 ==> trades[0].matched > begin + interval
    ensures n < |trades| ==> trades[n].matched > begin + interval
    ensures forall i :: 0 <= i < n ==> trades[i].matched <= begin + interval
  {
  }

  lemma {:induction false} SlotsCount(begin: int, interval: int, trades: seq<Trade>)
    requires interval > 0
    ensures Counted(Slots(begin, interval, trades)) == trades
    decreases |trades|, if trades == [] then 0 else trades[0].matched - begin
  {
    hide Counted, Slots, Fitting;
    if trades == [] {
      NoSlots(begin, interval);
      NoneCounted();
    } else {
      var n := Fitting(trades, begin + interval);
      SlotsStep(begin, interval, trades, n);
      if n == 0 {
        SlotsCount(begin + interval, interval, trades);
      } else {
        SlotsCount(begin + interval, interval, trades[n..]);
        CountedFirst(Group(begin, begin + interval, trades[..n]), Slots(begin + interval, interval, trades[n..]));
        assert trades[..n] + trades[n..] == trades;
      }
    }
  }

  /** No tile of the pass holds more trades than one query returns. */
  predicate RowsFit(db: seq<Trade>, tile: int, begin: int, end: int)
    requires tile > 0
    decreases end - begin
  {
    begin >= end ||
    var tileEnd := if begin + tile > end then end else begin + tile;
    |Select(db, begin, tileEnd)| <= LIMIT && RowsFit(db, tile, tileEnd, end)
  }

  lemma {:induction false} SelectSplit(db: seq<Trade>, begin: int, middle: int, end: int)
    requires Sorted(db) && begin <= middle <= end
    ensures Select(db, begin, end) == Select(db, begin, middle) + Select(db, middle, end)
  {
    hide Sorted, Select;
    if db == [] {
      SelectNone(begin, end);
      SelectNone(begin, middle);
      SelectNone(middle, end);
    } else {
      SortedTail(db);
      SelectSplit(db[1..], begin, middle, end);
      var x, a, b := db[0], Select(db[1..], begin, middle), Select(db[1..], middle, end);
      SelectFirst(db, begin, end);
      SelectFirst(db, begin, middle);
      SelectFirst(db, middle, end);
      if middle <= x.matched {
        NoneBefore(db[1..], begin, middle);
        assert [] + [x] + b == [x] + ([] + b);
      } else {
        assert ([x] + a) + b == [x] + (a + b);
      }
    }
  }

  lemma SelectNone(begin: int, end: int)
    ensures Select([], begin, end) == []
  {
  }

  lemma SelectFirst(db: seq<Trade>, begin: int, end: int)
    requires db != []
    ensures begin <= db[0].matched < end ==> Select(db, begin, end) == [db[0]] + Select(db[1..], begin, end)
    ensures !(begin <= db[0].matched < end) ==> Select(db, begin, end) == Select(db[1..], begin, end)
  {
    assert [] + Select(db[1..], begin, end) == Select(db[1..], begin, end);
  }

  lemma {:induction false} NoneBefore(db: seq<Trade>, begin: int, end: int)
    requires forall t :: t in db ==> end <= t.matched
    ensures Select(db, begin, end) == []
  {
    if db != [] { NoneBefore(db[1..], begin, end); }
  }

  /** Every trade of the interval is counted in exactly one slot. */
  lemma {:induction false} EveryTradeOnce(db: seq<Trade>, tile: int, interval: int, begin: int, end: int)
    requires Sorted(db) && tile > 0 && interval > 0 && RowsFit(db, tile, begin, end)
    ensures Counted(Pass(db, tile, interval, begin, end)) == Select(db, begin, end)
    decreases end - begin
  {
    hide Slots, Select;
    if begin >= end {
      SelectNothing(db, begin, end);
    } else {
      var tileEnd := if begin + tile > end then end else begin + tile;
      EveryTradeOnce(db, tile, interval, tileEnd, end);
      SelectSplit(db, begin, tileEnd, end);
      SlotsCount(begin, interval, Select(db, begin, tileEnd));
      CountedJoin(Slots(begin, interval, Limited(Select(db, begin, tileEnd))), Pass(db, tile, interval, tileEnd, end));
    }
  }

  // ---------------------------------------------------------------- slots are ordered and disjoint

  /** A slot of the right width, aligned with `origin`, whose trades lie within its bounds. */
  ghost predicate WellPlaced(g: Group, interval: int, origin: int)
    requires interval > 0
  {
    && g.end == g.begin + interval && (g.begin - origin) % interval == 0
    && g.trades != []
    && (forall t :: t in g.trades ==> g.begin <= t.matched <= g.end)
  }

  ghost predicate InOrder(gs: seq<Group>) {
    forall i, j :: 0 <= i < j < |gs| ==> gs[i].end <= gs[j].begin
  }

  lemma {:induction false} SlotsPlaced(begin: int, interval: int, trades: seq<Trade>)
    requires interval > 0 && Sorted(trades) && forall t :: t in trades ==> begin <= t.matched
    ensures forall g :: g in Slots(begin, interval, trades) ==> WellPlaced(g, interval, begin) && begin <= g.begin
    ensures InOrder(Slots(begin, interval, trades))
    decreases |trades|, if trades == [] then 0 else trades[0].matched - begin
  {
    hide WellPlaced, Slots, Fitting, Sorted, InOrder;
    if trades == [] {
      NoSlots(begin, interval);
      NoneInOrder();
    } else {
      var n := Fitting(trades, begin + interval);
      SlotsStep(begin, interval, trades, n);
      assert trades[0..] == trades;
      LaterTrades(trades, n, begin + interval);
      SlotsPlaced(begin + interval, interval, trades[n..]);
      var rest := Slots(begin + interval, interval, trades[n..]);
      forall g | g in rest ensures WellPlaced(g, interval, begin) && begin <= g.begin {
        Realigned(g, interval, begin);
      }
      if n > 0 {
        FirstSlot(begin, interval, trades, n);
        FirstInOrder(Group(begin, begin + interval, trades[..n]), rest);
      }
    }
  }

  lemma NoneInOrder()
    ensures InOrder([])
  {
  }

  lemma FirstInOrder(g: Group, rest: seq<Group>)
    requires InOrder(rest) && forall h :: h in rest ==> g.end <= h.begin
    ensures InOrder([g] + rest)
  {
    assert forall i :: 0 <= i < |rest| ==> rest[i] in rest;
  }

  lemma LaterTrades(trades: seq<Trade>, n: nat, end: int)
    requires Sorted(trades) && n <= |trades| && (n < |trades| ==> trades[n].matched > end)
    ensures Sorted(trades[n..]) && forall t :: t in trades[n..] ==> end <= t.matched
  {
  }

  lemma Realigned(g: Group, interval: int, begin: int)
    requires interval > 0 && WellPlaced(g, interval, begin + interval)
    ensures WellPlaced(g, interval, begin)
  {
    SumOfMultiples(g.begin - (begin + interval), interval, interval);
  }

  lemma FirstSlot(begin: int, interval: int, trades: seq<Trade>, n: nat)
    requires interval > 0 && 0 < n <= |trades| && (forall t :: t in trades ==> begin <= t.matched)
    requires forall i :: 0 <= i < n ==> trades[i].matched <= begin + interval
    ensures WellPlaced(Group(begin, begin + interval, trades[..n]), interval, begin)
  {
  }

  /** A slot that holds a trade before the end of its tile ends with the tile or before. */
  lemma SlotWithinTile(g: Group, interval: int, begin: int, tileEnd: int)
    requires interval > 0 && WellPlaced(g, interval, begin) && (tileEnd - begin) % interval == 0
    requires forall t :: t in g.trades ==> t.matched < tileEnd
    ensures g.end <= tileEnd
  {
    assert g.trades[0] in g.trades;
    DifferenceOfMultiples(tileEnd - begin, g.begin - begin, interval);
  }

  lemma DifferenceOfMultiples(x: int, y: int, z: int)
    requires z > 0 && x % z == 0 && y % z == 0 && x > y
    ensures x >= y + z
  {
    var k, l := x / z, y / z;
    assert (k - l) * z == x - y;
    MultipleMod(k - l, z);
  }

  lemma {:induction false} SlotTrades(begin: int, interval: int, trades: seq<Trade>)
    requires interval > 0
    ensures forall g :: g in Slots(begin, interval, trades) ==> forall t :: t in g.trades ==> t in trades
    decreases |trades|, if trades == [] then 0 else trades[0].matched - begin
  {
    if trades != [] {
      var n := Fitting(trades, begin + interval);
      SlotTrades(begin + interval, interval, trades[n..]);
    }
  }

  /** The rows of a query are sorted and lie within its bounds. */
  lemma {:induction false} SelectSorted(db: seq<Trade>, begin: int, end: int)
    requires Sorted(db)
    ensures Sorted(Select(db, begin, end)) && Sorted(Limited(Select(db, begin, end)))
    ensures forall t :: t in Limited(Select(db, begin, end)) ==> begin <= t.matched < end
  {
    hide Select, Sorted;
    SelectedFromDb(db, begin, end);
    SelectionSorted(db, begin, end);
    PrefixSorted(Select(db, begin, end));
  }

  lemma PrefixSorted(rows: seq<Trade>)
    requires Sorted(rows)
    ensures Sorted(Limited(rows)) && forall t :: t in Limited(rows) ==> t in rows
  {
  }

  lemma SortedCons(t: Trade, rows: seq<Trade>)
    requires Sorted(rows) && forall u :: u in rows ==> t.matched <= u.matched
    ensures Sorted([t] + rows)
  {
    assert forall i :: 0 <= i < |rows| ==> rows[i] in rows;
  }

  lemma SortedTail(db: seq<Trade>)
    requires Sorted(db) && db != []
    ensures Sorted(db[1..]) && forall u :: u in db[1..] ==> db[0].matched <= u.matched
  {
  }

  lemma {:induction false} SelectionSorted(db: seq<Trade>, begin: int, end: int)
    requires Sorted(db)
    ensures Sorted(Select(db, begin, end))
  {
    if db != [] {
      hide Sorted;
      SortedTail(db);
      SelectionSorted(db[1..], begin, end);
      SelectedFromDb(db[1..], begin, end);
      SortedCons(db[0], Select(db[1..], begin, end));
      assert [] + Select(db[1..], begin, end) == Select(db[1..], begin, end);
    }
  }

  /** The slots of a whole request come in order, disjoint up to their end points, are aligned
      with its beginning, are not empty, and hold only trades of their own time: after their
      beginning, or at it if a tile begins there, up to and including their end. */
  lemma {:induction false} SlotsInOrder(db: seq<Trade>, tile: int, interval: int, begin: int, end: int)
    requires Sorted(db) && tile > 0 && interval > 0 && tile % interval == 0
    ensures forall g :: g in Pass(db, tile, interval, begin, end) ==> WellPlaced(g, interval, begin) && begin <= g.begin
    ensures forall g, t :: g in Pass(db, tile, interval, begin, end) && t in g.trades ==> Counts(g, t, begin, tile)
    ensures InOrder(Pass(db, tile, interval, begin, end))
    decreases end - begin
  {
    hide WellPlaced, Slots, Select, Limited, Counts;
    TradesCounted(db, tile, interval, begin, end);
    if begin < end {
      var tileEnd := if begin + tile > end then end else begin + tile;
      var rows := Limited(Select(db, begin, tileEnd));
      SelectSorted(db, begin, tileEnd);
      SlotsPlaced(begin, interval, rows);
      if tileEnd < end {
        SlotsInOrder(db, tile, interval, tileEnd, end);
        forall g | g in Slots(begin, interval, rows) ensures g.end <= tileEnd {
          SlotTrades(begin, interval, rows);
          SlotWithinTile(g, interval, begin, tileEnd);
        }
        forall g | g in Pass(db, tile, interval, tileEnd, end) ensures WellPlaced(g, interval, begin) {
          Shifted(g, interval, begin, tile);
        }
      }
    }
  }

  lemma Shifted(g: Group, interval: int, begin: int, tile: int)
    requires interval > 0 && WellPlaced(g, interval, begin + tile) && tile % interval == 0
    ensures WellPlaced(g, interval, begin)
  {
    SumOfMultiples(g.begin - (begin + tile), tile, interval);
  }

  // ---------------------------------------------------------------- which slot a trade is counted in

  /** Where the slot of a trade begins. At the beginning of a tile that is the trade's own time;
      otherwise slots contain their end but not their beginning. */
  function SlotBegin(begin: int, tile: int, interval: int, matched: int): int
    requires tile > 0 && interval > 0
  {
    if (matched - begin) % tile == 0 then matched
    else begin + ((matched - begin - 1) / interval) * interval
  }

  /** Within one tile only a trade at its beginning is counted in the slot that begins with it. */
  ghost predicate InSlot(g: Group, tileBegin: int) {
    forall t :: t in g.trades ==>
      if t.matched == tileBegin then g.begin == tileBegin else g.begin < t.matched <= g.end
  }

  lemma {:induction false} TileSlots(begin: int, interval: int, trades: seq<Trade>)
    requires interval > 0 && Sorted(trades) && forall t :: t in trades ==> begin <= t.matched
    ensures forall g :: g in Slots(begin, interval, trades) ==> InSlot(g, begin)
    decreases |trades|, if trades == [] then 0 else trades[0].matched - begin
  {
    hide Slots, Fitting, Sorted, InSlot;
    if trades == [] {
      NoSlots(begin, interval);
    } else {
      var n := Fitting(trades, begin + interval);
      SlotsStep(begin, interval, trades, n);
      assert trades[0..] == trades;
      StrictlyLater(trades, n, begin + interval);
      TileSlots(begin + interval, interval, trades[n..]);
      SlotTrades(begin + interval, interval, trades[n..]);
      forall g | g in Slots(begin + interval, interval, trades[n..]) ensures InSlot(g, begin) {
        InLaterSlot(g, begin, begin + interval);
      }
      if n > 0 { InFirstSlot(begin, interval, trades, n); }
    }
  }

  lemma StrictlyLater(trades: seq<Trade>, n: nat, end: int)
    requires Sorted(trades) && n <= |trades| && (n < |trades| ==> trades[n].matched > end)
    ensures Sorted(trades[n..]) && forall t :: t in trades[n..] ==> end < t.matched
  {
  }

  lemma InLaterSlot(g: Group, begin: int, later: int)
    requires InSlot(g, later) && begin < later && forall t :: t in g.trades ==> later < t.matched
    ensures InSlot(g, begin)
  {
  }

  lemma InFirstSlot(begin: int, interval: int, trades: seq<Trade>, n: nat)
    requires n <= |trades| && (forall t :: t in trades ==> begin <= t.matched)
    requires forall i :: 0 <= i < n ==> trades[i].matched <= begin + interval
    ensures InSlot(Group(begin, begin + interval, trades[..n]), begin)
  {
  }

  /** The same for all tiles of a request. */
  ghost predicate Counts(g: Group, t: Trade, begin: int, tile: int)
    requires tile > 0
  {
    if (t.matched - begin) % tile == 0 then g.begin == t.matched else g.begin < t.matched <= g.end
  }

  lemma OfThisTile(g: Group, t: Trade, begin: int, tile: int)
    requires tile > 0 && InSlot(g, begin) && t in g.trades && begin <= t.matched < begin + tile
    ensures Counts(g, t, begin, tile)
  {
    var d := t.matched - begin;
    assert d % tile == d;
  }

  lemma OfLaterTile(g: Group, t: Trade, begin: int, tile: int)
    requires tile > 0 && Counts(g, t, begin + tile, tile)
    ensures Counts(g, t, begin, tile)
  {
    SameRemainder(t.matched - begin, tile);
  }

  lemma SameRemainder(x: int, z: int)
    requires z > 0
    ensures (x - z) % z == 0 <==> x % z == 0
  {
    if x % z == 0 { SumOfMultiples(x, 0 - z, z); }
    if (x - z) % z == 0 { SumOfMultiples(x - z, z, z); }
  }

  lemma {:induction false} TradesCounted(db: seq<Trade>, tile: int, interval: int, begin: int, end: int)
    requires Sorted(db) && tile > 0 && interval > 0
    ensures forall g, t :: g in Pass(db, tile, interval, begin, end) && t in g.trades ==> Counts(g, t, begin, tile)
    decreases end - begin
  {
    hide Slots, Select, Limited, Counts, InSlot, Sorted;
    if begin < end {
      var tileEnd := if begin + tile > end then end else begin + tile;
      var rows := Limited(Select(db, begin, tileEnd));
      SelectSorted(db, begin, tileEnd);
      TileSlots(begin, interval, rows);
      SlotTrades(begin, interval, rows);
      forall g, t | g in Slots(begin, interval, rows) && t in g.trades ensures Counts(g, t, begin, tile) {
        OfThisTile(g, t, begin, tile);
      }
      if tileEnd < end {
        TradesCounted(db, tile, interval, tileEnd, end);
        forall g, t | g in Pass(db, tile, interval, tileEnd, end) && t in g.trades ensures Counts(g, t, begin, tile) {
          OfLaterTile(g, t, begin, tile);
        }
      }
    }
  }

  /** The slot a trade is counted in is determined by its time. In particular a trade on the
      boundary of two slots is counted in the earlier one unless a tile begins there. */
  lemma SlotOfTrade(db: seq<Trade>, tile: int, interval: int, begin: int, end: int, g: Group, t: Trade)
    requires Sorted(db) && tile > 0 && interval > 0 && tile % interval == 0
    requires g in Pass(db, tile, interval, begin, end) && t in g.trades
    ensures g.begin == SlotBegin(begin, tile, interval, t.matched)
    ensures t.matched == g.begin <==> (t.matched - begin) % tile == 0
    ensures (t.matched - begin) % interval == 0 && (t.matched - begin) % tile != 0 ==> g.end == t.matched
  {
    hide Pass, InOrder, SlotBegin;
    SlotsInOrder(db, tile, interval, begin, end);
    assert WellPlaced(g, interval, begin) && Counts(g, t, begin, tile);
    SlotIsDetermined(begin, tile, interval, t.matched, g.begin);
  }

  lemma SlotIsDetermined(begin: int, tile: int, interval: int, matched: int, slot: int)
    requires tile > 0 && interval > 0 && (slot - begin) % interval == 0
    requires if (matched - begin) % tile == 0 then slot == matched else slot < matched <= slot + interval
    ensures slot == SlotBegin(begin, tile, interval, matched)
    ensures (matched - begin) % interval == 0 && (matched - begin) % tile != 0 ==> matched == slot + interval
  {
    var k := (slot - begin) / interval;
    assert slot - begin == k * interval;
    if (matched - begin) % tile != 0 {
      QuotientOf(matched - begin - 1, interval, k);
      if (matched - begin) % interval == 0 {
        DifferenceOfMultiples(matched - begin, slot - begin, interval);
      }
    }
  }

  lemma QuotientOf(x: int, z: int, k: int)
    requires z > 0 && k * z <= x < k * z + z
    ensures x / z == k
  {
    var d := x / z - k;
    assert d * z == x - x % z - k * z;
    assert d >= 1 ==> d * z >= z;
    assert d <= -1 ==> d * z <= 0 - z;
  }

  /** Two trades on a boundary: the one after a second is counted in the first slot, the one
      after half a minute, where a tile begins, in the slot that begins with it. */
  lemma BoundaryTrades(p: Money)
    ensures
      var early, late := Trade(Interval(10), p), Trade(Interval(8), p);
      Pass([early, late], Interval(8), Interval(10), 0, 2 * Interval(8)) ==
        [Group(0, Interval(10), [early]), Group(Interval(8), Interval(8) + Interval(10), [late])]
  {
    assert 0 < Interval(10) < Interval(8);
    hide Interval;
    TwoTiles(Interval(8), Interval(10), Trade(Interval(10), p), Trade(Interval(8), p));
  }

  lemma TwoTiles(tile: int, interval: int, early: Trade, late: Trade)
    requires 0 < interval < tile && early.matched == interval && late.matched == tile
    ensures Pass([early, late], tile, interval, 0, 2 * tile) ==
            [Group(0, interval, [early]), Group(tile, tile + interval, [late])]
  {
    hide Select, Slots;
    var db := [early, late];
    assert db[1..] == [late] && [late][1..] == [];
    OneSlot(0, interval, early);
    OneSlot(tile, interval, late);
    SelectNone(0, tile);
    SelectNone(tile, 2 * tile);
    SelectFirst([late], 0, tile);
    SelectFirst([late], tile, 2 * tile);
    SelectFirst(db, 0, tile);
    SelectFirst(db, tile, 2 * tile);
    assert [early] + [] == [early] && [late] + [] == [late];
    assert Select(db, 0, tile) == [early] && Select(db, tile, 2 * tile) == [late];
    PassOfOne(db, tile, interval, tile, 2 * tile);
    assert Pass(db, tile, interval, 0, 2 * tile) ==
           Slots(0, interval, [early]) + Pass(db, tile, interval, tile, 2 * tile);
  }

  lemma OneSlot(begin: int, interval: int, t: Trade)
    requires interval > 0 && begin <= t.matched <= begin + interval
    ensures Slots(begin, interval, [t]) == [Group(begin, begin + interval, [t])]
  {
    assert [t] + [] == [t];
    SlotFlush(begin, interval, [t], []);
    NoSlots(begin + interval, interval);
  }
}
