/** Cutting an image into tiles of bounded size. */
module Tiling {

  function Ceil(a: nat, b: nat): (q: nat)
    requires b > 0
    ensures q * b >= a && (a > 0 ==> q > 0 && (q - 1) * b < a)
  {
    CeilFacts(a, b);
    (a + b - 1) / b
  }

  lemma Divide(x: int, b: int)
    requires b > 0
    ensures x == (x / b) * b + x % b && 0 <= x % b < b
  {
  }

  lemma CeilFacts(a: nat, b: nat)
    requires b > 0
    ensures var q := (a + b - 1) / b; q >= 0 && q * b >= a && (a > 0 ==> q > 0 && (q - 1) * b < a)
  {
    var q := (a + b - 1) / b;
    Divide(a + b - 1, b);
    assert (q - 1) * b == q * b - b;
  }

  /** A quotient is rounded up to `q` exactly if q parts suffice and q - 1 do not. */
  lemma CeilAtMost(a: nat, b: nat, q: nat)
    requires b > 0 && q * b >= a
    ensures Ceil(a, b) <= q
  {
    var c := Ceil(a, b);
    assert c - 1 >= q ==> (c - 1) * b >= q * b;
  }

  /** More parts make none of them larger. */
  lemma CeilMonotone(a: nat, b: nat, b': nat)
    requires 0 < b <= b'
    ensures Ceil(a, b') <= Ceil(a, b)
  {
    assert Ceil(a, b) * b' >= Ceil(a, b) * b;
    CeilAtMost(a, b', Ceil(a, b));
  }

  /** The largest integer whose square is at most `c`. */
  function Root(c: nat): (l: nat)
    ensures l * l <= c < (l + 1) * (l + 1)
  {
    if c == 0 then 0 else
    var l := Root(c - 1);
    if (l + 1) * (l + 1) <= c then (RootStep(l); l + 1) else l
  }

  lemma RootStep(l: nat)
    ensures (l + 2) * (l + 2) > (l + 1) * (l + 1) + 1
  {
  }

  datatype Tiling = Tiling(u: int, v: int)

  predicate IsFeasible(w: nat, h: nat, c: nat, t: Tiling) {
    t.u > 0 && t.v > 0 && Ceil(w, t.u) * Ceil(h, t.v) <= c
  }

  lemma ProductMonotone(a: nat, b: nat, a': nat, b': nat)
    requires a <= a' && b <= b'
    ensures a * b <= a' * b'
  {
    assert a * b <= a * b' <= a' * b';
  }

  /** Cutting more finely keeps a tiling feasible. */
  lemma FeasibleUpward(w: nat, h: nat, c: nat, t: Tiling, t': Tiling)
    requires IsFeasible(w, h, c, t) && t.u <= t'.u && t.v <= t'.v
    ensures IsFeasible(w, h, c, t')
  {
    CeilMonotone(w, t.u, t'.u);
    CeilMonotone(h, t.v, t'.v);
    ProductMonotone(Ceil(w, t'.u), Ceil(h, t'.v), Ceil(w, t.u), Ceil(h, t.v));
  }

  /** Starting from tiles of at most the root of the allowed area in both directions. */
  function Initial(w: nat, h: nat, c: nat): Tiling
    requires c >= 1
  {
    var l := Root(c);
    Tiling(Ceil(w, l), Ceil(h, l))
  }

  lemma InitialFeasible(w: nat, h: nat, c: nat)
    requires w >= 1 && h >= 1 && c >= 1
    ensures IsFeasible(w, h, c, Initial(w, h, c))
  {
    var l := Root(c);
    var u, v := Ceil(w, l), Ceil(h, l);
    CeilAtMost(w, u, l);
    CeilAtMost(h, v, l);
    ProductMonotone(Ceil(w, u), Ceil(h, v), l, l);
  }

  /** The candidates next to a tiling: first the one that saves the longer edges. */
  function Walk(w: nat, h: nat, t: Tiling): seq<Tiling> {
    if h > w then [Tiling(t.u - 1, t.v), Tiling(t.u, t.v - 1)]
    else [Tiling(t.u, t.v - 1), Tiling(t.u - 1, t.v)]
  }

  predicate LocallyMinimal(w: nat, h: nat, c: nat, t: Tiling) {
    && IsFeasible(w, h, c, t)
    && !IsFeasible(w, h, c, Tiling(t.u - 1, t.v))
    && !IsFeasible(w, h, c, Tiling(t.u, t.v - 1))
  }

  /** Always moving to the first feasible candidate. */
  function Greedy(w: nat, h: nat, c: nat, t: Tiling): (r: Tiling)
    requires IsFeasible(w, h, c, t)
    decreases t.u + t.v
    ensures LocallyMinimal(w, h, c, r) && r.u <= t.u && r.v <= t.v
  {
    var candidates := Walk(w, h, t);
    if IsFeasible(w, h, c, candidates[0]) then Greedy(w, h, c, candidates[0])
    else if IsFeasible(w, h, c, candidates[1]) then Greedy(w, h, c, candidates[1])
    else t
  }

  /** Never raises, and ends where no candidate is feasible any more. */
  method OptimalTiling(w: nat, h: nat, c: nat) returns (uv: Tiling)
    requires w >= 1 && h >= 1 && c >= 1
    ensures uv == Greedy(w, h, c, (InitialFeasible(w, h, c); Initial(w, h, c)))
    ensures LocallyMinimal(w, h, c, uv)
  {
    InitialFeasible(w, h, c);
    var l := Root(c);
    uv := Tiling(Ceil(w, l), Ceil(h, l));
    var found := true;
    while found
      invariant IsFeasible(w, h, c, uv)
      invariant Greedy(w, h, c, uv) == Greedy(w, h, c, Initial(w, h, c))
      invariant !found ==> uv == Greedy(w, h, c, uv)
      decreases uv.u + uv.v, if found then 1 else 0
    {
      found := false;
      var candidates := Walk(w, h, uv);
      var i := 0;
      while i < |candidates|
        invariant 0 <= i <= |candidates| && !found
        invariant forall j :: 0 <= j < i ==> !IsFeasible(w, h, c, candidates[j])
      {
        if IsFeasible(w, h, c, candidates[i]) {
          found := true;
          uv := candidates[i];
          break;
        }
        i := i + 1;
      }
    }
  }

  /** No other feasible tiling has at most as many columns and at most as many rows. */
  lemma NothingBelow(w: nat, h: nat, c: nat, t: Tiling, t': Tiling)
    requires LocallyMinimal(w, h, c, t) && t' != t && t'.u <= t.u && t'.v <= t.v
    ensures !IsFeasible(w, h, c, t')
  {
    if IsFeasible(w, h, c, t') {
      if t'.u < t.u {
        FeasibleUpward(w, h, c, t', Tiling(t.u - 1, t.v));
      } else {
        FeasibleUpward(w, h, c, t', Tiling(t.u, t.v - 1));
      }
    }
  }

  /** No direction is cut into more parts than it has pixels. */
  lemma NotMoreThanPixels(w: nat, h: nat, c: nat, t: Tiling)
    requires w >= 1 && h >= 1 && LocallyMinimal(w, h, c, t)
    ensures t.u <= w && t.v <= h
  {
    if t.u > w {
      CeilAtMost(w, t.u - 1, 1);
      ProductMonotone(Ceil(w, t.u - 1), Ceil(h, t.v), Ceil(w, t.u), Ceil(h, t.v));
    }
    if t.v > h {
      CeilAtMost(h, t.v - 1, 1);
      ProductMonotone(Ceil(w, t.u), Ceil(h, t.v - 1), Ceil(w, t.u), Ceil(h, t.v));
    }
  }

  // ---------------------------------------------------------------- the tiles

  datatype Tile = Tile(minx: int, miny: int, resx: int, resy: int)

  predicate Contains(t: Tile, x: int, y: int) {
    t.minx <= x < t.minx + t.resx && t.miny <= y < t.miny + t.resy
  }

  /** Where part `i` of `n` begins. */
  function Cut(a: nat, n: nat, i: nat): (r: int)
    requires n > 0
  {
    (a * i) / n
  }

  lemma DivideUnique(x: int, b: int, q: int, r: int)
    requires b > 0 && x == q * b + r && 0 <= r < b
    ensures x / b == q && x % b == r
  {
    var k := q - x / b;
    Divide(x, b);
    assert k * b == x % b - r;
    assert k >= 1 ==> k * b >= b;
    assert k <= -1 ==> k * b <= 0 - b;
  }

  /** Each part is as large as the quotient, rounded down or up. */
  lemma PartSize(a: nat, n: nat, i: nat)
    requires n > 0
    ensures a / n <= Cut(a, n, i + 1) - Cut(a, n, i) <= Ceil(a, n)
    ensures Cut(a, n, 0) == 0 && Cut(a, n, n) == a
  {
    hide Ceil;
    var s, t := a / n, a % n;
    var q, r := (a * i) / n, (a * i) % n;
    Divide(a, n);
    Divide(a * i, n);
    CeilAtLeast(a, n, s, t);
    assert a * (i + 1) == a * i + a == (q + s) * n + (r + t);
    if r + t < n {
      DivideUnique(a * (i + 1), n, q + s, r + t);
    } else {
      assert (q + s) * n + (r + t) == (q + s + 1) * n + (r + t - n);
      DivideUnique(a * (i + 1), n, q + s + 1, r + t - n);
    }
    DivideUnique(a * n, n, a, 0);
    DivideUnique(a * 0, n, 0, 0);
  }

  lemma CeilAtLeast(a: nat, n: nat, s: int, t: int)
    requires n > 0 && a == s * n + t && 0 <= t < n
    ensures s <= Ceil(a, n) && (t > 0 ==> s + 1 <= Ceil(a, n))
  {
    var c := Ceil(a, n);
    assert c <= s - 1 ==> c * n <= (s - 1) * n;
    assert c <= s ==> c * n <= s * n;
  }

  lemma PartNotEmpty(a: nat, n: nat, i: nat)
    requires 0 < n <= a
    ensures Cut(a, n, i + 1) - Cut(a, n, i) >= 1
  {
    PartSize(a, n, i);
    Divide(a, n);
    var s := a / n;
    assert s <= 0 ==> s * n <= 0;
  }

  lemma {:induction false} CutMonotone(a: nat, n: nat, i: nat, j: nat)
    requires n > 0 && i <= j
    ensures Cut(a, n, i) <= Cut(a, n, j)
    decreases j - i
  {
    hide Cut;
    if i < j {
      CutMonotone(a, n, i, j - 1);
      PartSize(a, n, j - 1);
      Divide(a, n);
      NotNegative(a, n);
    }
  }

  lemma NotNegative(a: nat, n: nat)
    requires n > 0
    ensures a / n >= 0
  {
  }

  function TileAt(w: nat, h: nat, t: Tiling, u: nat, v: nat): Tile
    requires t.u > 0 && t.v > 0
  {
    Tile(Cut(w, t.u, u), Cut(h, t.v, v),
         Cut(w, t.u, u + 1) - Cut(w, t.u, u), Cut(h, t.v, v + 1) - Cut(h, t.v, v))
  }

  /** The first `n` tiles of a row. */
  function Row(w: nat, h: nat, t: Tiling, v: nat, n: nat): seq<Tile>
    requires t.u > 0 && t.v > 0
  {
    if n == 0 then [] else Row(w, h, t, v, n - 1) + [TileAt(w, h, t, n - 1, v)]
  }

  /** The first `m` rows of tiles. */
  function Rows(w: nat, h: nat, t: Tiling, m: nat): seq<Tile>
    requires t.u > 0 && t.v > 0
  {
    if m == 0 then [] else Rows(w, h, t, m - 1) + Row(w, h, t, m - 1, t.u)
  }

  /** The tiles of an image, row by row: every pixel lies in exactly one, and all are proper. */
  method MakeTiles(resx: nat, resy: nat, maxPixels: nat) returns (result: seq<Tile>)
    requires resx >= 1 && resy >= 1 && maxPixels >= 1
    ensures exists t :: LocallyMinimal(resx, resy, maxPixels, t) && t.u > 0 && t.v > 0 && result == Rows(resx, resy, t, t.v)
    ensures forall x, y :: 0 <= x < resx && 0 <= y < resy ==> Covering(result, x, y) == 1
    ensures forall tile :: tile in result ==> Proper(resx, resy, maxPixels, tile)
  {
    hide LocallyMinimal, Rows, Row, Covering, Proper, Cut, TileAt, Contains;
    var t := OptimalTiling(resx, resy, maxPixels);
    RowsStart(resx, resy, t);
    Positive(resx, resy, maxPixels, t);
    result := [];
    for v := 0 to t.v
      invariant result == Rows(resx, resy, t, v)
    {
      var ymin := (resy * v) / t.v;
      var ymax := (resy * (v + 1)) / t.v;
      RowStart(resx, resy, t, v);
      assert result + [] == result;
      for u := 0 to t.u
        invariant result == Rows(resx, resy, t, v) + Row(resx, resy, t, v, u)
      {
        var xmin := (resx * u) / t.u;
        var xmax := (resx * (u + 1)) / t.u;
        NextTile(resx, resy, t, u, v);
        result := result + [Tile(xmin, ymin, xmax - xmin, ymax - ymin)];
      }
    }
    forall x, y | 0 <= x < resx && 0 <= y < resy ensures Covering(result, x, y) == 1 {
      EveryPixelOnce(resx, resy, t, x, y);
    }
    TilesProper(resx, resy, maxPixels, t, t.v);
  }

  lemma RowsStart(w: nat, h: nat, t: Tiling)
    ensures t.u > 0 && t.v > 0 ==> Rows(w, h, t, 0) == []
  {
  }

  lemma RowStart(w: nat, h: nat, t: Tiling, v: nat)
    requires t.u > 0 && t.v > 0
    ensures Row(w, h, t, v, 0) == []
    ensures Rows(w, h, t, v + 1) == Rows(w, h, t, v) + Row(w, h, t, v, t.u)
  {
    hide Row;
    EmptyRow(w, h, t, v);
  }

  lemma EmptyRow(w: nat, h: nat, t: Tiling, v: nat)
    requires t.u > 0 && t.v > 0
    ensures Row(w, h, t, v, 0) == []
  {
  }

  /** The next tile of a row, spelled out. */
  lemma NextTile(w: nat, h: nat, t: Tiling, u: nat, v: nat)
    requires t.u > 0 && t.v > 0
    ensures Row(w, h, t, v, u + 1) == Row(w, h, t, v, u) +
      [Tile((w * u) / t.u, (h * v) / t.v, (w * (u + 1)) / t.u - (w * u) / t.u, (h * (v + 1)) / t.v - (h * v) / t.v)]
  {
  }

  lemma Positive(w: nat, h: nat, c: nat, t: Tiling)
    requires LocallyMinimal(w, h, c, t)
    ensures t.u > 0 && t.v > 0
  {
  }

  /** How many tiles contain a pixel. */
  function Covering(tiles: seq<Tile>, x: int, y: int): nat {
    if tiles == [] then 0
    else Covering(tiles[..|tiles| - 1], x, y) + if Contains(tiles[|tiles| - 1], x, y) then 1 else 0
  }

  lemma {:induction false} CoveringJoin(a: seq<Tile>, b: seq<Tile>, x: int, y: int)
    ensures Covering(a + b, x, y) == Covering(a, x, y) + Covering(b, x, y)
  {
    if b == [] {
      assert a + b == a;
    } else {
      var n := |b| - 1;
      assert (a + b)[..|a| + n] == a + b[..n];
      CoveringJoin(a, b[..n], x, y);
    }
  }

  lemma {:induction false} RowCovers(w: nat, h: nat, t: Tiling, v: nat, n: nat, x: int, y: int)
    requires t.u > 0 && t.v > 0 && 0 <= x
    ensures Covering(Row(w, h, t, v, n), x, y) ==
      if Cut(h, t.v, v) <= y < Cut(h, t.v, v + 1) && x < Cut(w, t.u, n) then 1 else 0
  {
    hide Cut;
    PartSize(w, t.u, 0);
    if n > 0 {
      RowCovers(w, h, t, v, n - 1, x, y);
      CutMonotone(w, t.u, n - 1, n);
      assert Row(w, h, t, v, n)[..|Row(w, h, t, v, n)| - 1] == Row(w, h, t, v, n - 1);
    }
  }

  lemma {:induction false} RowsCover(w: nat, h: nat, t: Tiling, m: nat, x: int, y: int)
    requires t.u > 0 && t.v > 0 && 0 <= x < w && 0 <= y
    ensures Covering(Rows(w, h, t, m), x, y) == if y < Cut(h, t.v, m) then 1 else 0
  {
    hide Cut, Row, Contains;
    PartSize(h, t.v, 0);
    PartSize(w, t.u, 0);
    if m > 0 {
      RowsCover(w, h, t, m - 1, x, y);
      RowCovers(w, h, t, m - 1, t.u, x, y);
      CoveringJoin(Rows(w, h, t, m - 1), Row(w, h, t, m - 1, t.u), x, y);
      CutMonotone(h, t.v, m - 1, m);
    }
  }

  /** The tiles partition the image: every pixel lies in exactly one of them. */
  lemma EveryPixelOnce(w: nat, h: nat, t: Tiling, x: int, y: int)
    requires t.u > 0 && t.v > 0 && 0 <= x < w && 0 <= y < h
    ensures Covering(Rows(w, h, t, t.v), x, y) == 1
  {
    hide Cut, Rows;
    RowsCover(w, h, t, t.v, x, y);
    PartSize(h, t.v, 0);
  }

  /** A tile that is not empty, not too large, and inside the image. */
  predicate Proper(w: nat, h: nat, c: nat, tile: Tile) {
    && tile.resx >= 1 && tile.resy >= 1 && tile.resx * tile.resy <= c
    && 0 <= tile.minx && tile.minx + tile.resx <= w && 0 <= tile.miny && tile.miny + tile.resy <= h
  }

  lemma TileProper(w: nat, h: nat, c: nat, t: Tiling, u: nat, v: nat)
    requires w >= 1 && h >= 1 && LocallyMinimal(w, h, c, t) && u < t.u && v < t.v
    ensures Proper(w, h, c, TileAt(w, h, t, u, v))
  {
    hide Cut, Ceil;
    NotMoreThanPixels(w, h, c, t);
    PartNotEmpty(w, t.u, u);
    PartNotEmpty(h, t.v, v);
    PartSize(w, t.u, u);
    PartSize(h, t.v, v);
    var tile := TileAt(w, h, t, u, v);
    ProductMonotone(tile.resx, tile.resy, Ceil(w, t.u), Ceil(h, t.v));
    CutMonotone(w, t.u, 0, u);
    CutMonotone(w, t.u, u + 1, t.u);
    CutMonotone(h, t.v, 0, v);
    CutMonotone(h, t.v, v + 1, t.v);
  }

  lemma {:induction false} RowProper(w: nat, h: nat, c: nat, t: Tiling, v: nat, n: nat)
    requires w >= 1 && h >= 1 && LocallyMinimal(w, h, c, t) && n <= t.u && v < t.v
    ensures forall tile :: tile in Row(w, h, t, v, n) ==> Proper(w, h, c, tile)
  {
    hide Proper, LocallyMinimal, TileAt;
    Positive(w, h, c, t);
    if n > 0 {
      RowProper(w, h, c, t, v, n - 1);
      TileProper(w, h, c, t, n - 1, v);
    }
  }

  /** All tiles are proper. */
  lemma {:induction false} TilesProper(w: nat, h: nat, c: nat, t: Tiling, m: nat)
    requires w >= 1 && h >= 1 && LocallyMinimal(w, h, c, t) && m <= t.v
    ensures forall tile :: tile in Rows(w, h, t, m) ==> Proper(w, h, c, tile)
  {
    hide Proper, LocallyMinimal, Row;
    Positive(w, h, c, t);
    if m > 0 {
      TilesProper(w, h, c, t, m - 1);
      RowProper(w, h, c, t, m - 1, t.u);
    }
  }
}
