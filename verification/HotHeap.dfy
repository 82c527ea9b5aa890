/** The in-memory queue of hot bids: a binary heap kept in a growing slice. */
module HotHeap {
  import opened Bids
  import opened OrderBook

  function Parent(i: nat): (p: nat)
    requires i > 0
    ensures p < i
  {
    (i - 1) / 2
  }

  /** What is not hotter than `a` may rest below `a`. */
  predicate Below(b: HotBid, a: HotBid) {
    !HotterThan(b, a)
  }

  ghost predicate OneSided(items: seq<HotBid>, t: BidType) {
    forall i :: 0 <= i < |items| ==> items[i].bidType == t
  }

  /** Every entry rests below its parent, except perhaps the entry at `rising` and those whose
      parent is at `sinking`. */
  ghost predicate HeapExcept(items: seq<HotBid>, rising: int, sinking: int) {
    forall i :: 0 < i < |items| && i != rising && Parent(i) != sinking ==> Below(items[i], items[Parent(i)])
  }

  /** The entries directly under `hole` rest below the one directly over it. */
  ghost predicate Spanned(items: seq<HotBid>, hole: int) {
    forall i :: 0 < i < |items| && Parent(i) == hole && hole > 0 ==> Below(items[i], items[Parent(hole)])
  }

  ghost predicate Heap(items: seq<HotBid>) {
    HeapExcept(items, -1, -1)
  }

  lemma BelowTransitive(a: HotBid, b: HotBid, c: HotBid)
    requires a.bidType == b.bidType == c.bidType
    requires Below(a, b) && Below(b, c)
    ensures Below(a, c)
  {
  }

  /** Of two entries at least one may rest below the other. */
  lemma BelowTotal(a: HotBid, b: HotBid)
    requires a.bidType == b.bidType
    ensures Below(a, b) || Below(b, a)
    ensures HotterThan(a, b) ==> Below(b, a)
  {
  }

  /** The first entry of a heap is the hottest of all. */
  lemma {:induction false} FirstIsHottest(items: seq<HotBid>, t: BidType, i: nat)
    requires Heap(items) && OneSided(items, t) && i < |items|
    ensures Below(items[i], items[0])
    decreases i
  {
    hide HotterThan;
    if i == 0 {
      BelowTotal(items[0], items[0]);
    } else {
      FirstIsHottest(items, t, Parent(i));
      BelowTransitive(items[i], items[Parent(i)], items[0]);
    }
  }

  function Swapped(items: seq<HotBid>, i: nat, j: nat): (r: seq<HotBid>)
    requires i < |items| && j < |items|
    ensures |r| == |items|
  {
    items[i := items[j]][j := items[i]]
  }

  lemma SwappedContents(items: seq<HotBid>, i: nat, j: nat)
    requires i < |items| && j < |items|
    ensures multiset(Swapped(items, i, j)) == multiset(items)
  {
  }

  /** The risen entry moves one level up. */
  lemma Risen(items: seq<HotBid>, t: BidType, j: nat)
    requires 0 < j < |items| && OneSided(items, t)
    requires HeapExcept(items, j, -1) && Spanned(items, j)
    requires HotterThan(items[j], items[Parent(j)])
    ensures OneSided(Swapped(items, Parent(j), j), t)
    ensures HeapExcept(Swapped(items, Parent(j), j), Parent(j), -1) && Spanned(Swapped(items, Parent(j), j), Parent(j))
  {
    hide HotterThan;
    var p := Parent(j);
    var r := Swapped(items, p, j);
    BelowTotal(items[j], items[p]);
    forall i | 0 < i < |r| && i != p ensures Below(r[i], r[Parent(i)]) {
      if i != j && Parent(i) == p { BelowTransitive(items[i], items[p], items[j]); }
    }
    forall i | 0 < i < |r| && Parent(i) == p && p > 0 ensures Below(r[i], r[Parent(p)]) {
      if i != j { BelowTransitive(items[i], items[p], items[Parent(p)]); }
    }
  }

  /** The sunk entry moves one level down, in place of its hottest child `j`. */
  lemma Sunk(items: seq<HotBid>, t: BidType, i: nat, j: nat)
    requires 0 < j < |items| && Parent(j) == i && OneSided(items, t)
    requires HeapExcept(items, -1, i) && Spanned(items, i)
    requires HotterThan(items[j], items[i])
    requires forall k :: 0 < k < |items| && Parent(k) == i ==> Below(items[k], items[j])
    ensures OneSided(Swapped(items, i, j), t)
    ensures HeapExcept(Swapped(items, i, j), -1, j) && Spanned(Swapped(items, i, j), j)
  {
    hide HotterThan;
    var r := Swapped(items, i, j);
    BelowTotal(items[j], items[i]);
    forall k | 0 < k < |r| && Parent(k) != j ensures Below(r[k], r[Parent(k)]) {
    }
    forall k | 0 < k < |r| && Parent(k) == j ensures Below(r[k], r[i]) {
    }
  }

  class HotBidsHeap {
    const side: BidType
    var items: seq<HotBid>

    constructor (t: BidType)
      ensures side == t && items == [] && Valid()
    {
      side, items := t, [];
    }

    ghost predicate Valid() reads this {
      OneSided(items, side) && Heap(items)
    }

    function Len(): int reads this { |items| }

    function Get(i: nat): HotBid
      requires i < |items|
      reads this
    {
      items[i]
    }

    function Less(i: nat, j: nat): bool
      requires i < |items| && j < |items|
      reads this
    {
      HotterThan(items[i], items[j])
    }

    method Swap(i: nat, j: nat)
      requires i < |items| && j < |items|
      modifies this
      ensures items == Swapped(old(items), i, j)
    {
      items := items[i := items[j]][j := items[i]];
    }

    /** Appends the bid and lets it rise to its place. */
    method Push(x: HotBid)
      requires Valid() && x.bidType == side
      modifies this
      ensures Valid() && multiset(items) == multiset(old(items)) + multiset{x}
    {
      hide HotterThan;
      items := items + [x];
      var j := |items| - 1;
      while true
        invariant 0 <= j < |items| && OneSided(items, side)
        invariant HeapExcept(items, j, -1) && Spanned(items, j)
        invariant multiset(items) == multiset(old(items)) + multiset{x}
        decreases j
      {
        var i := if j == 0 then 0 else Parent(j);
        if i == j || !Less(j, i) { break; }
        Risen(items, side, j);
        SwappedContents(items, i, j);
        Swap(i, j);
        j := i;
      }
    }

    /** Removes the first bid: the last one takes its place and sinks. */
    method Pop() returns (x: HotBid)
      requires Valid() && items != []
      modifies this
      ensures Valid() && x == old(items[0])
      ensures multiset(items) == multiset(old(items)) - multiset{x}
    {
      hide HotterThan;
      var n := |items| - 1;
      SwappedContents(items, 0, n);
      Swap(0, n);
      ghost var rest := items[..n];
      assert items == rest + [old(items[0])];
      assert HeapExcept(rest, -1, 0) && Spanned(rest, 0);
      Down(n);
      x := items[n];
      items := items[..n];
      assert multiset(items) == multiset(rest);
      assert multiset(rest + [x]) == multiset(old(items));
    }

    /** Sinks the first of the first `n` entries to its place. */
    method Down(n: nat)
      requires n < |items| && OneSided(items, side)
      requires HeapExcept(items[..n], -1, 0)
      modifies this
      ensures |items| == old(|items|) && items[n..] == old(items[n..])
      ensures OneSided(items, side) && Heap(items[..n])
      ensures multiset(items[..n]) == multiset(old(items[..n]))
    {
      hide HotterThan, HeapExcept, Spanned, Swapped, Parent;
      var i := 0;
      StartSinking(items[..n]);
      while true
        invariant 0 <= i && |items| == old(|items|) && items[n..] == old(items[n..]) && OneSided(items, side)
        invariant HeapExcept(items[..n], -1, i) && Spanned(items[..n], i)
        invariant multiset(items[..n]) == multiset(old(items[..n]))
        decreases n - i
      {
        var j1 := 2 * i + 1;
        if j1 >= n {
          Bottom(items[..n], i);
          break;
        }
        var j := j1;
        var j2 := j1 + 1;
        if j2 < n && Less(j2, j1) {
          j := j2;
        }
        if !Less(j, i) {
          HottestChild(items[..n], side, i, j);
          break;
        }
        SinkStep(items, n, side, i, j);
        Swap(i, j);
        i := j;
      }
    }
  }

  lemma StartSinking(items: seq<HotBid>)
    requires HeapExcept(items, -1, 0)
    ensures Spanned(items, 0)
  {
  }

  lemma Bottom(items: seq<HotBid>, i: nat)
    requires HeapExcept(items, -1, i) && 2 * i + 1 >= |items|
    ensures Heap(items)
  {
  }

  lemma SinkStep(items: seq<HotBid>, n: nat, t: BidType, i: nat, j: nat)
    requires n <= |items| && OneSided(items, t) && 2 * i + 1 < n
    requires j == if 2 * i + 2 < n && HotterThan(items[2 * i + 2], items[2 * i + 1]) then 2 * i + 2 else 2 * i + 1
    requires HeapExcept(items[..n], -1, i) && Spanned(items[..n], i) && HotterThan(items[j], items[i])
    ensures Swapped(items, i, j)[n..] == items[n..] && OneSided(Swapped(items, i, j), t)
    ensures HeapExcept(Swapped(items, i, j)[..n], -1, j) && Spanned(Swapped(items, i, j)[..n], j)
    ensures multiset(Swapped(items, i, j)[..n]) == multiset(items[..n])
  {
    hide HotterThan, HeapExcept, Spanned;
    HottestChild(items[..n], t, i, j);
    Sunk(items[..n], t, i, j);
    SwappedContents(items[..n], i, j);
    assert Swapped(items, i, j)[..n] == Swapped(items[..n], i, j);
  }

  /** Of the one or two entries under `i`, the chosen one is the hottest. */
  lemma HottestChild(items: seq<HotBid>, t: BidType, i: nat, j: nat)
    requires OneSided(items, t) && 2 * i + 1 < |items|
    requires j == if 2 * i + 2 < |items| && HotterThan(items[2 * i + 2], items[2 * i + 1]) then 2 * i + 2 else 2 * i + 1
    ensures Parent(j) == i
    ensures forall k :: 0 < k < |items| && Parent(k) == i ==> Below(items[k], items[j])
    ensures HeapExcept(items, -1, i) && Spanned(items, i) && !HotterThan(items[j], items[i]) ==> Heap(items)
  {
    hide HotterThan;
    forall k | 0 < k < |items| && Parent(k) == i ensures Below(items[k], items[j]) {
      assert k == 2 * i + 1 || k == 2 * i + 2;
      BelowTotal(items[k], items[j]);
    }
    if HeapExcept(items, -1, i) && !HotterThan(items[j], items[i]) {
      forall k | 0 < k < |items| ensures Below(items[k], items[Parent(k)]) {
        if Parent(k) == i { BelowTransitive(items[k], items[j], items[i]); }
      }
    }
  }
}
