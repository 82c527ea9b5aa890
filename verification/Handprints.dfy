/** Handprints of files: the four smallest chunk keys, and how two of them are compared. */
module Handprints {

  /** The key of 32 bytes 0xff. Keys of equal length compare byte by byte as they do as numbers. */
  const TOP: int := 0xffffffffffffffff_ffffffffffffffff_ffffffffffffffff_ffffffffffffffff

  type skey = k: int | 0 <= k <= TOP

  const NUM_FINGERS: nat := 4

  ghost function Min(s: set<skey>): (m: skey)
    requires s != {}
    ensures m in s && forall x :: x in s ==> m <= x
  {
    MinExists(s);
    var m :| m in s && forall x :: x in s ==> m <= x;
    m
  }

  lemma {:induction false} HasMin(s: set<skey>) returns (m: skey)
    requires s != {}
    ensures m in s && forall x :: x in s ==> m <= x
    decreases |s|
  {
    var y :| y in s;
    m := y;
    if s - {y} != {} {
      var n := HasMin(s - {y});
      m := if y < n then y else n;
      forall x | x in s ensures m <= x {
        if x != y { assert x in s - {y}; }
      }
    } else {
      assert s == {y};
    }
  }

  lemma MinExists(s: set<skey>)
    requires s != {}
    ensures exists m :: m in s && forall x :: x in s ==> m <= x
  {
    var _ := HasMin(s);
  }

  lemma MinIs(s: set<skey>, m: skey)
    requires m in s && forall x :: x in s ==> m <= x
    ensures Min(s) == m
  {
  }

  /** The `n` smallest members in ascending order, padded with the greatest possible key. */
  ghost function Smallest(s: set<skey>, n: nat): (r: seq<skey>)
    ensures |r| == n
  {
    if n == 0 then []
    else if s == {} then [TOP] + Smallest({}, n - 1)
    else [Min(s)] + Smallest(s - {Min(s)}, n - 1)
  }

  /** Inserting a key moves greater ones up and drops the last. */
  function Inserted(fingers: seq<skey>, k: skey): (r: seq<skey>)
    ensures |r| == |fingers|
  {
    if fingers == [] then []
    else if fingers[0] < k then [fingers[0]] + Inserted(fingers[1..], k)
    else if fingers[0] == k then fingers
    else [k] + Inserted(fingers[1..], fingers[0])
  }

  lemma InsertStep(fingers: seq<skey>, i: nat, k: skey)
    requires i < |fingers|
    ensures Inserted(fingers[i..], k) ==
      if fingers[i] < k then [fingers[i]] + Inserted(fingers[i + 1..], k)
      else if fingers[i] == k then fingers[i..]
      else [k] + Inserted(fingers[i + 1..], fingers[i])
  {
    assert fingers[i..][1..] == fingers[i + 1..];
  }

  lemma InsertedNowhere(k: skey)
    ensures Inserted([], k) == []
  {
  }

  lemma {:induction false} InsertPadding(n: nat)
    ensures Inserted(Smallest({}, n), TOP) == Smallest({}, n)
  {
  }

  /** Inserting a key into the smallest of a set gives the smallest of the larger set. */
  lemma {:induction false} InsertSmallest(s: set<skey>, k: skey, n: nat)
    requires TOP !in s
    ensures Inserted(Smallest(s, n), k) == Smallest((s + {k}) - {TOP}, n)
    decreases n
  {
    if n > 0 {
      if s == {} {
        InsertPadding(n - 1);
        if k == TOP {
          assert (s + {k}) - {TOP} == {};
        } else {
          assert (s + {k}) - {TOP} == {k};
          MinIs({k}, k);
          assert {k} - {k} == {};
        }
      } else {
        InsertMember(s, k, n);
      }
    }
  }

  lemma {:induction false} InsertMember(s: set<skey>, k: skey, n: nat)
    requires TOP !in s && s != {} && n > 0
    ensures Inserted(Smallest(s, n), k) == Smallest((s + {k}) - {TOP}, n)
    decreases n, 0
  {
    var m := Min(s);
    var t := (s + {k}) - {TOP};
    var rest := s - {m};
    assert Smallest(s, n)[1..] == Smallest(rest, n - 1);
    if m < k {
      MinIs(t, m);
      InsertSmallest(rest, k, n - 1);
      assert (rest + {k}) - {TOP} == t - {m};
    } else if m == k {
      assert t == s;
    } else {
      assert k != TOP;
      MinIs(t, k);
      InsertSmallest(rest, m, n - 1);
      assert (rest + {m}) - {TOP} == s;
      assert k !in s;
      assert t - {k} == s;
    }
  }

  function Common(a: seq<skey>, b: seq<skey>): nat {
    |multiset(a) * multiset(b)|
  }

  ghost predicate Ascending(s: seq<skey>) {
    forall i, j :: 0 <= i < j < |s| ==> s[i] <= s[j]
  }

  lemma AscendingCons(x: skey, r: seq<skey>)
    requires Ascending(r) && forall y :: y in r ==> x <= y
    ensures Ascending([x] + r)
  {
    assert forall i :: 0 <= i < |r| ==> r[i] in r;
  }

  lemma {:induction false} SmallestAscends(s: set<skey>, n: nat)
    ensures Ascending(Smallest(s, n))
    ensures s != {} ==> forall x :: x in Smallest(s, n) ==> Min(s) <= x
    decreases n
  {
    hide Min, Ascending;
    if n == 0 {
      NoneAscends();
    } else if s == {} {
      SmallestAscends({}, n - 1);
      PaddingOnly(n - 1);
      AscendingCons(TOP, Smallest({}, n - 1));
    } else {
      var rest := s - {Min(s)};
      SmallestAscends(rest, n - 1);
      if rest == {} { PaddingOnly(n - 1); } else { assert Min(rest) in s; }
      AscendingCons(Min(s), Smallest(rest, n - 1));
    }
  }

  lemma NoneAscends()
    ensures Ascending([])
  {
  }

  lemma {:induction false} PaddingOnly(n: nat)
    ensures forall x :: x in Smallest({}, n) ==> x == TOP
  {
    if n > 0 { PaddingOnly(n - 1); }
  }

  class Handprint {
    const fingers: array<skey>

    ghost predicate Valid() reads fingers {
      fingers.Length == NUM_FINGERS && Ascending(fingers[..])
    }

    /** The handprint of a file with the given chunks, whatever their order. */
    constructor (chunks: seq<skey>)
      ensures Valid() && fresh(fingers)
      ensures fingers[..] == Smallest((set k | k in chunks) - {TOP}, NUM_FINGERS)
    {
      fingers := new skey[NUM_FINGERS](_ => TOP);
      new;
      PaddingOnly(NUM_FINGERS);
      assert fingers[..] == Smallest({}, NUM_FINGERS);
      ghost var s: set<skey> := {};
      var i := 0;
      while i < |chunks|
        invariant 0 <= i <= |chunks|
        invariant s == (set k | k in chunks[..i]) - {TOP}
        invariant fingers[..] == Smallest(s, NUM_FINGERS)
      {
        InsertSmallest(s, chunks[i], NUM_FINGERS);
        Insert(chunks[i]);
        assert chunks[..i + 1] == chunks[..i] + [chunks[i]];
        s := (s + {chunks[i]}) - {TOP};
        i := i + 1;
      }
      assert chunks[..i] == chunks;
      SmallestAscends(s, NUM_FINGERS);
    }

    method Insert(key: skey)
      requires fingers.Length == NUM_FINGERS
      modifies fingers
      ensures fingers[..] == Inserted(old(fingers[..]), key)
    {
      hide Inserted;
      var finger := key;
      ghost var was := fingers[..];
      assert was[0..] == was && [] + Inserted(was, key) == Inserted(was, key);
      for i := 0 to NUM_FINGERS
        invariant fingers[i..] == was[i..]
        invariant Inserted(was, key) == fingers[..i] + Inserted(was[i..], finger)
      {
        var other := fingers[i];
        ghost var done := fingers[..i];
        assert other == was[i];
        InsertStep(was, i, finger);
        if other < finger {
          assert fingers[..i + 1] == done + [other];
          continue;
        } else if other == finger {
          assert fingers[..] == done + was[i..];
          return;
        }
        finger, fingers[i] := other, finger;
        assert fingers[..i + 1] == done + [fingers[i]];
      }
      InsertedNowhere(finger);
      assert was[NUM_FINGERS..] == [];
      assert fingers[..] == fingers[..NUM_FINGERS];
    }

    /** Whether two handprints share at least `n` fingers, counted with multiplicity. */
    method Matches(o: Handprint, n: int) returns (r: bool)
      requires Valid() && o.Valid()
      ensures r <==> Common(fingers[..], o.fingers[..]) >= n
    {
      var matches := 0;
      var i, j := 0, 0;
      ghost var a, b := fingers[..], o.fingers[..];
      assert a[0..] == a && b[0..] == b;
      while i < NUM_FINGERS && j < NUM_FINGERS
        invariant 0 <= i <= NUM_FINGERS && 0 <= j <= NUM_FINGERS
        invariant matches + Common(a[i..], b[j..]) == Common(a, b)
        decreases 2 * NUM_FINGERS - i - j
      {
        var x, y := fingers[i], o.fingers[j];
        MergeStep(a, b, i, j);
        if x <= y { i := i + 1; }
        if x >= y { j := j + 1; }
        if x == y { matches := matches + 1; }
      }
      if i == NUM_FINGERS { assert a[i..] == []; } else { assert b[j..] == []; }
      return matches >= n;
    }
  }

  lemma MergeStep(a: seq<skey>, b: seq<skey>, i: nat, j: nat)
    requires Ascending(a) && Ascending(b) && i < |a| && j < |b|
    ensures Common(a[i..], b[j..]) ==
      if a[i] < b[j] then Common(a[i + 1..], b[j..])
      else if a[i] > b[j] then Common(a[i..], b[j + 1..])
      else 1 + Common(a[i + 1..], b[j + 1..])
  {
    var x, y := a[i], b[j];
    assert a[i..] == [x] + a[i + 1..] && b[j..] == [y] + b[j + 1..];
    if x < y {
      assert x !in b[j..];
      assert multiset(a[i..]) * multiset(b[j..]) == multiset(a[i + 1..]) * multiset(b[j..]);
    } else if x > y {
      assert y !in a[i..];
      assert multiset(a[i..]) * multiset(b[j..]) == multiset(a[i..]) * multiset(b[j + 1..]);
    } else {
      assert multiset(a[i..]) * multiset(b[j..]) == multiset(a[i + 1..]) * multiset(b[j + 1..]) + multiset{x};
    }
  }
}
