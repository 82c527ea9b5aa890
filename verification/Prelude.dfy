/** Shared vocabulary: optional values, outcomes of atomic steps, wrapping 64-bit integers,
    and sums over finite maps. */
module Prelude {

  datatype Option<+T> = None | Some(value: T)

  /** Every way in which a server operation can fail. `Unavailable` stands for any failure of
      the datastore or the task queue; `Panicked` for a Go panic that aborts the request. */
  datatype Error =
    | Unavailable
    | Panicked
    | NoSuchObject
    | NotTransactional
    | InvalidMovement
    | CannotApply
    | InsufficientFunds
    | WrongCurrency
    | InvalidBid
    | NonMatchingBids
    | StrangePriceDelta
    | TooYoung
    | AlreadyRetired
    | DifferentDeposit
    | Rejected

  datatype Result<+T> = Ok(value: T) | Err(error: Error)

  const MAX64: int := 0x7fff_ffff_ffff_ffff
  const MIN64: int := -0x8000_0000_0000_0000
  const TWO64: int := 0x1_0000_0000_0000_0000

  type int64 = x: int | MIN64 <= x <= MAX64

  /** Two's complement wrap-around of Go's int64 arithmetic. */
  function Wrap(x: int): (r: int64)
    ensures (x - r) % TWO64 == 0
    ensures MIN64 <= x <= MAX64 ==> r == x
  {
    (x - MIN64) % TWO64 + MIN64
  }

  /** The sum of all values of a map. */
  ghost function Sum<K>(m: map<K, int>): int
  {
    if m == map[] then 0 else
    var k :| k in m;
    m[k] + Sum(m - {k})
  }

  lemma {:induction false} SumRemove<K>(m: map<K, int>, k: K)
    requires k in m
    ensures Sum(m) == m[k] + Sum(m - {k})
    decreases |m|
  {
    var j :| j in m && Sum(m) == m[j] + Sum(m - {j});
    if j != k {
      SumRemove(m - {j}, k);
      SumRemove(m - {k}, j);
      assert m - {j} - {k} == m - {k} - {j};
    }
  }

  /** Changing or adding one entry changes the sum by exactly that entry's difference. */
  lemma SumUpdate<K>(m: map<K, int>, m': map<K, int>, k: K)
    requires m'.Keys == m.Keys + {k}
    requires forall j :: j in m && j != k ==> m'[j] == m[j]
    ensures Sum(m') == Sum(m) - (if k in m then m[k] else 0) + m'[k]
  {
    SumRemove(m', k);
    if k in m {
      SumRemove(m, k);
      assert m - {k} == m' - {k};
    } else {
      assert m' - {k} == m;
    }
  }

  function At<K>(m: map<K, int>, k: K): int {
    if k in m then m[k] else 0
  }

  /** Two entries, possibly the same one, change by given amounts. */
  lemma SumUpdateTwo<K>(m: map<K, int>, m': map<K, int>, p: K, d: int, q: K, e: int)
    requires m'.Keys == m.Keys + {p, q}
    requires forall k :: k in m' ==> m'[k] == At(m, k) + (if k == p then d else 0) + (if k == q then e else 0)
    ensures Sum(m') == Sum(m) + d + e
  {
    var middle := m[p := m'[p]];
    SumUpdate(m, middle, p);
    SumUpdate(middle, m', q);
  }

  lemma {:induction false} SumNonNegative<K>(m: map<K, int>)
    requires forall k :: k in m ==> m[k] >= 0
    ensures Sum(m) >= 0
    decreases |m|
  {
    if m != map[] {
      var k :| k in m && Sum(m) == m[k] + Sum(m - {k});
      SumNonNegative(m - {k});
    }
  }

  /** In a sum of non-negative terms no term exceeds the total. */
  lemma SumBoundsTerm<K>(m: map<K, int>, k: K)
    requires forall j :: j in m ==> m[j] >= 0
    requires k in m
    ensures m[k] <= Sum(m)
  {
    SumRemove(m, k);
    SumNonNegative(m - {k});
  }

  lemma SumBoundsTwoTerms<K>(m: map<K, int>, k: K, j: K)
    requires forall i :: i in m ==> m[i] >= 0
    requires k in m && j in m && k != j
    ensures m[k] + m[j] <= Sum(m)
  {
    SumRemove(m, k);
    SumBoundsTerm(m - {k}, j);
  }

  lemma {:induction false} SumZero<K>(m: map<K, int>)
    requires forall k :: k in m ==> m[k] == 0
    ensures Sum(m) == 0
    decreases |m|
  {
    if m != map[] {
      var k :| k in m && Sum(m) == m[k] + Sum(m - {k});
      SumZero(m - {k});
    }
  }
}
