/** Arithmetic modulo a prime, up to Euler's criterion: which residues are squares. */
module Residues {

  ghost predicate IsPrime(p: int) {
    p >= 2 && forall d :: 2 <= d < p ==> p % d != 0
  }

  function Mul(x: int, y: int, p: int): int
    requires p > 0
  {
    (x * y) % p
  }

  /** Modular exponentiation. */
  function Exp(x: int, n: nat, p: int): int
    requires p > 0
  {
    if n == 0 then 1 % p else Mul(x, Exp(x, n - 1, p), p)
  }

  // ---------------------------------------------------------------- the ring of residues

  lemma DivModUnique(x: int, p: int, q: int, r: int)
    requires p > 0 && x == q * p + r && 0 <= r < p
    ensures x % p == r && x / p == q
  {
    var k := q - x / p;
    assert k * p == x % p - r;
    assert k >= 1 ==> k * p >= p;
    assert k <= -1 ==> k * p <= -p;
  }

  lemma ModPlus(x: int, k: int, p: int)
    requires p > 0
    ensures (x + k * p) % p == x % p
  {
    DivModUnique(x + k * p, p, x / p + k, x % p);
  }

  /** Reducing a factor first does not matter. */
  lemma MulReduce(x: int, y: int, p: int)
    requires p > 0
    ensures Mul(x % p, y, p) == Mul(x, y, p) && Mul(x, y % p, p) == Mul(x, y, p)
  {
    ModPlus((x % p) * y, (x / p) * y, p);
    assert x * y == (x % p) * y + ((x / p) * y) * p;
    ModPlus(x * (y % p), x * (y / p), p);
    assert x * y == x * (y % p) + (x * (y / p)) * p;
  }

  lemma MulCommutes(x: int, y: int, p: int)
    requires p > 0
    ensures Mul(x, y, p) == Mul(y, x, p) && 0 <= Mul(x, y, p) < p
  {
  }

  lemma MulAssociates(x: int, y: int, z: int, p: int)
    requires p > 0
    ensures Mul(Mul(x, y, p), z, p) == Mul(x, Mul(y, z, p), p)
  {
    MulReduce(x * y, z, p);
    MulReduce(x, y * z, p);
    assert (x * y) * z == x * (y * z);
  }

  lemma MulOne(x: int, p: int)
    requires p > 0
    ensures Mul(1, x, p) == x % p && Mul(1 % p, x, p) == x % p
    ensures Mul(0, x, p) == 0
  {
    MulReduce(1, x, p);
  }

  function Negate(x: int, p: int): int
    requires p > 0
  {
    (0 - x) % p
  }

  lemma MulNegate(x: int, y: int, p: int)
    requires p > 0
    ensures Mul(Negate(x, p), y, p) == Negate(Mul(x, y, p), p)
    ensures Mul(Negate(x, p), Negate(y, p), p) == Mul(x, y, p)
  {
    hide Mul, Negate;
    NegateFirst(x, y, p);
    NegateFirst(y, Negate(x, p), p);
    MulCommutes(Negate(y, p), Negate(x, p), p);
    MulCommutes(y, Negate(x, p), p);
    MulCommutes(x, y, p);
    NegateTwice(Mul(x, y, p), p);
    InRange(Mul(x, y, p), p);
  }

  lemma NegateFirst(x: int, y: int, p: int)
    requires p > 0
    ensures Mul(Negate(x, p), y, p) == Negate(Mul(x, y, p), p)
  {
    MulReduce(0 - x, y, p);
    assert (0 - x) * y == 0 - x * y;
    ModPlus(0 - (x * y) % p, 0 - (x * y) / p, p);
    assert 0 - x * y == 0 - (x * y) % p + (0 - (x * y) / p) * p;
  }

  lemma NegateTwice(x: int, p: int)
    requires p > 0
    ensures Negate(Negate(x, p), p) == x % p
    ensures 0 <= Negate(x, p) < p
    ensures 0 < x < p ==> Negate(x, p) == p - x
    ensures x == 0 ==> Negate(x, p) == 0
  {
    ModPlus(x, 0 - (0 - x) / p - 1 + 1, p);
    assert 0 - (0 - x) % p == x + ((0 - x) / p) * p;
    ModPlus(x, (0 - x) / p, p);
    if 0 < x < p { DivModUnique(0 - x, p, -1, p - x); }
  }

  // ---------------------------------------------------------------- powers

  lemma {:induction false} ExpRange(x: int, n: nat, p: int)
    requires p > 0
    ensures 0 <= Exp(x, n, p) < p
  {
  }

  lemma {:induction false} ExpAdd(x: int, m: nat, n: nat, p: int)
    requires p > 0
    ensures Exp(x, m + n, p) == Mul(Exp(x, m, p), Exp(x, n, p), p)
  {
    hide Mul;
    if m == 0 {
      MulOne(Exp(x, n, p), p);
      ExpRange(x, n, p);
      InRange(Exp(x, n, p), p);
    } else {
      ExpAdd(x, m - 1, n, p);
      MulAssociates(x, Exp(x, m - 1, p), Exp(x, n, p), p);
    }
  }

  lemma InRange(x: int, p: int)
    requires 0 <= x < p
    ensures x % p == x
  {
  }

  lemma {:induction false} ExpOne(n: nat, p: int)
    requires p > 1
    ensures Exp(1, n, p) == 1
  {
    if n > 0 { ExpOne(n - 1, p); }
  }

  lemma ExpFirst(x: int, p: int)
    requires p > 0
    ensures Exp(x, 1, p) == x % p
    ensures Exp(x, 2, p) == Mul(x, x, p)
  {
    assert Exp(x, 0, p) == 1 % p;
    MulReduce(x, 1, p);
    assert Mul(x, 1, p) == x % p;
    MulReduce(x, x, p);
  }

  /** Reducing the base first does not matter. */
  lemma {:induction false} ExpReduce(x: int, n: nat, p: int)
    requires p > 0
    ensures Exp(x % p, n, p) == Exp(x, n, p)
  {
    if n > 0 {
      ExpReduce(x, n - 1, p);
      MulReduce(x, Exp(x, n - 1, p), p);
    }
  }

  lemma {:induction false} ExpZero(n: nat, p: int)
    requires p > 1 && n > 0
    ensures Exp(0, n, p) == 0
  {
    MulOne(Exp(0, n - 1, p), p);
  }

  // ---------------------------------------------------------------- inverses

  lemma {:induction false} Inverse(x: int, p: int) returns (y: int)
    requires IsPrime(p) && 0 < x < p
    ensures 0 < y < p && Mul(x, y, p) == 1
    decreases x
  {
    hide Mul;
    if x == 1 {
      y := 1;
      MulOne(1, p);
      InRange(1, p);
    } else {
      var r := p % x;
      var z := Inverse(r, p);
      y := Mul(Negate(p / x, p), z, p);
      Remainder(x, p);
      MulAssociates(x, Negate(p / x, p), z, p);
      MulCommutes(Negate(p / x, p), z, p);
      if y == 0 { TimesZero(x, p); }
    }
  }

  lemma TimesZero(x: int, p: int)
    requires p > 1
    ensures Mul(x, 0, p) == 0
  {
  }

  lemma Remainder(x: int, p: int)
    requires 0 < x < p
    ensures Mul(x, Negate(p / x, p), p) == p % x
  {
    MulReduce(x, 0 - p / x, p);
    assert x * (0 - p / x) == p % x + (-1) * p;
    ModPlus(p % x, -1, p);
    InRange(p % x, p);
  }

  /** No residue but zero divides zero. */
  lemma NoZeroDivisors(x: int, y: int, p: int)
    requires IsPrime(p) && 0 < x < p && 0 <= y < p && Mul(x, y, p) == 0
    ensures y == 0
  {
    hide Mul;
    var i := Inverse(x, p);
    MulAssociates(i, x, y, p);
    MulCommutes(i, x, p);
    MulOne(y, p);
    InRange(y, p);
    TimesZero(i, p);
  }

  lemma Cancel(x: int, y: int, z: int, p: int)
    requires IsPrime(p) && 0 < x < p && 0 <= y < p && 0 <= z < p && Mul(x, y, p) == Mul(x, z, p)
    ensures y == z
  {
    hide Mul;
    var i := Inverse(x, p);
    MulAssociates(i, x, y, p);
    MulAssociates(i, x, z, p);
    MulCommutes(i, x, p);
    MulOne(y, p);
    MulOne(z, p);
    InRange(y, p);
    InRange(z, p);
  }

  /** A residue has at most the two square roots s and -s. */
  lemma TwoRoots(x: int, s: int, p: int)
    requires IsPrime(p) && 0 <= x < p && 0 <= s < p && Mul(x, x, p) == Mul(s, s, p)
    ensures x == s || x + s == p
  {
    if x != s {
      var d := (x - s) % p;
      MulReduce(x - s, x + s, p);
      MulReduce(d, x + s, p);
      assert (x - s) * (x + s) == x * x - s * s;
      DifferenceOfEqual(x * x, s * s, p);
      if x > s { InRange(x - s, p); } else { DivModUnique(x - s, p, -1, x - s + p); }
      NoZeroDivisors(d, (x + s) % p, p);
      if x + s < p { InRange(x + s, p); } else { DivModUnique(x + s, p, 1, x + s - p); }
    }
  }

  lemma DifferenceOfEqual(x: int, y: int, p: int)
    requires p > 0 && x % p == y % p
    ensures (x - y) % p == 0
  {
    assert x - y == (x / p - y / p) * p + 0;
    DivModUnique(x - y, p, x / p - y / p, 0);
  }

  // ---------------------------------------------------------------- products of pairs

  ghost function Pick(s: set<nat>): (x: nat)
    requires s != {}
    ensures x in s
  {
    var x :| x in s;
    x
  }

  ghost function Product(s: set<nat>, p: int): int
    requires p > 0
  {
    if s == {} then 1 % p else
    var x := Pick(s);
    Mul(x, Product(s - {x}, p), p)
  }

  lemma {:induction false} ProductRemove(s: set<nat>, x: int, p: int)
    requires p > 0 && x in s
    ensures Product(s, p) == Mul(x, Product(s - {x}, p), p)
    decreases |s|
  {
    hide Mul;
    var z := Pick(s);
    if z != x {
      ProductRemove(s - {z}, x, p);
      ProductRemove(s - {x}, z, p);
      var rest := Product(s - {z} - {x}, p);
      assert s - {x} - {z} == s - {z} - {x};
      MulAssociates(z, x, rest, p);
      MulAssociates(x, z, rest, p);
      MulCommutes(z, x, p);
    }
  }

  /** Someone else in `s` with whom `x` multiplies to `a`. */
  ghost predicate HasPartner(s: set<nat>, x: int, a: int, p: int)
    requires p > 0
  {
    exists y :: y in s && y != x && Mul(x, y, p) == a
  }

  /** Everyone in `s` has a partner in `s`. */
  ghost predicate Paired(s: set<nat>, a: int, p: int)
    requires p > 0
  {
    forall x :: x in s ==> 0 < x < p && HasPartner(s, x, a, p)
  }

  lemma PartnerOf(s: set<nat>, x: nat, a: int, p: int) returns (y: nat)
    requires p > 0 && x in s && HasPartner(s, x, a, p)
    ensures y in s && y != x && Mul(x, y, p) == a
  {
    y :| y in s && y != x && Mul(x, y, p) == a;
  }

  lemma StillPartner(s: set<nat>, a: int, p: int, x: nat, y: nat, z: nat)
    requires IsPrime(p) && (forall u :: u in s ==> 0 < u < p) && x in s && y in s && x != y && Mul(x, y, p) == a
    requires z in s && z != x && z != y && HasPartner(s, z, a, p)
    ensures HasPartner(s - {x, y}, z, a, p)
  {
    hide Mul, IsPrime;
    var w :| w in s && w != z && Mul(z, w, p) == a;
    MulCommutes(z, w, p);
    MulCommutes(x, y, p);
    if w == x { Cancel(x, z, y, p); }
    if w == y { Cancel(y, z, x, p); }
    assert w in s - {x, y};
  }

  lemma WithoutPair(s: set<nat>, a: int, p: int, x: nat, y: nat)
    requires IsPrime(p) && Paired(s, a, p) && x in s && y in s && x != y && Mul(x, y, p) == a
    ensures Paired(s - {x, y}, a, p)
  {
    hide Mul, IsPrime, HasPartner;
    forall z | z in s - {x, y} ensures 0 < z < p && HasPartner(s - {x, y}, z, a, p) {
      StillPartner(s, a, p, x, y, z);
    }
  }

  lemma PairOut(s: set<nat>, x: nat, y: nat, p: int)
    requires p > 0 && x in s && y in s && x != y
    ensures |s - {x, y}| == |s| - 2
    ensures Product(s, p) == Mul(Mul(x, y, p), Product(s - {x, y}, p), p)
  {
    hide Mul, Product;
    ProductRemove(s, x, p);
    ProductRemove(s - {x}, y, p);
    assert s - {x} - {y} == s - {x, y};
    MulAssociates(x, y, Product(s - {x, y}, p), p);
  }

  lemma {:induction false} PairedProduct(s: set<nat>, a: int, p: int)
    requires IsPrime(p) && Paired(s, a, p)
    ensures |s| % 2 == 0 && Product(s, p) == Exp(a, |s| / 2, p)
    decreases |s|
  {
    hide Mul, IsPrime, HasPartner;
    if s != {} {
      var x := Pick(s);
      var y := PartnerOf(s, x, a, p);
      PairOut(s, x, y, p);
      WithoutPair(s, a, p, x, y);
      PairedProduct(s - {x, y}, a, p);
      assert |s| / 2 == |s - {x, y}| / 2 + 1;
    }
  }

  /** All residues but zero. */
  ghost function Units(p: int): (s: set<nat>)
    ensures forall x :: x in s <==> 0 < x < p
    ensures |s| == if p <= 1 then 0 else p - 1
  {
    if p <= 1 then {} else Units(p - 1) + {p - 1}
  }

  ghost predicate IsSquare(a: int, p: int)
    requires p > 0
  {
    exists s :: 0 <= s < p && Mul(s, s, p) == a % p
  }

  /** Every unit has a partner with which it multiplies to `a`. */
  lemma Partner(x: int, a: int, p: int) returns (y: int)
    requires IsPrime(p) && 0 < x < p && 0 < a < p
    ensures 0 < y < p && Mul(x, y, p) == a
  {
    hide Mul;
    var i := Inverse(x, p);
    y := Mul(i, a, p);
    MulAssociates(x, i, a, p);
    MulOne(a, p);
    InRange(a, p);
    MulCommutes(i, a, p);
    if y == 0 { TimesZero(x, p); }
  }

  lemma NonSquareProduct(a: int, p: int)
    requires IsPrime(p) && 0 < a < p && !IsSquare(a, p)
    ensures p % 2 == 1
    ensures Product(Units(p), p) == Exp(a, (p - 1) / 2, p)
  {
    hide Mul, Exp, Product, Units;
    InRange(a, p);
    forall x | x in Units(p) ensures 0 < x < p && HasPartner(Units(p), x, a, p) {
      var y := Partner(x, a, p);
      assert y != x;
      assert y in Units(p);
    }
    PairedProduct(Units(p), a, p);
  }

  lemma SquareProduct(a: int, p: int, s: int)
    requires IsPrime(p) && p > 2 && 0 < a < p && 0 < s < p && Mul(s, s, p) == a
    ensures p % 2 == 1
    ensures Product(Units(p), p) == Negate(Exp(a, (p - 1) / 2, p), p)
  {
    hide Mul, Product, IsPrime, Units, Negate;
    var t := p - s;
    OddPrime(p);
    var rest := Units(p) - {s, t};
    RestPaired(rest, a, p, s);
    PairedProduct(rest, a, p);
    assert |rest| == p - 3;
    ProductRemove(Units(p), s, p);
    ProductRemove(Units(p) - {s}, t, p);
    assert Units(p) - {s} - {t} == rest;
    var e := Exp(a, (p - 3) / 2, p);
    MulAssociates(s, t, e, p);
    RootTimesOther(s, a, p);
    MulNegate(a, e, p);
    assert (p - 3) / 2 == (p - 1) / 2 - 1;
  }

  lemma RestPaired(rest: set<nat>, a: int, p: int, s: int)
    requires IsPrime(p) && p > 2 && 0 < a < p && 0 < s < p && Mul(s, s, p) == a
    requires rest == Units(p) - {s, p - s}
    ensures Paired(rest, a, p)
  {
    hide Mul, IsPrime, Units;
    forall x | x in rest ensures 0 < x < p && HasPartner(rest, x, a, p) {
      var y := Partner(x, a, p);
      RestPartner(x, y, a, p, s);
      assert y in rest;
    }
  }

  lemma RootTimesOther(s: int, a: int, p: int)
    requires p > 2 && 0 < s < p && Mul(s, s, p) == a
    ensures Mul(s, p - s, p) == Negate(a, p)
  {
    NegateTwice(s, p);
    NegateFirst(s, s, p);
    MulCommutes(Negate(s, p), s, p);
  }

  lemma RestPartner(x: int, y: int, a: int, p: int, s: int)
    requires IsPrime(p) && p > 2 && 0 < s < p && Mul(s, s, p) == a
    requires 0 < x < p && 0 < y < p && x != s && x != p - s && Mul(x, y, p) == a
    ensures y != x && y != s && y != p - s
  {
    hide Mul, IsPrime;
    if y == x { TwoRoots(x, s, p); }
    MulCommutes(x, y, p);
    if y == s { Cancel(s, x, s, p); }
    if y == p - s {
      NegateTwice(s, p);
      MulNegate(s, s, p);
      Cancel(p - s, x, p - s, p);
    }
  }

  lemma OddPrime(p: int)
    requires IsPrime(p) && p > 2
    ensures p % 2 == 1
  {
  }

  /** Wilson's theorem: all units multiply to minus one. */
  lemma AllUnits(p: int)
    requires IsPrime(p) && p > 2
    ensures Product(Units(p), p) == p - 1
  {
    hide Product, Units, IsPrime;
    assert Mul(1, 1, p) == 1;
    SquareProduct(1, p, 1);
    OddPrime(p);
    ExpOne((p - 1) / 2, p);
    NegateTwice(1, p);
  }

  /** Euler's criterion: raised to half the order of the group, squares give one and other
      units minus one. */
  lemma EulersCriterion(a: int, p: int)
    requires IsPrime(p) && p > 2 && a % p != 0
    ensures IsSquare(a, p) ==> Exp(a, (p - 1) / 2, p) == 1
    ensures !IsSquare(a, p) ==> Exp(a, (p - 1) / 2, p) == p - 1
  {
    hide Product, Units, IsPrime, Mul, Exp;
    OddPrime(p);
    var r := a % p;
    ExpReduce(a, (p - 1) / 2, p);
    AllUnits(p);
    InRange(r, p);
    if IsSquare(a, p) {
      var s :| 0 <= s < p && Mul(s, s, p) == r;
      if s == 0 { TimesZero(0, p); }
      SquareProduct(r, p, s);
      ExpRange(a, (p - 1) / 2, p);
      NegateTwice(Exp(a, (p - 1) / 2, p), p);
      NegateTwice(1, p);
      InRange(Exp(a, (p - 1) / 2, p), p);
    } else {
      assert !IsSquare(r, p);
      NonSquareProduct(r, p);
    }
  }

  /** Minus one and one are the only square roots of one. */
  lemma RootsOfOne(x: int, p: int)
    requires IsPrime(p) && p > 2 && 0 <= x < p && Mul(x, x, p) == 1 && x != 1
    ensures x == p - 1
  {
    assert Mul(1, 1, p) == 1;
    TwoRoots(x, 1, p);
  }
}
