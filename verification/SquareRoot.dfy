/** Square roots modulo a prime, and the recovery of a curve point from its x coordinate. */
module SquareRoot {
  import opened Residues

  /** Go's three ways out of the root finder: a result, an error, a panic. */
  datatype Root = Found(x: int) | NotASquare | TooManyIterations | GoPanic

  function Pow2(e: nat): (r: nat)
    ensures r >= 1
  {
    if e == 0 then 1 else 2 * Pow2(e - 1)
  }

  /** What remains of `n` once every factor of two is taken out. */
  function OddPart(n: nat): nat {
    if n > 0 && n % 2 == 0 then OddPart(n / 2) else n
  }

  lemma OddIsOdd(q: nat)
    requires q % 2 == 1
    ensures OddPart(q) == q
  {
  }

  lemma Halve(n: nat)
    requires n > 0
    ensures OddPart(2 * n) == OddPart(n)
  {
    var m := 2 * n;
    assert m % 2 == 0 && m / 2 == n;
  }

  lemma {:induction false} OddPartOf(e: nat, q: nat)
    requires q % 2 == 1
    ensures OddPart(Pow2(e) * q) == q
  {
    hide OddPart;
    if e == 0 {
      OddIsOdd(q);
      assert Pow2(0) * q == q;
    } else {
      OddPartOf(e - 1, q);
      Halve(Pow2(e - 1) * q);
      assert Pow2(e) * q == 2 * (Pow2(e - 1) * q);
    }
  }

  function BitLen(n: nat): nat {
    if n == 0 then 0 else 1 + BitLen(n / 2)
  }

  /** Whether a residue is zero, a square or no square. */
  method Legendre(a: int, p: int) returns (r: int)
    requires IsPrime(p) && p > 2
    ensures r == if a % p == 0 then 0 else if IsSquare(a, p) then 1 else -1
  {
    hide IsPrime, IsSquare, Mul, Exp;
    OddPrime(p);
    var n := p / 2;
    var x := Exp(a, n, p);
    ExpRange(a, n, p);
    if a % p == 0 {
      ExpReduce(a, n, p);
      ExpZero(n, p);
    } else {
      EulersCriterion(a, p);
      assert n == (p - 1) / 2;
    }
    BitLenSmall(x);
    match BitLen(x)
    case 0 => return 0;
    case 1 => return 1;
    case _ => return -1;
  }

  lemma BitLenSmall(n: nat)
    ensures BitLen(n) == 0 <==> n == 0
    ensures BitLen(n) == 1 <==> n == 1
  {
  }

  // ---------------------------------------------------------------- repeated squaring

  function Squared(x: int, i: nat, p: int): int
    requires p > 0
  {
    if i == 0 then x else Mul(Squared(x, i - 1, p), Squared(x, i - 1, p), p)
  }

  lemma {:induction false} SquaredRange(x: int, i: nat, p: int)
    requires 0 <= x < p
    ensures 0 <= Squared(x, i, p) < p
  {
  }

  lemma {:induction false} SquaredTwice(x: int, i: nat, j: nat, p: int)
    requires p > 0
    ensures Squared(Squared(x, i, p), j, p) == Squared(x, i + j, p)
  {
    hide Mul;
    if j > 0 { SquaredTwice(x, i, j - 1, p); }
  }

  /** The square of a product is the product of the squares. */
  lemma MulSquares(x: int, y: int, p: int)
    requires p > 0
    ensures Mul(Mul(x, y, p), Mul(x, y, p), p) == Mul(Mul(x, x, p), Mul(y, y, p), p)
  {
    hide Mul;
    var xy := Mul(x, y, p);
    MulAssociates(x, y, xy, p);
    MulCommutes(y, xy, p);
    MulAssociates(x, y, y, p);
    MulAssociates(x, x, Mul(y, y, p), p);
  }

  lemma {:induction false} SquaredProduct(x: int, y: int, i: nat, p: int)
    requires p > 0
    ensures Squared(Mul(x, y, p), i, p) == Mul(Squared(x, i, p), Squared(y, i, p), p)
  {
    hide Mul;
    if i > 0 {
      SquaredProduct(x, y, i - 1, p);
      MulSquares(Squared(x, i - 1, p), Squared(y, i - 1, p), p);
    }
  }

  lemma {:induction false} SquaredIsExp(a: int, q: nat, i: nat, p: int)
    requires p > 0
    ensures q * Pow2(i) >= 0 && Squared(Exp(a, q, p), i, p) == Exp(a, q * Pow2(i), p)
  {
    hide Mul, Exp;
    if i > 0 {
      SquaredIsExp(a, q, i - 1, p);
      var n := q * Pow2(i - 1);
      ExpAdd(a, n, n, p);
      assert n + n == q * Pow2(i);
    } else {
      assert Pow2(0) == 1;
      assert q * 1 == q;
    }
  }

  // ---------------------------------------------------------------- the shape of p - 1

  predicate Shape(p: int, e: nat, q: nat) {
    e >= 1 && q % 2 == 1 && p == Pow2(e) * q + 1
  }

  /** Bit `e` of `p`. */
  predicate Bit(p: nat, e: nat) {
    (p / Pow2(e)) % 2 == 1
  }

  lemma NextBit(p: nat, e: nat)
    requires p == Pow2(e) * (p / Pow2(e)) + 1 && !Bit(p, e) && p > 1
    ensures p / Pow2(e + 1) < p / Pow2(e)
    ensures p == Pow2(e + 1) * (p / Pow2(e + 1)) + 1
  {
    var h := p / Pow2(e);
    assert h == 2 * (h / 2);
    assert Pow2(e + 1) * (h / 2) == Pow2(e) * h;
    DivModUnique(p, Pow2(e + 1), h / 2, 1);
    assert h != 0;
  }

  method SplitPowerOfTwo(p: int) returns (e: nat)
    requires p >= 2 && (p == 2 || p % 2 == 1)
    ensures p == 2 ==> e == 1
    ensures p > 2 ==> Shape(p, e, p / Pow2(e))
  {
    e := 1;
    assert Pow2(1) == 2;
    while !Bit(p, e)
      invariant p == 2 ==> e == 1
      invariant e >= 1 && (p > 2 ==> p == Pow2(e) * (p / Pow2(e)) + 1)
      decreases p / Pow2(e)
    {
      NextBit(p, e);
      e := e + 1;
    }
  }

  lemma EightTimes(k: nat, q: nat)
    ensures Pow2(k + 3) * q == 8 * (Pow2(k) * q)
  {
    assert Pow2(k + 3) == 2 * Pow2(k + 2) && Pow2(k + 2) == 2 * Pow2(k + 1);
    assert Pow2(k + 3) == 8 * Pow2(k);
  }

  lemma ShapeResidue(p: int, e: nat, q: nat)
    requires Shape(p, e, q) && q >= 1
    ensures e == 1 <==> p % 4 == 3
    ensures e == 2 <==> p % 8 == 5
    ensures e >= 3 <==> p % 8 == 1
    ensures q == OddPart(p - 1)
  {
    hide OddPart;
    OddPartOf(e, q);
    if e == 1 {
      SmallShape(p, 1, q, 2);
    } else if e == 2 {
      SmallShape(p, 2, q, 4);
    } else {
      hide Pow2;
      EightTimes(e - 3, q);
      EightBelow(p, Pow2(e - 3) * q);
    }
  }

  lemma SmallShape(p: int, e: nat, q: nat, power: nat)
    requires Shape(p, e, q) && (e == 1 || e == 2) && power == (if e == 1 then 2 else 4)
    ensures p == power * q + 1
    ensures e == 1 ==> p % 4 == 3
    ensures e == 2 ==> p % 8 == 5
  {
    assert Pow2(1) == 2 && Pow2(2) == 2 * Pow2(1);
    var k := q / 2;
    assert q == 2 * k + 1;
  }

  lemma EightBelow(p: int, k: int)
    requires p == 8 * k + 1
    ensures p % 8 == 1 && p % 4 == 1
  {
  }

  // ---------------------------------------------------------------- the search for a non-residue

  predicate SmallNonResidue(p: int, y: int)
    requires p > 0
  {
    2 <= y < 22 && y % p != 0 && (forall s :: 0 <= s < p ==> Mul(s, s, p) != y % p)
  }

  ghost predicate HasSmallNonResidue(p: int)
    requires p > 0
  {
    exists y :: SmallNonResidue(p, y)
  }

  lemma Seventeen()
    ensures SmallNonResidue(17, 3)
  {
  }

  lemma SmallModulus(p: int, y: int)
    requires IsPrime(p) && p % 8 == 1 && 0 < y < 22 && y % p == 0
    ensures p == 17
  {
    assert p > 3 ==> p % 3 != 0;
  }

  /** Tries the numbers from two up. Its two failures are a panic and an error. */
  method FindNonResidue(p: int) returns (y: int, failure: Root)
    requires IsPrime(p) && p % 8 == 1
    ensures failure == GoPanic || failure.Found?
    ensures failure.Found? <==> HasSmallNonResidue(p)
    ensures failure.Found? ==> SmallNonResidue(p, y)
  {
    hide Mul;
    y, failure := 0, Found(0);
    var i := 2;
    var r := 1;
    while true
      invariant 2 <= i <= 22 && r == 1
      invariant forall z :: 2 <= z < i ==> !SmallNonResidue(p, z)
      invariant i > 3 && p == 17 ==> false
      decreases 22 - i
    {
      if i < 22 {
        y := i;
      } else {
        failure := GoPanic;
        return;
      }
      r := Legendre(y, p);
      assert r == -1 <==> SmallNonResidue(p, y);
      if r == 0 { SmallModulus(p, y); }
      Seventeen();
      i := i + 1;
      if r != 1 || i >= 82 {
        break;
      }
    }
    if r != -1 {
      failure := TooManyIterations;
    }
  }

  /** What the general branch needs of its modulus. */
  ghost predicate General(p: int)
    requires p > 1
  {
    p % 8 == 1 && OddPart(p - 1) > 1 && HasSmallNonResidue(p)
  }

  /** Squares whose root the general branch can find: zero only when written as zero. */
  ghost predicate Rootable(a: int, p: int)
    requires p > 0
  {
    IsSquare(a, p) && (a == 0 || a % p != 0)
  }

  // ---------------------------------------------------------------- the easy branch

  /** If (p - 1) / 2 is odd, one exponentiation gives a root of `a` or of its negative. */
  lemma EasyRoot(a: int, p: int)
    requires IsPrime(p) && p % 4 == 3
    ensures var x := Exp(a, p / 4 + 1, p);
      && 0 <= x < p
      && Mul(x, x, p) == if IsSquare(a, p) then a % p else Negate(a, p)
  {
    hide IsSquare, Mul, Exp, Negate;
    var n := p / 4 + 1;
    var h := (p - 1) / 2;
    ExpRange(a, n, p);
    ExpAdd(a, n, n, p);
    assert n + n == 1 + h;
    ExpAdd(a, 1, h, p);
    ExpFirst(a, p);
    MulReduce(a, Exp(a, h, p), p);
    if a % p == 0 {
      ZeroIsSquare(a, p);
      ExpReduce(a, h, p);
      ExpZero(h, p);
      TimesZero(a, p);
    } else {
      EulersCriterion(a, p);
      TimesUnit(a, p);
    }
  }

  lemma ZeroIsSquare(a: int, p: int)
    requires p > 0 && a % p == 0
    ensures IsSquare(a, p)
  {
    assert Mul(0, 0, p) == 0;
  }

  lemma TimesUnit(a: int, p: int)
    requires p > 1
    ensures Mul(a, 1, p) == a % p
    ensures Mul(a, p - 1, p) == Negate(a, p)
  {
    ModPlus(0 - a, a, p);
    assert a * (p - 1) == 0 - a + a * p;
  }

  // ---------------------------------------------------------------- the general branch

  /** The invariant of the general branch. */
  ghost predicate Approaching(a: int, p: int, x: int, y: int, b: int, e: int)
    requires p > 0
  {
    && 1 <= e && 0 <= x < p && 0 <= y < p && 0 <= b < p
    && Mul(a, b, p) == Mul(x, x, p)
    && Squared(y, e - 1, p) == p - 1
    && (IsSquare(a, p) && a % p != 0 ==> Squared(b, e - 1, p) == 1)
    && (e >= 2 || Squared(b, e - 1, p) == 1)
  }

  lemma StartApproach(a: int, p: int, e: nat, q: nat, y0: int)
    requires IsPrime(p) && Shape(p, e, q) && e >= 3
    requires y0 % p != 0 && !IsSquare(y0, p)
    ensures var x := Exp(a, q / 2, p);
            Approaching(a, p, Mul(a, x, p), Exp(y0, q, p), Mul(a, Mul(x, x, p), p), e)
  {
    hide IsPrime, IsSquare, Mul, Exp, Squared;
    var x := Exp(a, q / 2, p);
    var b := Mul(a, Mul(x, x, p), p);
    ExpAdd(a, q / 2, q / 2, p);
    ExpAdd(a, 1, q / 2 + q / 2, p);
    ExpFirst(a, p);
    MulReduce(a, Mul(x, x, p), p);
    assert b == Exp(a, q, p);
    HalfOrder(p, e, q);
    OddPrime(p);
    SquaredIsExp(a, q, e - 1, p);
    SquaredIsExp(y0, q, e - 1, p);
    EulersCriterion(y0, p);
    if a % p != 0 { EulersCriterion(a, p); }
    ExpRange(y0, q, p);
    ExpRange(a, q, p);
    MulCommutes(a, x, p);
    MulSquares(a, x, p);
    MulAssociates(a, a, Mul(x, x, p), p);
  }

  lemma HalfOrder(p: int, e: nat, q: nat)
    requires Shape(p, e, q) && p > 1
    ensures q * Pow2(e - 1) == (p - 1) / 2 && p > 2
  {
    assert Pow2(e) * q == 2 * (q * Pow2(e - 1));
    assert q * Pow2(e - 1) >= 1;
  }

  /** If `i` is least with b^(2^i) == 1, one step lowers the order of `b`. */
  lemma Approach(a: int, p: int, x: int, y: int, b: int, e: int, i: int)
    requires IsPrime(p) && p > 2 && Approaching(a, p, x, y, b, e)
    requires 1 <= i < e && Squared(b, i, p) == 1 && Squared(b, i - 1, p) != 1
    ensures var t := Squared(y, e - i - 1, p);
            var y' := Mul(t, t, p);
            Approaching(a, p, Mul(x, t, p), y', Mul(b, y', p), i)
  {
    hide IsPrime, IsSquare, Mul;
    var t := Squared(y, e - i - 1, p);
    var y' := Mul(t, t, p);
    assert y' == Squared(y, e - i, p);
    SquaredTwice(y, e - i, i - 1, p);
    SquaredRange(b, i - 1, p);
    RootsOfOne(Squared(b, i - 1, p), p);
    SquaredProduct(b, y', i - 1, p);
    MinusOneSquared(p);
    MulCommutes(t, t, p);
    MulCommutes(b, y', p);
    MulCommutes(x, t, p);
    MulAssociates(a, b, y', p);
    MulSquares(x, t, p);
  }

  lemma MinusOneSquared(p: int)
    requires p > 1
    ensures Mul(p - 1, p - 1, p) == 1
  {
    assert (p - 1) * (p - 1) == 1 + (p - 2) * p;
    ModPlus(1, p - 2, p);
  }

  /** The two nested loops, with `y` of order 2^e. */
  method Descend(a: int, p: int, x0: int, y0: int, b0: int, e0: int) returns (r: Root)
    requires IsPrime(p) && p > 2 && Approaching(a, p, x0, y0, b0, e0)
    ensures r.Found? || r == NotASquare
    ensures r.Found? ==> 0 <= r.x < p && Mul(r.x, r.x, p) == a % p
    ensures IsSquare(a, p) && a % p != 0 ==> r.Found?
    ensures a % p == 0 && b0 == 0 ==> r == NotASquare
  {
    hide IsPrime, IsSquare, Mul;
    var x, y, b, e := x0, y0, b0, e0;
    while true
      invariant Approaching(a, p, x, y, b, e)
      invariant a % p == 0 && b0 == 0 ==> b == 0
      decreases e
    {
      if b == 1 {
        TimesUnit(a, p);
        return Found(x);
      }
      var i := 1;
      var t := Mul(b, b, p);
      while t != 1
        invariant 1 <= i < e && t == Squared(b, i, p)
        invariant forall j :: 0 <= j < i ==> Squared(b, j, p) != 1
        decreases e - i
      {
        i := i + 1;
        if i == e {
          return NotASquare;
        }
        t := Mul(t, t, p);
      }
      Approach(a, p, x, y, b, e, i);
      t := y;
      var j := e - i - 1;
      while j > 0
        invariant 0 <= j <= e - i - 1 && t == Squared(y, e - i - 1 - j, p)
      {
        t := Mul(t, t, p);
        j := j - 1;
      }
      y := Mul(t, t, p);
      x := Mul(x, t, p);
      MulOne(y, p);
      b := Mul(b, y, p);
      e := i;
    }
  }

  /** The root finder. With p = 3 mod 4 it gives a root exactly for squares, and a root of the
      negative otherwise. With p = 1 mod 4 it panics unless p is general; then it gives a root
      exactly for rootable squares and an error otherwise. */
  method SqrtMod(a: int, p: int) returns (r: Root)
    requires IsPrime(p)
    ensures p % 4 != 1 ==> r.Found? && 0 <= r.x < p
    ensures p % 4 != 1 ==> Mul(r.x, r.x, p) == if IsSquare(a, p) then a % p else Negate(a, p)
    ensures p % 4 == 1 && !General(p) ==> r == GoPanic
    ensures p % 4 == 1 && General(p) && Rootable(a, p) ==> r.Found? && 0 <= r.x < p && Mul(r.x, r.x, p) == a % p
    ensures p % 4 == 1 && General(p) && !Rootable(a, p) ==> r == NotASquare
  {
    hide Mul, Exp, Negate, IsSquare, SmallNonResidue, Approaching;
    if p > 2 { OddPrime(p); }
    var e := SplitPowerOfTwo(p);
    if p > 2 { ShapeResidue(p, e, p / Pow2(e)); }
    if e == 1 {
      var q := p / 4 + 1;
      if p == 2 { RootModTwo(a); } else { EasyRoot(a, p); }
      return Found(Exp(a, q, p));
    } else if e == 2 {
      return GoPanic;
    }
    var y, failure := FindNonResidue(p);
    if !failure.Found? { return failure; }
    var q := p / Pow2(e);
    NoSquare(p, y);
    StartApproach(a, p, e, q, y);
    y := Exp(y, q, p);
    var t := q / 2;
    if BitLen(t) == 0 {
      return GoPanic;
    }
    var x := Exp(a, t, p);
    if a == 0 {
      ZeroIsSquare(0, p);
      TimesZero(0, p);
      return Found(0);
    }
    if a % p == 0 { ZeroIsSquare(a, p); ProductOfZero(a, Mul(x, x, p), p); }
    r := Descend(a, p, Mul(a, x, p), y, Mul(a, Mul(x, x, p), p), e);
    if r.Found? { RootIsRoot(r.x, a, p); }
  }

  lemma RootModTwo(a: int)
    ensures IsSquare(a, 2) && Exp(a, 1, 2) == a % 2 && Mul(Exp(a, 1, 2), Exp(a, 1, 2), 2) == a % 2
  {
    ExpFirst(a, 2);
    assert Mul(0, 0, 2) == 0 && Mul(1, 1, 2) == 1;
    assert Mul(a % 2, a % 2, 2) == a % 2;
  }

  lemma NoSquare(p: int, y: int)
    requires p > 0 && SmallNonResidue(p, y)
    ensures y % p != 0 && !IsSquare(y, p)
  {
  }

  lemma ProductOfZero(a: int, x: int, p: int)
    requires p > 0 && a % p == 0
    ensures Mul(a, x, p) == 0
  {
    MulReduce(a, x, p);
  }

  lemma RootIsRoot(x: int, a: int, p: int)
    requires p > 0 && 0 <= x < p && Mul(x, x, p) == a % p
    ensures IsSquare(a, p)
  {
  }

  // ---------------------------------------------------------------- points on the curve

  /** The right-hand side of the curve's equation: y^2 = x^3 + b. */
  function Cubic(x: int, b: int, p: int): int
    requires p > 0
  {
    (x * x * x + b) % p
  }

  lemma CubicSteps(x: int, b: int, p: int)
    requires p > 0
    ensures (Mul(Mul(x, x, p), x, p) + b) % p == Cubic(x, b, p)
  {
    MulReduce(x * x, x, p);
    ModPlus(Mul(x * x, x, p) + b, (x * x * x) / p, p);
    assert x * x * x + b == Mul(x * x, x, p) + b + ((x * x * x) / p) * p;
  }

  datatype Point = Point(x: int, y: int)

  /** The point over `x` whose second coordinate has the requested parity. Zero, the root of
      zero, is even whatever was requested. */
  method UncompressPoint(x: int, b: int, p: int, even: bool) returns (r: Root, point: Point)
    requires IsPrime(p) && p > 2
    ensures r.Found? ==> point.x == x && 0 <= point.y < p
    ensures r.Found? && point.y != 0 ==> (point.y % 2 == 0 <==> even)
    ensures (p % 4 == 3 || General(p)) && IsSquare(Cubic(x, b, p), p) ==>
              r.Found? && Mul(point.y, point.y, p) == Cubic(x, b, p)
    ensures r.Found? && !IsSquare(Cubic(x, b, p), p) ==> p % 4 == 3 && Mul(point.y, point.y, p) != Cubic(x, b, p)
    ensures General(p) && !IsSquare(Cubic(x, b, p), p) ==> r == NotASquare
    ensures p % 4 == 3 ==> r.Found? && (Mul(point.y, point.y, p) == Cubic(x, b, p) <==> IsSquare(Cubic(x, b, p), p))
  {
    hide IsSquare, Mul, Negate, General, Cubic, IsPrime;
    OddPrime(p);
    CubicSteps(x, b, p);
    if General(p) { GeneralResidue(p); }
    var y := (Mul(Mul(x, x, p), x, p) + b) % p;
    point := Point(x, 0);
    r := SqrtMod(y, p);
    if r.Found? {
      InRange(y, p);
      NegateTwice(r.x, p);
      MulNegate(r.x, r.x, p);
      if r.x != 0 { NegateParity(r.x, p); }
      if even != (r.x % 2 == 0) {
        point := Point(x, Negate(r.x, p));
      } else {
        point := Point(x, r.x);
      }
      if Mul(point.y, point.y, p) == y {
        PlainSquare(point.y, y, p);
      }
    }
  }

  lemma GeneralResidue(p: int)
    requires p > 1 && General(p)
    ensures p % 4 == 1
  {
    hide OddPart, HasSmallNonResidue;
  }

  lemma NegateParity(y: int, p: int)
    requires p % 2 == 1 && 0 < y < p
    ensures Negate(y, p) % 2 != y % 2 && 0 < Negate(y, p) < p
  {
    NegateTwice(y, p);
  }

  lemma PlainSquare(x: int, a: int, p: int)
    requires p > 0 && 0 <= x < p && 0 <= a < p && Mul(x, x, p) == a
    ensures IsSquare(a, p)
  {
  }

  // ---------------------------------------------------------------- inputs on which the promises fail

  lemma SmallPrimes()
    ensures IsPrime(3) && IsPrime(5) && IsPrime(17)
  {
  }

  /** Two is no square modulo three, yet a root is returned, and a point off the curve. */
  method BogusRoot() returns (r: Root, point: Point)
    ensures !IsSquare(2, 3) && r.Found? && Mul(r.x, r.x, 3) != 2
    ensures Cubic(0, 2, 3) == 2 && Mul(point.y, point.y, 3) != Cubic(point.x, 2, 3)
  {
    SmallPrimes();
    assert Mul(0, 0, 3) == 0 && Mul(1, 1, 3) == 1 && Mul(2, 2, 3) == 1;
    assert Negate(2, 3) == 1;
    r := SqrtMod(2, 3);
    var found;
    found, point := UncompressPoint(0, 2, 3, true);
  }

  /** Trial division up to the root suffices. */
  lemma PrimeByTrial(p: nat, n: nat)
    requires p >= 2 && (forall d :: 2 <= d <= n ==> p % d != 0) && p < (n + 1) * (n + 1)
    ensures IsPrime(p)
  {
    forall d | 2 <= d < p ensures p % d != 0 {
      if p % d == 0 && d > n {
        var k := p / d;
        assert p == d * k;
        CofactorSmall(p, d, k, n);
        DivModUnique(p, k, d, 0);
      }
    }
  }

  lemma CofactorSmall(p: nat, d: nat, k: int, n: nat)
    requires p == d * k && n < d < p && p < (n + 1) * (n + 1)
    ensures 2 <= k <= n
  {
    assert k >= n + 1 ==> d * k >= (n + 1) * (n + 1);
    assert k <= 0 ==> d * k <= 0;
    assert k == 1 ==> d * k == d;
  }

  const SMOOTH: int := 53881

  lemma SmoothTrial(d: int)
    requires 2 <= d <= 232
    ensures 53881 % d != 0
  {
  }

  lemma SmoothPrime()
    ensures IsPrime(SMOOTH) && SMOOTH % 8 == 1
  {
    forall d | 2 <= d <= 232 ensures 53881 % d != 0 {
      SmoothTrial(d);
    }
    PrimeByTrial(53881, 232);
  }

  /** Roots of the numbers from two up to twenty-one. */
  const ROOTS: seq<int> := [11740, 7899, 2, 12086, 5059, 3258, 23480, 3, 20967, 15239, 15798, 4935, 6590, 9818, 4, 5043, 18661, 10890, 24172, 20176]

  lemma SmoothRoots(y: int)
    requires 2 <= y < 22
    ensures |ROOTS| == 20 && 0 <= ROOTS[y - 2] < SMOOTH && Mul(ROOTS[y - 2], ROOTS[y - 2], SMOOTH) == y
  {
  }

  lemma NoSmallNonResidue()
    ensures !HasSmallNonResidue(SMOOTH)
  {
    hide ROOTS, Mul;
    forall y ensures !SmallNonResidue(SMOOTH, y) {
      if 2 <= y < 22 {
        SmoothRoots(y);
        InRange(y, SMOOTH);
      }
    }
  }

  /** Four and one are squares, yet these moduli lead to a panic: one is 5 modulo 8, one a power of
      two plus one, and modulo one all numbers below 22 are squares. */
  method Panics() returns (five: Root, seventeen: Root, smooth: Root)
    ensures IsSquare(4, 5) && five == GoPanic
    ensures IsSquare(1, 17) && seventeen == GoPanic
    ensures IsSquare(1, SMOOTH) && SMOOTH % 8 == 1 && !HasSmallNonResidue(SMOOTH) && smooth == GoPanic
  {
    SmallPrimes();
    assert Mul(2, 2, 5) == 4 && Mul(1, 1, 17) == 1;
    five := SqrtMod(4, 5);
    PowerOfTwo();
    seventeen := SqrtMod(1, 17);
    smooth := SmoothPanics();
  }

  method SmoothPanics() returns (r: Root)
    ensures IsSquare(1, SMOOTH) && SMOOTH % 8 == 1 && !HasSmallNonResidue(SMOOTH) && r == GoPanic
  {
    hide IsPrime, HasSmallNonResidue, OddPart;
    SmoothPrime();
    NoSmallNonResidue();
    assert Mul(1, 1, SMOOTH) == 1;
    r := SqrtMod(1, SMOOTH);
  }

  lemma PowerOfTwo()
    ensures OddPart(16) == 1
  {
    assert OddPart(16) == OddPart(8) == OddPart(4) == OddPart(2) == OddPart(1);
  }

  lemma PrimeFortyOne()
    ensures IsPrime(41)
  {
  }

  lemma FiveTimesEight()
    ensures OddPart(40) == 5
  {
    Halve(20);
    Halve(10);
    Halve(5);
    OddIsOdd(5);
  }

  lemma SomeProducts()
    ensures Mul(3, 3, 41) == 9 && Mul(9, 9, 41) == 40 && Mul(40, 40, 41) == 1 && Mul(1, 1, 41) == 1 && Mul(1, 40, 41) == 40
  {
  }

  /** Three to the power of twenty is minus one. */
  lemma PowerOfThree()
    ensures Exp(3, 20, 41) == 40
  {
    hide Mul, Exp;
    SomeProducts();
    ExpFirst(3, 41);
    ExpAdd(3, 2, 2, 41);
    ExpAdd(3, 4, 4, 41);
    ExpAdd(3, 8, 8, 41);
    ExpAdd(3, 16, 4, 41);
  }

  lemma ThreeModFortyOne()
    ensures SmallNonResidue(41, 3)
  {
    hide IsPrime, Exp, Mul, IsSquare;
    PrimeFortyOne();
    PowerOfThree();
    EulersCriterion(3, 41);
    NotSquared(3, 41);
  }

  lemma NotSquared(a: int, p: int)
    requires p > 0 && !IsSquare(a, p)
    ensures forall s :: 0 <= s < p ==> Mul(s, s, p) != a % p
  {
  }

  lemma FortyOne()
    ensures IsPrime(41) && General(41)
  {
    hide IsPrime, OddPart, SmallNonResidue;
    PrimeFortyOne();
    FiveTimesEight();
    ThreeModFortyOne();
  }

  /** A multiple of the modulus is a square, but its root is missed. */
  method MissedZero() returns (r: Root)
    ensures General(41) && IsSquare(41, 41) && r == NotASquare
  {
    FortyOne();
    assert Mul(0, 0, 41) == 0;
    r := SqrtMod(41, 41);
  }
}
