/** Money as text: reading amounts such as "mBTC 12.5" and writing them. */
module MoneyText {
  import opened Prelude
  import opened Amounts

  datatype Unit = Unit(symbol: string, currency: Currency, factor: int64, selectable: bool)

  const UNITS: seq<Unit> := [
    Unit("BTC", BTC, 100000000, true),
    Unit("mBTC", BTC, 100000, true),
    Unit("uBTC", BTC, 100, true),
    Unit("satoshi", BTC, 1, false),
    Unit("EUR", EUR, 1000000000, true),
    Unit("€", EUR, 1000000000, false),
    Unit("USD", USD, 1000000000, true),
    Unit("$", USD, 1000000000, false),
    Unit("BRL", BRL, 1000000000, true),
    Unit("R$", BRL, 1000000000, false),
    Unit("GBP", GBP, 1000000000, true),
    Unit("£", GBP, 1000000000, false)]

  function Find(symbol: string, units: seq<Unit>): (r: Option<Unit>)
    ensures r.Some? ==> r.value in units && r.value.symbol == symbol
  {
    if units == [] then None
    else if units[0].symbol == symbol then Some(units[0])
    else Find(symbol, units[1..])
  }

  function Pow10(k: nat): (r: nat)
    ensures r >= 1
  {
    if k == 0 then 1 else 10 * Pow10(k - 1)
  }

  /** How many decimal places a unit has. */
  function Places(u: Unit): nat {
    if u.factor == 1 then 0 else if u.factor == 100 then 2 else if u.factor == 100000 then 5
    else if u.factor == 100000000 then 8 else 9
  }

  lemma UnitFactor(u: Unit)
    requires u in UNITS
    ensures u.factor == Pow10(Places(u))
    ensures Places(u) <= 9
  {
    Powers();
  }

  lemma Powers()
    ensures Pow10(0) == 1 && Pow10(1) == 10 && Pow10(2) == 100 && Pow10(3) == 1000 && Pow10(4) == 10000
    ensures Pow10(5) == 100000 && Pow10(6) == 1000000 && Pow10(7) == 10000000 && Pow10(8) == 100000000
    ensures Pow10(9) == 1000000000
    ensures Pow10(17) == 100000000000000000 && Pow10(18) == 1000000000000000000
  {
    assert Pow10(6) == 10 * Pow10(5);
    assert Pow10(12) == 10 * 10 * 10 * Pow10(9);
    assert Pow10(15) == 10 * 10 * 10 * Pow10(12);
    assert Pow10(18) == 10 * Pow10(17) && Pow10(17) == 10 * Pow10(16) && Pow10(16) == 10 * Pow10(15);
  }

  lemma {:induction false} Pow10Add(a: nat, b: nat)
    ensures Pow10(a + b) == Pow10(a) * Pow10(b)
  {
    if a > 0 {
      Pow10Add(a - 1, b);
      assert Pow10(a + b) == 10 * Pow10(a - 1 + b);
    }
  }

  lemma {:induction false} Pow10Monotone(a: nat, b: nat)
    requires a <= b
    ensures Pow10(a) <= Pow10(b)
    ensures a < b ==> 10 * Pow10(a) <= Pow10(b)
  {
    if a < b { Pow10Monotone(a, b - 1); }
  }

  // ---------------------------------------------------------------- digits

  predicate IsDigit(c: char) {
    '0' <= c <= '9'
  }

  function DigitValue(c: char): int {
    c as int - '0' as int
  }

  function DigitChar(d: int): (c: char)
    requires 0 <= d < 10
    ensures IsDigit(c) && DigitValue(c) == d
  {
    ('0' as int + d) as char
  }

  predicate AllDigits(s: string) {
    forall i :: 0 <= i < |s| ==> IsDigit(s[i])
  }

  /** The value of a numeral. */
  function Number(s: string): (n: nat)
    requires AllDigits(s)
  {
    if s == [] then 0 else 10 * Number(s[..|s| - 1]) + DigitValue(s[|s| - 1])
  }

  /** The value of the digits after the point, in units of the k-th place. */
  function Fraction(s: string, k: nat): (n: nat)
    requires AllDigits(s) && |s| <= k
  {
    if s == [] then 0 else DigitValue(s[0]) * Pow10(k - 1) + Fraction(s[1..], k - 1)
  }

  lemma {:induction false} NumberBelow(s: string)
    requires AllDigits(s)
    ensures Number(s) < Pow10(|s|)
  {
    if s != [] { NumberBelow(s[..|s| - 1]); }
  }

  lemma {:induction false} FractionBelow(s: string, k: nat)
    requires AllDigits(s) && |s| <= k
    ensures Fraction(s, k) < Pow10(k)
  {
    if s == [] {
      assert Fraction(s, k) == 0;
    } else {
      FractionBelow(s[1..], k - 1);
      hide Fraction;
      FirstPlace(DigitValue(s[0]), Pow10(k - 1), Fraction(s[1..], k - 1));
    }
  }

  lemma FirstPlace(d: int, p: int, rest: int)
    requires 0 <= d <= 9 && 0 <= rest < p
    ensures d * p + rest < 10 * p
  {
    assert d * p <= 9 * p;
  }

  // ---------------------------------------------------------------- reading

  datatype MoneyError = NoMatch | UnknownUnit | TooManyFractional | TooManyIntegral

  datatype Outcome<+T> = Done(value: T) | Refused(error: MoneyError) {
    predicate IsFailure() {
      Refused?
    }

    function PropagateFailure<U>(): Outcome<U>
      requires Refused?
    {
      Refused(error)
    }

    function Extract(): T
      requires Done?
    {
      value
    }
  }

  datatype Groups = Groups(symbol: string, negative: bool, integral: string, fractional: string)

  predicate IsSymbol(c: char) {
    'A' <= c <= 'Z' || 'a' <= c <= 'z' || c == '€' || c == '$' || c == '£'
  }

  /** How many leading characters are symbol characters. */
  function SymbolRun(s: string): (k: nat)
    ensures k <= |s| && (forall i :: 0 <= i < k ==> IsSymbol(s[i]))
    ensures k < |s| ==> !IsSymbol(s[k])
  {
    if s != [] && IsSymbol(s[0]) then 1 + SymbolRun(s[1..]) else 0
  }

  function DigitRun(s: string): (k: nat)
    ensures k <= |s| && AllDigits(s[..k])
    ensures k < |s| ==> !IsDigit(s[k])
  {
    if s != [] && IsDigit(s[0]) then 1 + DigitRun(s[1..]) else 0
  }

  datatype Numerals = Numerals(integral: string, fractional: string)

  /** An integral part, and an optional point followed by a fractional part. */
  function MatchNumerals(s: string): (r: Option<Numerals>)
    ensures r.Some? ==> AllDigits(r.value.integral) && AllDigits(r.value.fractional) && r.value.integral != []
  {
    var m := DigitRun(s);
    var rest := s[m..];
    if m == 0 then None
    else if rest == [] then Some(Numerals(s[..m], []))
    else if rest[0] == '.' && |rest| > 1 && AllDigits(rest[1..]) then Some(Numerals(s[..m], rest[1..]))
    else None
  }

  /** The groups of the pattern: a symbol, an optional space, an optional minus, and numerals. */
  function Match(s: string): (r: Option<Groups>)
    ensures r.Some? ==> AllDigits(r.value.integral) && AllDigits(r.value.fractional) && r.value.integral != []
  {
    var n := SymbolRun(s);
    var s1 := if n < |s| && s[n] == ' ' then s[n + 1..] else s[n..];
    var negative := s1 != [] && s1[0] == '-';
    var numerals := MatchNumerals(if negative then s1[1..] else s1);
    if n == 0 || numerals.None? then None
    else Some(Groups(s[..n], negative, numerals.value.integral, numerals.value.fractional))
  }

  /** The exact decimal value that a matching text denotes, or why it is refused. */
  function Reading(s: string): Outcome<Money> {
    match Match(s)
    case None => Refused(NoMatch)
    case Some(g) =>
      match Find(g.symbol, UNITS)
      case None => Refused(UnknownUnit)
      case Some(u) =>
        if |g.fractional| > Places(u) then Refused(TooManyFractional)
        else if |g.integral| + Places(u) > 17 then Refused(TooManyIntegral)
        else Done(Amount(g, u))
  }

  function Amount(g: Groups, u: Unit): Money
    requires u in UNITS && AllDigits(g.integral) && AllDigits(g.fractional)
    requires |g.fractional| <= Places(u) && |g.integral| + Places(u) <= 17
  {
    AmountBelow(g.integral, g.fractional, Places(u));
    var v := Value(g.integral, g.fractional, Places(u));
    Money(if g.negative then 0 - v else v, u.currency)
  }

  /** The number of smallest units that a decimal numeral stands for. */
  function Value(integral: string, fractional: string, k: nat): nat
    requires AllDigits(integral) && AllDigits(fractional) && |fractional| <= k
  {
    Number(integral) * Pow10(k) + Fraction(fractional, k)
  }

  lemma BelowProduct(n: nat, d: nat, p: nat, f: nat)
    requires n < d && f < p
    ensures n * p + f < d * p
  {
    assert (n + 1) * p <= d * p;
  }

  /** Accepted amounts are below 10^17. */
  lemma AmountBelow(integral: string, fractional: string, k: nat)
    requires AllDigits(integral) && AllDigits(fractional) && |fractional| <= k
    ensures Value(integral, fractional, k) < Pow10(|integral| + k)
    ensures |integral| + k <= 17 ==> Value(integral, fractional, k) < Pow10(17)
    ensures Pow10(17) < MAX64
  {
    hide Pow10, Number, Fraction;
    NumberBelow(integral);
    FractionBelow(fractional, k);
    BelowProduct(Number(integral), Pow10(|integral|), Pow10(k), Fraction(fractional, k));
    Pow10Add(|integral|, k);
    if |integral| + k <= 17 { Pow10Monotone(|integral| + k, 17); }
    Powers();
  }

  /** Reads an amount. All arithmetic stays within int64. */
  method Parse(s: string) returns (r: Outcome<Money>)
    ensures r == Reading(s)
  {
    hide Places, Find, Match, Value, UNITS, Fraction, Number, Pow10, AllDigits;
    var groups := Match(s);
    if groups.None? { return Refused(NoMatch); }
    var g := groups.value;
    var found := Find(g.symbol, UNITS);
    if found.None? { return Refused(UnknownUnit); }
    var unit := found.value;
    UnitFactor(unit);
    var fraction :- ParseFractional(unit, g.fractional);
    var result :- ParseIntegral(unit.factor, Places(unit), g.integral, g.fractional, fraction);
    AmountBelow(g.integral, g.fractional, Places(unit));
    var sign: int64 := 1;
    if g.negative { sign := -1; }
    return Done(Money(sign * result, unit.currency));
  }

  method ParseFractional(unit: Unit, fractional: string) returns (r: Outcome<int64>)
    requires unit in UNITS && AllDigits(fractional)
    ensures r == if |fractional| > Places(unit) then Refused(TooManyFractional) else Done(Fraction(fractional, Places(unit)))
    ensures r.Done? ==> 0 <= r.value < unit.factor
  {
    hide Places, Pow10, Fraction;
    ghost var k := Places(unit);
    UnitFactor(unit);
    Powers();
    Pow10Monotone(k, 9);
    var result: int64 := 0;
    var base, i := unit.factor, 0;
    NoFraction(fractional, k);
    while i < |fractional|
      invariant 0 <= i <= |fractional| && i <= k && base == Pow10(k - i)
      invariant 0 <= result < Pow10(k) && result == Fraction(fractional[..i], k)
    {
      FractionSnoc(fractional, i, k);
      base := base / 10;
      if base == 0 { return Refused(TooManyFractional); }
      result := result + base * DigitValue(fractional[i]);
      i := i + 1;
    }
    assert fractional[..i] == fractional;
    return Done(result);
  }

  lemma NoFraction(s: string, k: nat)
    requires AllDigits(s)
    ensures Fraction(s[..0], k) == 0
  {
  }

  /** The next digit after the point. */
  lemma FractionSnoc(s: string, i: nat, k: nat)
    requires AllDigits(s) && i < |s| && i <= k
    ensures Pow10(k - i) / 10 == if i < k then Pow10(k - i - 1) else 0
    ensures i < k ==> Fraction(s[..i + 1], k) == Fraction(s[..i], k) + Pow10(k - i - 1) * DigitValue(s[i])
    ensures i < k ==> Fraction(s[..i + 1], k) < Pow10(k)
  {
    if i < k {
      FractionAppend(s[..i], s[i], k);
      assert s[..i] + [s[i]] == s[..i + 1];
      FractionBelow(s[..i + 1], k);
    }
  }

  lemma {:induction false} FractionAppend(s: string, c: char, k: nat)
    requires AllDigits(s + [c]) && AllDigits(s) && |s| < k
    ensures Fraction(s + [c], k) == Fraction(s, k) + Pow10(k - |s| - 1) * DigitValue(c)
  {
    hide Pow10;
    if s == [] {
      assert [c][1..] == [];
      assert s + [c] == [c];
    } else {
      assert (s + [c])[1..] == s[1..] + [c];
      assert AllDigits(s[1..] + [c]);
      FractionAppend(s[1..], c, k - 1);
    }
  }

  method ParseIntegral(factor: int64, ghost k: nat, integral: string, ghost fractional: string, fraction: int64)
    returns (r: Outcome<int64>)
    requires factor == Pow10(k) && k <= 9 && AllDigits(integral) && AllDigits(fractional) && |fractional| <= k
    requires fraction == Fraction(fractional, k) && 0 <= fraction < factor
    ensures |integral| + k > 17 ==> r == Refused(TooManyIntegral)
    ensures |integral| + k <= 17 ==> r.Done? && r.value == Value(integral, fractional, k)
  {
    hide Places, Pow10, Fraction, Number, Summed, Value, UNITS, IsDigit, DigitValue;
    var result: int64, base: int64, i: int := fraction, factor, |integral| - 1;
    StartSum(factor, k, integral, fraction);
    while i >= 0
      invariant -1 <= i < |integral|
      invariant Summed(result, base, fraction, k, integral[i + 1..])
    {
      SumNext(result, base, fraction, k, integral, i);
      var digit := DigitValue(integral[i]);
      TimesDigit(base, digit);
      result := result + base * digit;
      base := base * 10;
      if base >= 1000000000000000000 {
        return Refused(TooManyIntegral);
      }
      i := i - 1;
    }
    assert integral[0..] == integral;
    SumDone(result, base, fraction, k, integral, fractional);
    return Done(result);
  }

  /** The sum after the digits of `suffix`, and the value of the next digit's place. */
  ghost predicate Summed(result: int, base: int, fraction: int, k: nat, suffix: string) {
    && AllDigits(suffix)
    && |suffix| + k <= 17
    && base == Pow10(k + |suffix|)
    && 0 <= result < base
    && result == fraction + Pow10(k) * Number(suffix)
  }

  lemma StartSum(factor: int, k: nat, integral: string, fraction: int)
    requires factor == Pow10(k) && k <= 9 && AllDigits(integral) && 0 <= fraction < factor
    ensures Summed(fraction, factor, fraction, k, integral[|integral|..])
  {
    NoNumber(integral);
  }

  lemma SumDone(result: int, base: int, fraction: int, k: nat, integral: string, fractional: string)
    requires Summed(result, base, fraction, k, integral)
    requires AllDigits(fractional) && |fractional| <= k && fraction == Fraction(fractional, k)
    ensures |integral| + k <= 17 && result == Value(integral, fractional, k)
  {
    hide Pow10, Number, Fraction;
  }

  lemma TimesDigit(base: int, d: int)
    requires base > 0 && 0 <= d <= 9
    ensures 0 <= base * d <= base * 9
  {
  }

  lemma SumNext(result: int, base: int, fraction: int, k: nat, s: string, i: nat)
    requires AllDigits(s) && i < |s| && Summed(result, base, fraction, k, s[i + 1..])
    ensures 0 <= DigitValue(s[i]) <= 9 && 0 < base <= 100000000000000000 && 0 <= result < base
    ensures base * 10 >= 1000000000000000000 ==> |s| + k > 17
    ensures base * 10 < 1000000000000000000 ==> Summed(result + base * DigitValue(s[i]), base * 10, fraction, k, s[i..])
  {
    hide Pow10, Number;
    var n := |s| - 1 - i;
    NumberNext(s, i, k, n);
    Powers();
    Pow10Monotone(k + n, 17);
    assert base * 10 == Pow10(k + n + 1) by { Pow10Add(1, k + n); }
    TimesDigit(base, DigitValue(s[i]));
    assert s[i..] == [s[i]] + s[i + 1..];
    if base * 10 >= 1000000000000000000 { TooMany(k + n); } else { NotTooMany(k + n + 1); }
  }

  lemma NoNumber(s: string)
    requires AllDigits(s)
    ensures Number(s[|s|..]) == 0
  {
  }

  lemma TooMany(n: nat)
    requires n <= 17 && 10 * Pow10(n) >= Pow10(18)
    ensures n >= 17
  {
    hide Pow10;
    if n < 17 {
      Pow10Monotone(n, 16);
      Powers();
      Pow10Monotone(16, 17);
    }
  }

  lemma NotTooMany(n: nat)
    requires n <= 18 && Pow10(n) < Pow10(18)
    ensures n <= 17 && Pow10(n) <= Pow10(17)
  {
    hide Pow10;
    Pow10Monotone(n, if n <= 17 then 17 else n);
  }

  /** The next digit to the left. */
  lemma NumberNext(s: string, i: nat, k: nat, n: nat)
    requires AllDigits(s) && i < |s| && n == |s| - 1 - i
    ensures Pow10(k) * Number(s[i..]) == Pow10(k) * Number(s[i + 1..]) + Pow10(k + n) * DigitValue(s[i])
  {
    hide Pow10, Number;
    NumberPrepend(s[i], s[i + 1..]);
    assert [s[i]] + s[i + 1..] == s[i..];
    Pow10Add(k, n);
    Distribute(Pow10(k), Pow10(n), DigitValue(s[i]), Number(s[i + 1..]));
  }

  lemma Distribute(p: int, q: int, d: int, n: int)
    ensures p * (q * d + n) == p * n + (p * q) * d
  {
    assert p * (q * d) == (p * q) * d;
  }

  lemma {:induction false} NumberPrepend(c: char, s: string)
    requires AllDigits(s) && IsDigit(c)
    ensures AllDigits([c] + s)
    ensures Number([c] + s) == Pow10(|s|) * DigitValue(c) + Number(s)
  {
    if s == [] {
      assert [c] + s == [c];
      assert [c][..0] == [];
    } else {
      var n := |s| - 1;
      assert ([c] + s)[..n + 1] == [c] + s[..n];
      NumberPrepend(c, s[..n]);
      assert Pow10(|s|) == 10 * Pow10(n);
      Distribute(10, Pow10(n), DigitValue(c), Number(s[..n]));
    }
  }

  // ---------------------------------------------------------------- writing

  /** A number in decimal, without leading zeros. */
  function Numeral(n: nat): (s: string)
    ensures s != []
  {
    if n < 10 then [DigitChar(n)] else Numeral(n / 10) + [DigitChar(n % 10)]
  }

  lemma Division(v: nat, p: nat)
    requires p > 0
    ensures v / p >= 0 && 0 <= v % p < p && (v / p) * p + v % p == v
  {
  }

  lemma LeadingDigit(frac: nat, b: nat)
    requires b > 0 && frac < 10 * b
    ensures 0 <= frac / b < 10 && 0 <= frac % b < b
  {
    Division(frac, b);
  }

  function Shown(n: int): string {
    if n < 0 then "-" + Numeral(0 - n) else Numeral(n)
  }

  /** The digits after the point, without trailing zeros. */
  function Tail(frac: nat, k: nat): string
    requires frac < Pow10(k)
    decreases k
  {
    if k == 0 || frac == 0 then []
    else
      LeadingDigit(frac, Pow10(k - 1));
      [DigitChar(frac / Pow10(k - 1))] + Tail(frac % Pow10(k - 1), k - 1)
  }

  /** The part before the point, and what is left for the part after it. */
  function Whole(v: nat, k: nat): (n: nat) {
    Division(v, Pow10(k));
    v / Pow10(k)
  }

  function Rest(v: nat, k: nat): (n: nat)
    ensures n < Pow10(k) && Whole(v, k) * Pow10(k) + n == v
  {
    Division(v, Pow10(k));
    v % Pow10(k)
  }

  /** An amount of `v` smallest units, written with up to `k` decimal places. */
  function Written(v: nat, k: nat): string {
    Numeral(Whole(v, k)) + if Rest(v, k) == 0 then [] else "." + Tail(Rest(v, k), k)
  }

  /** A positive amount is written exactly. Of the one amount that stays negative when negated,
      only the truncated integral part is written. */
  function WrittenAmount(v: int64, k: nat): string {
    if v >= 0 then Written(v, k)
    else Shown(0 - Whole(0 - v, k)) + if Rest(0 - v, k) == 0 then [] else "."
  }

  function Text(m: Money, u: Unit, includeSymbol: bool): string {
    var v := if m.amount < 0 then Wrap(0 - m.amount) else m.amount;
    (if includeSymbol then u.symbol + " " else []) + (if m.amount < 0 then "-" else []) + WrittenAmount(v, Places(u))
  }

  lemma {:induction false} NumeralNumber(n: nat)
    ensures AllDigits(Numeral(n)) && Number(Numeral(n)) == n
  {
    if n < 10 {
      assert [DigitChar(n)][..0] == [];
    } else {
      NumeralNumber(n / 10);
      assert Numeral(n)[..|Numeral(n)| - 1] == Numeral(n / 10);
    }
  }

  /** A numeral has no more digits than it needs. */
  lemma {:induction false} NumeralLength(n: nat, d: nat)
    requires d >= 1
    ensures |Numeral(n)| <= d <==> n < Pow10(d)
  {
    if n < 10 {
      Pow10Monotone(1, d);
      assert Pow10(1) == 10;
    } else if d == 1 {
      assert Pow10(1) == 10;
    } else {
      NumeralLength(n / 10, d - 1);
    }
  }

  lemma {:induction false} TailFraction(frac: nat, k: nat)
    requires frac < Pow10(k)
    ensures AllDigits(Tail(frac, k)) && |Tail(frac, k)| <= k && Fraction(Tail(frac, k), k) == frac
    ensures Tail(frac, k) == [] <==> frac == 0
    decreases k
  {
    if k > 0 && frac > 0 {
      var b := Pow10(k - 1);
      Division(frac, b);
      TailFraction(frac % b, k - 1);
      assert Tail(frac, k)[1..] == Tail(frac % b, k - 1);
    }
  }

  /** The text of an amount has the groups it was made from. */
  lemma MatchText(symbol: string, negative: bool, integral: string, fractional: string)
    requires symbol != [] && (forall i :: 0 <= i < |symbol| ==> IsSymbol(symbol[i]))
    requires integral != [] && AllDigits(integral) && AllDigits(fractional)
    ensures Match(symbol + " " + (if negative then "-" else []) + (integral + if fractional == [] then [] else "." + fractional))
         == Some(Groups(symbol, negative, integral, fractional))
  {
    hide SymbolRun, MatchNumerals, AllDigits;
    var s2 := integral + if fractional == [] then [] else "." + fractional;
    var s1 := (if negative then "-" else []) + s2;
    var s := symbol + " " + (if negative then "-" else []) + s2;
    assert s == symbol + (" " + s1);
    AfterSymbol(symbol, s1);
    NumeralsText(integral, fractional);
    if negative { assert s1[1..] == s2; } else { assert s1 == s2; }
  }

  lemma NumeralsText(integral: string, fractional: string)
    requires integral != [] && AllDigits(integral) && AllDigits(fractional)
    ensures var s := integral + if fractional == [] then [] else "." + fractional;
            MatchNumerals(s) == Some(Numerals(integral, fractional)) && s[0] != '-'
  {
    hide DigitRun;
    var rest := if fractional == [] then [] else "." + fractional;
    var s := integral + rest;
    DigitRunOf(integral, rest);
    assert IsDigit(s[0]);
    assert s[..|integral|] == integral;
    assert s[|integral|..] == rest;
    if fractional != [] { assert rest[1..] == fractional; }
  }

  lemma {:induction false} SymbolRunOf(a: string, b: string)
    requires (forall i :: 0 <= i < |a| ==> IsSymbol(a[i])) && b != [] && !IsSymbol(b[0])
    ensures SymbolRun(a + b) == |a|
  {
    if a == [] {
      assert a + b == b;
    } else {
      assert (a + b)[1..] == a[1..] + b;
      SymbolRunOf(a[1..], b);
    }
  }

  lemma {:induction false} DigitRunOf(a: string, b: string)
    requires AllDigits(a) && (b == [] || !IsDigit(b[0]))
    ensures DigitRun(a + b) == |a|
  {
    if a == [] {
      assert a + b == b;
    } else {
      assert (a + b)[1..] == a[1..] + b;
      DigitRunOf(a[1..], b);
    }
  }

  lemma NoNumerals(s: string)
    requires s != [] && !IsDigit(s[0])
    ensures MatchNumerals(s).None?
  {
  }

  /** Two minus signs match nothing. */
  lemma MatchTwoSigns(symbol: string, rest: string)
    requires symbol != [] && (forall i :: 0 <= i < |symbol| ==> IsSymbol(symbol[i]))
    ensures Match(symbol + " " + "-" + ("-" + rest)).None?
  {
    hide SymbolRun, MatchNumerals;
    var s2 := "-" + rest;
    var s1 := "-" + s2;
    assert symbol + " " + "-" + s2 == symbol + (" " + s1);
    AfterSymbol(symbol, s1);
    assert s1[1..] == s2;
    NoNumerals(s2);
  }

  lemma AfterSymbol(symbol: string, s1: string)
    requires forall i :: 0 <= i < |symbol| ==> IsSymbol(symbol[i])
    ensures var s := symbol + (" " + s1);
      SymbolRun(s) == |symbol| && s[|symbol|] == ' ' && s[|symbol| + 1..] == s1 && s[..|symbol|] == symbol
  {
    hide SymbolRun;
    SymbolRunOf(symbol, " " + s1);
  }

  lemma UnitSymbol(u: Unit)
    requires u in UNITS
    ensures u.symbol != [] && (forall i :: 0 <= i < |u.symbol| ==> IsSymbol(u.symbol[i]))
  {
  }

  /** Symbols differ in their length, their first, or their last character. */
  predicate Marked(i: nat, length: int, first: char, last: char)
    requires i < |UNITS|
  {
    |UNITS[i].symbol| == length >= 1 && UNITS[i].symbol[0] == first && UNITS[i].symbol[length - 1] == last
  }

  lemma Marks()
    ensures |UNITS| == 12
    ensures Marked(0, 3, 'B', 'C') && Marked(1, 4, 'm', 'C') && Marked(2, 4, 'u', 'C') && Marked(3, 7, 's', 'i')
    ensures Marked(4, 3, 'E', 'R') && Marked(5, 1, '€', '€') && Marked(6, 3, 'U', 'D') && Marked(7, 1, '$', '$')
    ensures Marked(8, 3, 'B', 'L') && Marked(9, 2, 'R', '$') && Marked(10, 3, 'G', 'P') && Marked(11, 1, '£', '£')
  {
  }

  lemma SymbolsDiffer(i: nat, j: nat)
    requires i < j < |UNITS|
    ensures UNITS[i].symbol != UNITS[j].symbol
  {
    Marks();
    hide UNITS;
  }

  lemma {:induction false} FindAt(units: seq<Unit>, i: nat)
    requires i < |units| && forall j :: 0 <= j < i ==> units[j].symbol != units[i].symbol
    ensures Find(units[i].symbol, units) == Some(units[i])
  {
    if i > 0 {
      assert units[0].symbol != units[i].symbol;
      FindAt(units[1..], i - 1);
    }
  }

  lemma UnitFound(u: Unit)
    requires u in UNITS
    ensures Find(u.symbol, UNITS) == Some(u)
  {
    hide Find, UNITS;
    var i :| 0 <= i < |UNITS| && UNITS[i] == u;
    forall j | 0 <= j < i ensures UNITS[j].symbol != UNITS[i].symbol {
      SymbolsDiffer(j, i);
    }
    FindAt(UNITS, i);
  }

  lemma WholeDigits(v: nat, k: nat)
    requires k <= 9
    ensures |Numeral(Whole(v, k))| + k <= 17 <==> v < Pow10(17)
  {
    hide Pow10, Numeral, Whole;
    NumeralLength(Whole(v, k), 17 - k);
    Pow10Add(17 - k, k);
    var n, p, d := Whole(v, k), Pow10(k), Pow10(17 - k);
    assert v == n * p + Rest(v, k);
    if n < d { BelowProduct(n, d, p, Rest(v, k)); } else { assert n * p >= d * p; }
  }

  /** What is read from the text of a non-negative number of smallest units. */
  lemma ReadWritten(v: nat, negative: bool, u: Unit)
    requires u in UNITS && v <= MAX64
    ensures var s := u.symbol + " " + (if negative then "-" else []) + Written(v, Places(u));
      && (v < Pow10(17) ==> Reading(s) == Done(Money(if negative then 0 - v else v, u.currency)))
      && (v >= Pow10(17) ==> Reading(s) == Refused(TooManyIntegral))
  {
    hide Pow10, Numeral, Tail, UNITS, Places, Match, Find, Whole, Number, Fraction;
    var k := Places(u);
    var integral, fractional := Numeral(Whole(v, k)), Tail(Rest(v, k), k);
    UnitFactor(u);
    UnitSymbol(u);
    UnitFound(u);
    NumeralNumber(Whole(v, k));
    TailFraction(Rest(v, k), k);
    MatchText(u.symbol, negative, integral, fractional);
    WholeDigits(v, k);
  }

  /** Reading what was written gives the amount back exactly if it is below 10^17; otherwise
      the text is refused. */
  lemma RoundTrip(m: Money, u: Unit)
    requires u in UNITS && m.currency == u.currency
    ensures 0 - Pow10(17) < m.amount < Pow10(17) ==> Reading(Text(m, u, true)) == Done(m)
    ensures !(0 - Pow10(17) < m.amount < Pow10(17)) ==> Reading(Text(m, u, true)).Refused?
  {
    hide Pow10, UNITS, Places, Written, Reading;
    if m.amount == MIN64 {
      assert Wrap(0 - m.amount) == MIN64;
      MinimumRefused(u);
      Powers();
    } else {
      var v := if m.amount < 0 then 0 - m.amount else m.amount;
      ReadWritten(v, m.amount < 0, u);
    }
  }

  /** A billion bitcoins can be written but not read. */
  lemma TooMuchToRead()
    ensures Reading(Text(Money(100_000_000_000_000_000, BTC), UNITS[0], true)).Refused?
  {
    hide Reading, Text, Pow10;
    Powers();
    RoundTrip(Money(100_000_000_000_000_000, BTC), UNITS[0]);
  }

  /** Nothing of 10^17 or more is ever accepted. */
  lemma AcceptedRange(s: string)
    requires Reading(s).Done?
    ensures 0 - Pow10(17) < Reading(s).value.amount < Pow10(17)
  {
    hide Pow10, UNITS, Places, Match, Find, Value;
    var g := Match(s).value;
    var u := Find(g.symbol, UNITS).value;
    AmountBelow(g.integral, g.fractional, Places(u));
  }

  lemma MinimumWhole(k: nat)
    requires k <= 9
    ensures Whole(0 - MIN64, k) > 0
  {
    Pow10Monotone(k, 9);
    Powers();
    assert Rest(0 - MIN64, k) < Pow10(k);
  }

  lemma MinimumRefused(u: Unit)
    requires u in UNITS
    ensures Reading(Text(Money(MIN64, u.currency), u, true)).Refused?
  {
    hide Pow10, UNITS, Places, Written, Match, Numeral, Whole;
    UnitSymbol(u);
    var k := Places(u);
    assert Wrap(0 - MIN64) == MIN64;
    var rest := Numeral(Whole(0 - MIN64, k)) + if Rest(0 - MIN64, k) == 0 then [] else ".";
    MatchTwoSigns(u.symbol, rest);
    UnitFactor(u);
    assert Whole(0 - MIN64, k) > 0 by { MinimumWhole(k); }
    assert WrittenAmount(MIN64, k) == "-" + rest;
  }

  /** Go's truncating quotient, and what is left. */
  method Divide(v: int64, f: int64) returns (intPart: int, fracPart: int)
    requires f >= 1
    ensures v >= 0 ==> intPart == v / f && fracPart == v % f
    ensures v < 0 ==> intPart == 0 - (0 - v) / f && fracPart == 0 - (0 - v) % f
  {
    if v >= 0 { Division(v, f); } else { Division(0 - v, f); }
    intPart := if v >= 0 then v / f else 0 - (0 - v) / f;
    fracPart := v - intPart * f;
    Cancels(0 - v, (0 - v) / f, f);
  }

  lemma Cancels(v: int, q: int, f: int)
    ensures (0 - q) * f == 0 - q * f
  {
  }

  method FormatAmount(v: int64, f: int64, ghost k: nat) returns (result: string)
    requires f == Pow10(k)
    ensures result == WrittenAmount(v, k)
  {
    hide Pow10, Numeral, Tail;
    var intPart, fracPart := Divide(v, f);
    result := Shown(intPart);
    if fracPart == 0 { return; }
    result := AppendFraction(result + ".", fracPart, f, k);
  }

  method AppendFraction(head: string, frac: int, f: int64, ghost k: nat) returns (result: string)
    requires f == Pow10(k) && frac < f
    ensures result == if frac < 0 then head else head + Tail(frac, k)
  {
    hide Pow10, Tail, PlaceValue;
    result := head;
    var b: int, fracPart: int := f / 10, frac;
    ghost var j: nat := k;
    NextPlace(k);
    while b > 0 && fracPart > 0
      invariant 0 <= j <= k && b == PlaceValue(j)
      invariant frac < 0 ==> fracPart < 0 && result == head
      invariant frac >= 0 ==> 0 <= fracPart < Pow10(j) && result + Tail(fracPart, j) == head + Tail(frac, k)
      decreases j
    {
      TailStep(fracPart, j);
      var digit := fracPart / b;
      result := result + [DigitChar(digit)];
      fracPart := fracPart - digit * b;
      b := b / 10;
      j := j - 1;
    }
    if frac >= 0 { TailEnd(fracPart, j); }
  }

  /** The loop variable that runs through the decimal places. */
  ghost function PlaceValue(j: nat): nat {
    if j == 0 then 0 else Pow10(j - 1)
  }

  lemma NextPlace(j: nat)
    ensures Pow10(j) / 10 == PlaceValue(j)
  {
  }

  lemma TailStep(frac: nat, j: nat)
    requires 0 < frac < Pow10(j) && PlaceValue(j) > 0
    ensures j > 0
    ensures var b := PlaceValue(j);
      && 0 <= frac / b < 10 && 0 <= frac - (frac / b) * b < Pow10(j - 1) && b / 10 == PlaceValue(j - 1)
      && Tail(frac, j) == [DigitChar(frac / b)] + Tail(frac - (frac / b) * b, j - 1)
  {
    LeadingDigit(frac, Pow10(j - 1));
    Division(frac, Pow10(j - 1));
    NextPlace(j - 1);
  }

  lemma TailEnd(frac: nat, j: nat)
    requires frac < Pow10(j) && (PlaceValue(j) == 0 || frac == 0)
    ensures Tail(frac, j) == []
  {
  }

  /** Writes an amount in a given unit. Go panics when the currencies differ. */
  method Format(m: Money, unit: Unit, includeSymbol: bool) returns (r: Option<string>)
    requires unit in UNITS
    ensures r == if m.currency == unit.currency then Some(Text(m, unit, includeSymbol)) else None
  {
    hide Pow10, WrittenAmount, UNITS, Places;
    if m.currency != unit.currency { return None; }
    UnitFactor(unit);
    var v := m.amount;
    var sign := [];
    if v < 0 {
      v := Wrap(0 - m.amount);
      sign := "-";
    }
    var amount := FormatAmount(v, unit.factor, Places(unit));
    if includeSymbol {
      return Some(unit.symbol + " " + sign + amount);
    } else {
      assert [] + sign + amount == sign + amount;
      return Some(sign + amount);
    }
  }

  /** The units of a currency, in the order of the table. */
  function UnitsOf(c: Currency, units: seq<Unit>): (r: seq<Unit>)
    ensures forall u :: u in r ==> u in units && u.currency == c
    ensures forall u :: u in units && u.currency == c ==> u in r
  {
    if units == [] then [] else
    (if units[0].currency == c then [units[0]] else []) + UnitsOf(c, units[1..])
  }

  /** A unit fits an amount if the amount shows no leading zero in it. */
  predicate FitsUnit(u: Unit, v: int) {
    u.factor <= v
  }

  /** Larger units come first, and those that can be selected before those that cannot. */
  predicate Before(u: Unit, w: Unit) {
    u.factor >= w.factor && (w.selectable ==> u.selectable)
  }

  ghost predicate Ordered(c: Currency, units: seq<Unit>) {
    forall i, j :: 0 <= i < j < |units| && units[i].currency == units[j].currency == c ==> Before(units[i], units[j])
  }

  function FirstUnit(c: Currency): nat {
    match c case BTC => 0 case EUR => 4 case USD => 6 case BRL => 8 case GBP => 10
  }

  lemma TableOrder(c: Currency)
    ensures |UNITS| == 12 && Ordered(c, UNITS)
    ensures var n := FirstUnit(c);
      UNITS[n].currency == c && UNITS[n].selectable && forall j :: 0 <= j < n ==> UNITS[j].currency != c
  {
    CurrencyRange();
    forall i, j | 0 <= i < j < |UNITS| && UNITS[i].currency == UNITS[j].currency == c ensures Before(UNITS[i], UNITS[j]) {
      if c == BTC {
        assert UNITS[0].factor > UNITS[1].factor > UNITS[2].factor > UNITS[3].factor;
      }
    }
  }

  /** Where the units of each currency stand in the table. */
  lemma CurrencyRange()
    ensures |UNITS| == 12
    ensures forall i :: 0 <= i < 4 ==> UNITS[i].currency == BTC
    ensures forall i :: 4 <= i < 6 ==> UNITS[i].currency == EUR
    ensures forall i :: 6 <= i < 8 ==> UNITS[i].currency == USD
    ensures forall i :: 8 <= i < 10 ==> UNITS[i].currency == BRL
    ensures forall i :: 10 <= i < 12 ==> UNITS[i].currency == GBP
  {
  }

  lemma UnitOrder(c: Currency)
    ensures var us := UnitsOf(c, UNITS);
      && us != [] && us[0].selectable
      && (forall i, j :: 0 <= i < j < |us| ==> Before(us[i], us[j]))
  {
    hide UNITS, UnitsOf, Before;
    TableOrder(c);
    FirstOf(c, UNITS, FirstUnit(c));
    KeepsOrder(c, UNITS);
  }

  lemma {:induction false} FirstOf(c: Currency, units: seq<Unit>, i: nat)
    requires i < |units| && units[i].currency == c && forall j :: 0 <= j < i ==> units[j].currency != c
    ensures UnitsOf(c, units) != [] && UnitsOf(c, units)[0] == units[i]
  {
    if i > 0 { FirstOf(c, units[1..], i - 1); }
  }

  lemma {:induction false} KeepsOrder(c: Currency, units: seq<Unit>)
    requires Ordered(c, units)
    ensures forall i, j :: 0 <= i < j < |UnitsOf(c, units)| ==> Before(UnitsOf(c, units)[i], UnitsOf(c, units)[j])
  {
    hide Before, Ordered;
    if units != [] {
      TailOrdered(c, units);
      KeepsOrder(c, units[1..]);
      var rest := UnitsOf(c, units[1..]);
      if units[0].currency == c {
        forall j | 0 <= j < |rest| ensures Before(units[0], rest[j]) {
          assert rest[j] in rest;
          HeadBefore(c, units, rest[j]);
        }
      }
    }
  }

  lemma TailOrdered(c: Currency, units: seq<Unit>)
    requires units != [] && Ordered(c, units)
    ensures Ordered(c, units[1..])
  {
    hide Before;
  }

  lemma HeadBefore(c: Currency, units: seq<Unit>, u: Unit)
    requires units != [] && Ordered(c, units) && units[0].currency == u.currency == c && u in units[1..]
    ensures Before(units[0], u)
  {
    hide Before;
    var k :| 0 <= k < |units[1..]| && units[1..][k] == u;
    assert units[k + 1] == u;
  }

  /** Selects the largest selectable unit that fits the amount, or else the smallest
      selectable one; the default unit for zero. */
  method SelectUnit(m: Money) returns (result: Unit)
    ensures result in UNITS && result.currency == m.currency && result.selectable
    ensures m.amount == 0 ==> result == UnitsOf(m.currency, UNITS)[0]
    ensures m.amount != 0 ==>
      var v := if m.amount < 0 then Wrap(0 - m.amount) else m.amount;
      forall u :: u in UNITS && u.currency == m.currency && u.selectable ==>
        (FitsUnit(u, v) ==> FitsUnit(result, v) && u.factor <= result.factor) &&
        (!FitsUnit(result, v) ==> result.factor <= u.factor)
  {
    hide UNITS, UnitsOf;
    UnitOrder(m.currency);
    var units := UnitsOf(m.currency, UNITS);
    var v := m.amount;
    if v < 0 {
      v := Wrap(0 - m.amount);
    } else if v == 0 {
      return units[0];
    }
    result := units[0];
    var found := false;
    var i := 0;
    while i < |units|
      invariant 0 <= i <= |units|
      invariant found <==> i > 0
      invariant result in units && result.selectable
      invariant forall j :: 0 <= j < i ==> !FitsUnit(units[j], v) && (units[j].selectable ==> result.factor <= units[j].factor)
      invariant i > 0 ==> !FitsUnit(result, v)
    {
      var unit := units[i];
      if unit.selectable {
        result := unit;
        found := true;
      }
      if FitsUnit(unit, v) && found { break; }
      i := i + 1;
    }
  }
}
