// Numbers as operator<< writes them, at six significant digits, and as std::stod
// reads them. Covered is the fixed form, 0 and what rounds to 0.0001 .. 999999.
module Decimals {
  import opened FallbackPlans
  import opened FallbackText
  import opened Text
  import opened Wrappers

  function Pow10(n: nat): (p: nat)
    ensures p > 0
  {
    if n == 0 then 1 else 10 * Pow10(n - 1)
  }

  function Scale(n: nat): (s: real)
    ensures s > 0.0
  {
    Pow10(n) as real
  }

  // Smaller numbers than these round to less than 0.0001 and larger ones to more than
  // 999999; they are written with an exponent.
  predicate Fixed(x: real) { x == 0.0 || 0.00009999995 <= x < 999999.5 }

  // The decimals that make up six significant digits.
  function Places(x: real): nat {
    if x < 0.0001 then 10
    else if x < 0.001 then 9
    else if x < 0.01 then 8
    else if x < 0.1 then 7
    else if x < 1.0 then 6
    else if x < 10.0 then 5
    else if x < 100.0 then 4
    else if x < 1000.0 then 3
    else if x < 10000.0 then 2
    else if x < 100000.0 then 1
    else 0
  }

  // To the nearest integer, ties to even.
  function Round(x: real): int {
    var below := x.Floor;
    var rest := x - below as real;
    if rest < 0.5 || (rest == 0.5 && below % 2 == 0) then below else below + 1
  }

  function Scaled(x: real, n: nat): (r: real)
    ensures x >= 0.0 ==> r >= 0.0
  {
    x * Scale(n)
  }

  // The six digits as an integer.
  function Six(x: real): (m: nat)
    requires Fixed(x)
  {
    Round(Scaled(x, Places(x)))
  }

  function Ratio(m: nat, n: nat): real { m as real / Scale(n) }

  // The number the six digits stand for.
  function SixDigits(x: real): real
    requires Fixed(x)
  {
    Ratio(Six(x), Places(x))
  }

  function Padded(m: nat, n: nat): (s: string)
    ensures |s| == n && forall i :: 0 <= i < |s| ==> IsDigit(s[i])
  {
    if n == 0 then [] else Padded(m / 10, n - 1) + [Digit(m % 10)]
  }

  // m / 10^n, with no zeros at the end of the decimals.
  function Written(m: nat, n: nat): string
    decreases n
  {
    if n == 0 then Digits(m)
    else if m % 10 == 0 then Written(m / 10, n - 1)
    else Digits(m / Pow10(n)) + ['.'] + Padded(m % Pow10(n), n)
  }

  function SixDigitText(x: real): string
    requires Fixed(x)
  {
    Written(Six(x), Places(x))
  }

  predicate AllDigits(s: string) { s != "" && forall i :: 0 <= i < |s| ==> IsDigit(s[i]) }

  function Decimal(whole: string, decimals: string): real
    requires AllDigits(whole) && AllDigits(decimals)
  {
    Value(whole) as real + Ratio(Value(decimals), |decimals|)
  }

  // Digits, or digits on both sides of a point.
  function ReadDecimal(s: string): Option<real> {
    if AllDigits(s) then Some(Value(s) as real)
    else
      match Cut(s, '.')
      case None => None
      case Some((whole, decimals)) =>
        if AllDigits(whole) && AllDigits(decimals) then Some(Decimal(whole, decimals)) else None
  }

  // ---------- what was written reads as the six digits ----------

  lemma {:induction false} PaddedValue(m: nat, n: nat)
    requires m < Pow10(n)
    ensures Value(Padded(m, n)) == m
  {
    if n > 0 {
      PaddedValue(m / 10, n - 1);
      assert Padded(m, n)[..n - 1] == Padded(m / 10, n - 1);
    }
  }

  lemma RatioStripped(m: nat, n: nat)
    requires m % 10 == 0 && n > 0
    ensures Ratio(m, n) == Ratio(m / 10, n - 1)
  {
    var s := Scale(n - 1);
    var k := m / 10;
    assert Scale(n) == 10.0 * s && m as real == 10.0 * k as real;
    assert (10.0 * k as real) / (10.0 * s) == k as real / s;
  }

  lemma RatioSplit(m: nat, n: nat)
    ensures Ratio(m, n) == (m / Pow10(n)) as real + Ratio(m % Pow10(n), n)
  {
    var p, q, r := Pow10(n), m / Pow10(n), m % Pow10(n);
    assert m == p * q + r;
    assert m as real == p as real * q as real + r as real;
  }

  lemma PointRead(whole: string, decimals: string)
    requires AllDigits(whole) && AllDigits(decimals)
    ensures ReadDecimal(whole + ['.'] + decimals) == Some(Decimal(whole, decimals))
  {
    assert (whole + ['.'] + decimals)[|whole|] == '.';
    CutField(whole, '.', decimals);
  }

  lemma WrittenWithPoint(m: nat, n: nat)
    requires n > 0 && m % 10 != 0
    ensures ReadDecimal(Written(m, n)) == Some(Ratio(m, n))
  {
    var whole, decimals := Digits(m / Pow10(n)), Padded(m % Pow10(n), n);
    PointRead(whole, decimals);
    ValueOfDigits(m / Pow10(n));
    PaddedValue(m % Pow10(n), n);
    RatioSplit(m, n);
  }

  lemma {:induction false} WrittenReads(m: nat, n: nat)
    ensures ReadDecimal(Written(m, n)) == Some(Ratio(m, n))
    decreases n
  {
    if n == 0 {
      ValueOfDigits(m);
      assert Scale(0) == 1.0;
    } else if m % 10 == 0 {
      WrittenReads(m / 10, n - 1);
      RatioStripped(m, n);
    } else {
      WrittenWithPoint(m, n);
    }
  }

  lemma {:induction false} WrittenCharacters(m: nat, n: nat)
    ensures Written(m, n) != "" && forall c :: c in Written(m, n) ==> IsDigit(c) || c == '.'
    decreases n
  {
    if n > 0 && m % 10 == 0 { WrittenCharacters(m / 10, n - 1); }
  }

  // ---------- the library's printing and reading ----------

  // Far from where doubles end or lose digits, and as far as six fixed digits go.
  predicate Plain(v: real) { v == 0.0 || 0.0000001 <= v <= 10000000.0 }

  lemma SixDigitsArePlain(x: real)
    requires Fixed(x)
    ensures Plain(SixDigits(x))
  {
    if x == 0.0 {
      ZeroDigits();
    } else {
      SixRange(x);
      Scales();
    }
  }

  // Printing gives six digits, and reading gives the double nearest to the decimal;
  // nothing is asked of decimals far larger or smaller.
  ghost predicate LikeTheLibrary(d: Doubles, nearest: real -> real) {
    && (forall x :: Fixed(x) ==> d.show(x) == SixDigitText(x))
    && (forall s :: ReadDecimal(s).Some? && Plain(ReadDecimal(s).value) ==>
          d.read(s) == Some((nearest(ReadDecimal(s).value), |s|)))
  }

  // A double is within one part in 2^53 of the plain decimal it is nearest to.
  ghost predicate Near(nearest: real -> real) {
    forall v :: Plain(v) ==> WithinPart(v, nearest(v))
  }

  predicate WithinPart(v: real, y: real) { -v <= (y - v) * 9007199254740992.0 <= v }

  // A number reads back exactly when it is the double nearest to its six digits.
  lemma SixDigitsRead(d: Doubles, nearest: real -> real, x: real)
    requires LikeTheLibrary(d, nearest) && Fixed(x)
    ensures Fits(d, x) && Reread(d, x) == Some(nearest(SixDigits(x)))
    ensures ReadsBack(d, x) <==> nearest(SixDigits(x)) == x
  {
    WrittenReads(Six(x), Places(x));
    WrittenCharacters(Six(x), Places(x));
    SixDigitsArePlain(x);
    assert ReadDecimal(SixDigitText(x)) == Some(SixDigits(x));
  }

  // ---------- what six digits keep, and what they lose ----------

  lemma Scales()
    ensures Scale(0) == 1.0 && Scale(1) == 10.0 && Scale(2) == 100.0 && Scale(3) == 1000.0
    ensures Scale(4) == 10000.0 && Scale(5) == 100000.0 && Scale(6) == 1000000.0 && Scale(7) == 10000000.0
    ensures Scale(8) == 100000000.0 && Scale(9) == 1000000000.0 && Scale(10) == 10000000000.0
  {
    assert Pow10(3) == 1000;
    assert Pow10(6) == 1000000;
    assert Pow10(9) == 1000000000;
  }

  lemma SixRange(x: real)
    requires Fixed(x) && x > 0.0
    ensures 100000 <= Six(x) <= 1000000
    ensures Places(x) == 0 ==> Six(x) < 1000000
    ensures Places(x) == 10 ==> Six(x) == 1000000
  {
    Scales();
  }

  // The digits m at p decimals, written one place finer or coarser.
  predicate SameDigits(m: nat, p: nat, m': nat, p': nat) {
    || (p' == p && m' == m)
    || (p' == p + 1 && m == 100000 && m' == 1000000)
    || (p == p' + 1 && m' == 100000 && m == 1000000)
  }

  lemma SameText(m: nat, p: nat, m': nat, p': nat)
    requires SameDigits(m, p, m', p')
    ensures Written(m, p) == Written(m', p')
  {
  }

  lemma PlacesAt(y: real, p: nat)
    requires p <= 10 && 100000.0 <= Scaled(y, p) < 1000000.0
    requires p == 10 ==> Scaled(y, p) >= 999999.5
    requires p == 0 ==> Scaled(y, p) < 999999.5
    ensures y > 0.0 && Fixed(y) && Places(y) == p
  {
    Scales();
  }

  lemma ScaledFiner(y: real, p: nat)
    ensures Scaled(y, p + 1) == 10.0 * Scaled(y, p)
  {
    assert Scale(p + 1) == 10.0 * Scale(p);
  }

  lemma ScaledNear(m: nat, p: nat, y: real)
    requires m <= 1000000 && p <= 10 && WithinPart(Ratio(m, p), y)
    ensures -0.001 <= Scaled(y, p) - m as real <= 0.001
  {
    Scales();
    assert Ratio(m, p) * Scale(p) == m as real;
  }

  // The double nearest to six digits has these six digits.
  lemma NearestHasTheDigits(m: nat, p: nat, y: real)
    requires 100000 <= m <= 1000000 && p <= 10 && (p == 0 ==> m < 1000000) && (p == 10 ==> m == 1000000)
    requires WithinPart(Ratio(m, p), y)
    ensures Fixed(y) && y > 0.0 && SameDigits(m, p, Six(y), Places(y))
  {
    ScaledNear(m, p, y);
    if Scaled(y, p) < 100000.0 {
      ScaledFiner(y, p);
      PlacesAt(y, p + 1);
    } else if Scaled(y, p) < 1000000.0 {
      PlacesAt(y, p);
    } else {
      ScaledFiner(y, p - 1);
      PlacesAt(y, p - 1);
    }
  }

  lemma ZeroDigits()
    ensures Six(0.0) == 0 && SixDigits(0.0) == 0.0
  {
    Scales();
  }

  lemma TextStays(x: real, y: real)
    requires Fixed(x) && WithinPart(SixDigits(x), y)
    ensures Fixed(y) && SixDigitText(y) == SixDigitText(x)
  {
    if x == 0.0 {
      ZeroDigits();
    } else {
      SixRange(x);
      NearestHasTheDigits(Six(x), Places(x), y);
      SameText(Six(x), Places(x), Six(y), Places(y));
    }
  }

  // What a number comes back as is printed as the number was, so it comes back as itself.
  lemma RereadOnceStays(d: Doubles, nearest: real -> real, x: real)
    requires LikeTheLibrary(d, nearest) && Near(nearest) && Fixed(x)
    ensures Fixed(nearest(SixDigits(x))) && ReadsBack(d, nearest(SixDigits(x)))
  {
    var y := nearest(SixDigits(x));
    SixDigitsArePlain(x);
    TextStays(x, y);
    SixDigitsRead(d, nearest, x);
    assert d.show(y) == d.show(x);
  }

  // A 64-bit target and numbers printed without an exponent.
  predicate Ordinary(p: Plan) {
    p.configured ==> INT64_MIN <= p.target <= INT64_MAX && Fixed(p.hold) && Fixed(p.speed)
  }

  predicate SixDigitsEach(p: Plan, nearest: real -> real)
    requires Ordinary(p)
  {
    p.configured ==> nearest(SixDigits(p.hold)) == p.hold && nearest(SixDigits(p.speed)) == p.speed
  }

  lemma OrdinaryReads(p: Plan, d: Doubles, nearest: real -> real)
    requires LikeTheLibrary(d, nearest) && Ordinary(p)
    ensures Writable(p, d) && Readable(p, d)
    ensures NumbersReadBack(p, d) <==> SixDigitsEach(p, nearest)
    ensures Near(nearest) ==> Ordinary(RereadPlan(p, d).value) && NumbersReadBack(RereadPlan(p, d).value, d)
  {
    if p.configured {
      SixDigitsRead(d, nearest, p.hold);
      SixDigitsRead(d, nearest, p.speed);
      if Near(nearest) {
        RereadOnceStays(d, nearest, p.hold);
        RereadOnceStays(d, nearest, p.speed);
      }
    }
  }

  // A saved plan always loads; it loads unchanged exactly when each of its numbers
  // is the double nearest to its own six digits; and from then on it stays the
  // same however often it is saved and loaded.
  lemma SavedPlanKeepsSixDigits(ps: seq<Plan>, state: PlanState, deadline: real, d: Doubles, nearest: real -> real)
    requires LikeTheLibrary(d, nearest) && Near(nearest) && Fixed(deadline)
    requires PlansOk(ps, state) && |ps| <= INT64_MAX && forall i :: 0 <= i < |ps| ==> Ordinary(ps[i])
    ensures var once := Reloaded(ps, |ps|, d);
      && ReadPlan(PlanText(ps, state, deadline, d), |ps|, d) == Some((once, state))
      && (once == ps <==> forall i :: 0 <= i < |ps| ==> SixDigitsEach(ps[i], nearest))
      && ReadPlan(PlanText(once, state, deadline, d), |ps|, d) == Some((once, state))
  {
    var once := Reloaded(ps, |ps|, d);
    forall i | 0 <= i < |ps|
      ensures Writable(ps[i], d) && Readable(ps[i], d) && Writable(once[i], d) && NumbersReadBack(once[i], d)
      ensures NumbersReadBack(ps[i], d) <==> SixDigitsEach(ps[i], nearest)
    {
      OrdinaryReads(ps[i], d, nearest);
      if ps[i].configured { OrdinaryReads(once[i], d, nearest); }
    }
    SixDigitsRead(d, nearest, deadline);
    ReloadedKeeps(ps, state, Log([], []), d);
    SavedPlanLoads(ps, state, deadline, d);
    SavedPlanLoads(once, state, deadline, d);
  }

  const HOLD := 3.0009765625

  lemma HoldDigits()
    ensures SixDigits(HOLD) == 3.00098 && SixDigits(100.0) == 100.0
  {
    Scales();
    assert Six(HOLD) == 300098 && Six(100.0) == 100000;
  }

  lemma HoldMoves(nearest: real -> real)
    requires Near(nearest)
    ensures nearest(3.00098) != HOLD
  {
    assert WithinPart(3.00098, nearest(3.00098));
  }

  // A hold of 3 + 1/1024 s is a double, and in whatever plan it stands it comes
  // back as another one, the double nearest to 3.00098.
  lemma HoldIsRounded(ps: seq<Plan>, i: nat, d: Doubles, nearest: real -> real)
    requires LikeTheLibrary(d, nearest) && Near(nearest)
    requires i < |ps| && ps[i].configured && ps[i].hold == HOLD && Ordinary(ps[i])
    ensures Reloaded(ps, |ps|, d)[i].hold == nearest(3.00098) != ps[i].hold
  {
    HoldDigits();
    HoldMoves(nearest);
    PlanReads(ps[i], d, nearest);
  }

  lemma PlanReads(p: Plan, d: Doubles, nearest: real -> real)
    requires LikeTheLibrary(d, nearest) && Ordinary(p) && p.configured
    ensures RereadPlan(p, d) == Some(p.(hold := nearest(SixDigits(p.hold)), speed := nearest(SixDigits(p.speed))))
  {
    SixDigitsRead(d, nearest, p.hold);
    SixDigitsRead(d, nearest, p.speed);
  }

  // ---------- the doubles themselves ----------

  const TWO52 := 4503599627370496.0
  const TWO53 := 9007199254740992.0

  // 2^-76, the unit in the last place of the doubles just below 2^-23.
  const LEAST_UNIT := 1.0 / 75557863725914323419136.0

  // The unit in the last place of the doubles around v, found by doubling u.
  function UnitOf(v: real, u: real, n: nat): (unit: real)
    ensures u > 0.0 ==> unit > 0.0
    decreases n
  {
    if n == 0 || v < TWO53 * u then u else UnitOf(v, 2.0 * u, n - 1)
  }

  function Doubled(u: real, n: nat): real
    decreases n
  {
    if n == 0 then u else Doubled(2.0 * u, n - 1)
  }

  lemma {:induction false} UnitFits(v: real, u: real, n: nat)
    requires u > 0.0 && TWO52 * u <= v < TWO53 * Doubled(u, n)
    ensures var unit := UnitOf(v, u, n); TWO52 * unit <= v < TWO53 * unit
    decreases n
  {
    if n > 0 && v >= TWO53 * u { UnitFits(v, 2.0 * u, n - 1); }
  }

  lemma {:induction false} DoubledOn(u: real, m: nat, n: nat)
    ensures Doubled(u, m + n) == Doubled(Doubled(u, m), n)
    decreases m
  {
    if m > 0 { DoubledOn(2.0 * u, m - 1, n); }
  }

  lemma EightTimes(u: real)
    ensures Doubled(u, 8) == 256.0 * u
  {
    assert Doubled(16.0 * u, 4) == 256.0 * u;
  }

  lemma ManyTimes(u: real)
    ensures Doubled(u, 48) == 281474976710656.0 * u
  {
    DoubledOn(u, 8, 40);
    DoubledOn(256.0 * u, 8, 32);
    DoubledOn(65536.0 * u, 8, 24);
    DoubledOn(16777216.0 * u, 8, 16);
    DoubledOn(4294967296.0 * u, 8, 8);
    EightTimes(u);
    EightTimes(256.0 * u);
    EightTimes(65536.0 * u);
    EightTimes(16777216.0 * u);
    EightTimes(4294967296.0 * u);
    EightTimes(1099511627776.0 * u);
  }

  function Units(k: int, u: real): real { k as real * u }

  // To 53 bits, ties to even; for plain numbers that is the nearest double.
  function NearestDouble(v: real): real {
    if v == 0.0 || !Plain(v) then 0.0
    else
      var u := UnitOf(v, LEAST_UNIT, 48);
      Units(Round(v / u), u)
  }

  lemma RoundedNear(v: real, u: real)
    requires u > 0.0 && TWO52 * u <= v
    ensures WithinPart(v, Units(Round(v / u), u))
  {
    var t := v / u;
    assert t * u == v;
    HalfUnit(t, Round(t), u, v);
    var y := Units(Round(t), u);
    assert -TWO52 * u <= (y - v) * TWO53 <= TWO52 * u;
  }

  lemma HalfUnit(t: real, k: int, u: real, v: real)
    requires u > 0.0 && -0.5 <= k as real - t <= 0.5 && v == t * u
    ensures -0.5 * u <= Units(k, u) - v <= 0.5 * u
  {
    var x := k as real;
    NaturalProduct(x - t + 0.5, u);
    NaturalProduct(0.5 - x + t, u);
    assert (x - t + 0.5) * u == x * u - t * u + 0.5 * u;
    assert (0.5 - x + t) * u == 0.5 * u - x * u + t * u;
  }

  lemma NaturalProduct(a: real, b: real)
    requires a >= 0.0 && b >= 0.0
    ensures a * b >= 0.0
  {
  }

  lemma NearestDoubleIsNear()
    ensures Near(NearestDouble)
  {
    forall v | Plain(v) ensures WithinPart(v, NearestDouble(v)) {
      if v != 0.0 {
        ManyTimes(LEAST_UNIT);
        UnitFits(v, LEAST_UNIT, 48);
        RoundedNear(v, UnitOf(v, LEAST_UNIT, 48));
      }
    }
  }

  // A library with these doubles that reads plain decimals only.
  function Library(): Doubles {
    Doubles(x => if Fixed(x) then SixDigitText(x) else "nan",
            s => if ReadDecimal(s).Some? && Plain(ReadDecimal(s).value)
                 then Some((NearestDouble(ReadDecimal(s).value), |s|)) else None)
  }

  lemma LibraryIsLikeIt()
    ensures LikeTheLibrary(Library(), NearestDouble) && Near(NearestDouble)
  {
    NearestDoubleIsNear();
  }
}
