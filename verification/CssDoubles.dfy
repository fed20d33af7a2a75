/** Decimal numbers converted to double precision: the shortcuts taken before
    the conversion give what the conversion itself would give. */
module CssDoubles {
  import opened CssNumbers

  /** Two to an integer power. */
  function Binary(e: int): real
    ensures Binary(e) > 0.0
    decreases if e < 0 then -e else e
  {
    if e == 0 then 1.0 else if e > 0 then 2.0 * Binary(e - 1) else Binary(e + 1) / 2.0
  }

  function Pow2(e: nat): nat {
    if e == 0 then 1 else 2 * Pow2(e - 1)
  }

  const SIGNIFICAND_BITS := 53
  const SMALLEST_EXPONENT := -1074
  const LARGEST_EXPONENT := 971

  /** A finite magnitude of binary64 in section 3.3 of IEEE 754: `k` times two to
      the power `e`, with `k` as large as it can be. */
  datatype Double = Double(k: nat, e: int) {
    predicate Valid() {
      && k < Pow2(SIGNIFICAND_BITS) && SMALLEST_EXPONENT <= e <= LARGEST_EXPONENT
      && (e == SMALLEST_EXPONENT || k >= Pow2(SIGNIFICAND_BITS - 1))
    }

    function Value(): real {
      Times(k, Binary(e))
    }
  }

  const ZERO := Double(0, SMALLEST_EXPONENT)

  datatype Float = Infinite(negative: bool) | Finite(negative: bool, magnitude: Double)

  function Distance(x: real, y: real): real {
    if x < y then y - x else x - y
  }

  /** No other magnitude is closer, and one just as close is odd. */
  ghost predicate Nearest(m: real, d: Double) {
    && d.Valid()
    && forall c: Double {:trigger c.Value()} :: c.Valid() && c != d ==>
         Distance(d.Value(), m) < Distance(c.Value(), m) ||
             (Distance(d.Value(), m) == Distance(c.Value(), m) && d.k % 2 == 0)
  }

  /** Half a unit in the last place beyond the largest finite magnitude. */
  ghost function Overflow(): real {
    Binary(1024) - Binary(970)
  }

  /** Half the smallest positive magnitude. */
  ghost function Underflow(): real {
    Binary(SMALLEST_EXPONENT - 1)
  }

  /** Rounding to nearest, ties to even, of section 4.3.1 of IEEE 754. */
  ghost predicate Rounded(m: real, negative: bool, f: Float) {
    && f.negative == negative
    && (f.Infinite? <==> m >= Overflow())
    && (f.Finite? ==> Nearest(m, f.magnitude))
  }

  /** The conversion rounds every number correctly. */
  ghost predicate Converts(convert: string -> Float) {
    forall s, p {:trigger Reads(s, p)} :: Reads(s, p) ==> Rounded(Magnitude(s, p), Negative(s, p), convert(s))
  }

  /* Zero. */

  lemma {:induction false} BinaryNext(e: int)
    ensures Binary(e + 1) == 2.0 * Binary(e)
  {
  }

  lemma {:induction false} BinaryIncreases(d: int, e: int)
    requires d <= e
    ensures Binary(d) <= Binary(e)
    decreases e - d
  {
    if d < e {
      BinaryIncreases(d, e - 1);
      BinaryNext(e - 1);
    }
  }

  lemma {:induction false} PositiveValue(d: Double)
    requires d.Valid() && d.k > 0
    ensures d.Value() >= Binary(SMALLEST_EXPONENT)
  {
    TimesIncreases(1, d.k, Binary(d.e));
    assert Times(1, Binary(d.e)) == Binary(d.e) + Times(0, Binary(d.e));
    BinaryIncreases(SMALLEST_EXPONENT, d.e);
  }

  lemma {:induction false} OnlyZero(d: Double)
    requires d.Valid() && d.k == 0
    ensures d == ZERO && d.Value() == 0.0
  {
    Pow2Positive(SIGNIFICAND_BITS - 1);
  }

  lemma {:induction false} Pow2Positive(e: nat)
    ensures Pow2(e) > 0
  {
    if e > 0 {
      Pow2Positive(e - 1);
    }
  }

  lemma {:induction false} SmallestIsValid()
    ensures ZERO.Valid() && ZERO.Value() == 0.0
    ensures var d := Double(1, SMALLEST_EXPONENT); d.Valid() && d.Value() == Binary(SMALLEST_EXPONENT)
  {
    Pow2Positive(SIGNIFICAND_BITS - 1);
    assert Pow2(SIGNIFICAND_BITS) == 2 * Pow2(SIGNIFICAND_BITS - 1);
    var x := Binary(SMALLEST_EXPONENT);
    assert Times(1, x) == x + Times(0, x);
  }

  /** A magnitude becomes zero exactly up to half the smallest positive one. */
  lemma {:induction false} ZeroExactly(m: real, d: Double)
    requires m >= 0.0 && Nearest(m, d)
    ensures d == ZERO <==> m <= Underflow()
  {
    SmallestIsValid();
    var one := Double(1, SMALLEST_EXPONENT);
    BinaryNext(SMALLEST_EXPONENT - 1);
    if d == ZERO {
      assert Distance(d.Value(), m) <= Distance(one.Value(), m);
    } else {
      if d.k == 0 {
        OnlyZero(d);
      }
      PositiveValue(d);
      assert Distance(d.Value(), m) <= Distance(ZERO.Value(), m);
      if m == Underflow() {
        TieIsZero(d);
      }
    }
  }

  /** The smallest positive magnitude is odd, so a tie with zero goes to zero. */
  lemma {:induction false} TieIsZero(d: Double)
    requires Nearest(Underflow(), d)
    ensures d == ZERO
  {
    SmallestIsValid();
    BinaryNext(SMALLEST_EXPONENT - 1);
    if d.k == 0 {
      OnlyZero(d);
    } else {
      PositiveValue(d);
      assert Distance(d.Value(), Underflow()) <= Distance(ZERO.Value(), Underflow());
      SmallestUnique(d);
    }
  }

  lemma {:induction false} SmallestUnique(d: Double)
    requires d.Valid() && d.Value() == Binary(SMALLEST_EXPONENT)
    ensures d == Double(1, SMALLEST_EXPONENT)
  {
    var x := Binary(d.e);
    if d.k == 0 {
      OnlyZero(d);
    } else {
      assert Times(1, x) == x + Times(0, x);
      assert Times(2, x) == x + Times(1, x);
      if d.k > 1 {
        TimesIncreases(2, d.k, x);
        BinaryIncreases(SMALLEST_EXPONENT, d.e);
      } else if d.e > SMALLEST_EXPONENT {
        BinaryIncreases(SMALLEST_EXPONENT + 1, d.e);
        BinaryNext(SMALLEST_EXPONENT);
      }
    }
  }

  /* Powers of ten against powers of two. */

  lemma {:induction false} Pow10Sum(a: nat, b: nat)
    ensures Pow10(a + b) == Pow10(a) * Pow10(b)
  {
    if a > 0 {
      Pow10Sum(a - 1, b);
      assert Pow10(a + b) == 10 * (Pow10(a - 1) * Pow10(b)) == (10 * Pow10(a - 1)) * Pow10(b);
    }
  }

  lemma {:induction false} Pow2Sum(a: nat, b: nat)
    ensures Pow2(a + b) == Pow2(a) * Pow2(b)
  {
    if a > 0 {
      Pow2Sum(a - 1, b);
      assert Pow2(a + b) == 2 * (Pow2(a - 1) * Pow2(b)) == (2 * Pow2(a - 1)) * Pow2(b);
    }
  }

  /** Squaring a bound. */
  lemma {:induction false} Squared(n: nat, a: nat, k: nat, b: nat)
    requires Pow2(n) <= a * Pow10(k) && a * a <= b * Pow10(18)
    ensures Pow2(2 * n) <= b * Pow10(2 * k + 18)
  {
    Pow2Sum(n, n);
    Pow10Sum(k, k);
    Pow10Sum(2 * k, 18);
    SquareBound(Pow2(n), a, Pow10(k), b, Pow10(18));
  }

  lemma {:induction false} SquareBound(p: nat, a: nat, t: nat, b: nat, h: nat)
    requires p <= a * t && a * a <= b * h
    ensures p * p <= b * ((t * t) * h)
  {
    MulUp(p, a * t, p, a * t);
    SquareOfProduct(a, t);
    MulUp(a * a, b * h, t * t, t * t);
    Swapped(b, h, t * t);
  }

  lemma {:induction false} SquareOfProduct(a: nat, t: nat)
    ensures (a * t) * (a * t) == (a * a) * (t * t)
  {
    calc {
      (a * t) * (a * t);
      a * (t * (a * t));
      a * ((t * a) * t);
      a * ((a * t) * t);
      a * (a * (t * t));
      (a * a) * (t * t);
    }
  }

  lemma {:induction false} Swapped(b: nat, h: nat, q: nat)
    ensures (b * h) * q == b * (q * h)
  {
  }

  lemma {:induction false} MulUp(a: nat, b: nat, c: nat, d: nat)
    requires a <= b && c <= d
    ensures a * c <= b * d
  {
    assert b * d - a * c == (b - a) * d + a * (d - c);
  }

  lemma {:induction false} TenToTheEighteenth()
    ensures Pow10(18) == 1000000000000000000
  {
    assert Pow10(1) == 10 * Pow10(0);
    Pow10Sum(1, 1);
    Pow10Sum(2, 2);
    Pow10Sum(4, 4);
    Pow10Sum(8, 8);
    Pow10Sum(16, 2);
  }

  lemma {:induction false} TwoToTheSixtyFourth()
    ensures Pow2(64) == 18446744073709551616
  {
    assert Pow2(1) == 2 * Pow2(0);
    Pow2Sum(1, 1);
    Pow2Sum(2, 2);
    Pow2Sum(4, 4);
    Pow2Sum(8, 8);
    Pow2Sum(16, 16);
    Pow2Sum(32, 32);
  }

  /** 2^1024 is a little less than 1.8 times 10^308. */
  lemma {:induction false} TwoToTheTenth()
    ensures Pow2(1024) <= 18 * Pow10(307)
  {
    TenToTheEighteenth();
    TwoToTheSixtyFourth();
    assert Pow10(0) == 1;
    Squared(64, 18446744073709551616, 0, 340282366920938463464);
    Squared(128, 340282366920938463464, 18, 115792089237316195423997);
    Squared(256, 115792089237316195423997, 54, 13407807929942597099672683330);
    Squared(512, 13407807929942597099672683330, 126, 179769313486231590775576103005671601653);
    FitsEighteen();
  }

  lemma {:induction false} FitsEighteen()
    ensures 179769313486231590775576103005671601653 * Pow10(270) <= 18 * Pow10(307)
  {
    TenToTheEighteenth();
    Pow10Sum(18, 18);
    Pow10Sum(36, 1);
    Pow10Sum(37, 270);
    assert Pow10(1) == 10 * Pow10(0);
    MulUp(179769313486231590775576103005671601653, 18 * Pow10(37), Pow10(270), Pow10(270));
    assert (18 * Pow10(37)) * Pow10(270) == 18 * (Pow10(37) * Pow10(270));
  }

  lemma {:induction false} PowerIs(n: nat)
    ensures Power(n) == Pow10(n) as real
  {
    if n > 0 {
      PowerIs(n - 1);
    }
  }

  lemma {:induction false} BinaryIs(n: nat)
    ensures Binary(n) == Pow2(n) as real
  {
    if n > 0 {
      BinaryIs(n - 1);
    }
  }

  /** What the shortcut calls infinite is beyond every finite magnitude. */
  lemma {:induction false} InfiniteOrderOverflows()
    ensures Power(INFINITE_ORDER) > Overflow()
  {
    TwoToTheTenth();
    BinaryIs(1024);
    PowerIs(307);
    PowerNext(307);
    PowerNext(308);
  }

  /* The inverse powers. */

  lemma {:induction false} BinaryProduct(k: nat, e: int)
    ensures Times(Pow2(k), Binary(e)) == Binary(k + e)
  {
    if k == 0 {
      assert Times(1, Binary(e)) == Binary(e) + Times(0, Binary(e));
    } else {
      BinaryProduct(k - 1, e);
      BinaryNext(k - 1 + e);
      TimesSum(Pow2(k - 1), Pow2(k - 1), Binary(e));
    }
  }

  lemma {:induction false} TimesGrows(n: nat, x: real, y: real)
    requires x <= y
    ensures Times(n, x) <= Times(n, y) && (n > 0 && x < y ==> Times(n, x) < Times(n, y))
  {
    if n > 0 {
      TimesGrows(n - 1, x, y);
    }
  }

  lemma {:induction false} EightsAreLess(n: nat)
    ensures Pow2(3 * n) <= Pow10(n)
  {
    if n > 0 {
      EightsAreLess(n - 1);
      assert Pow2(3 * n) == 2 * Pow2(3 * n - 1) == 4 * Pow2(3 * n - 2) == 8 * Pow2(3 * n - 3);
    }
  }

  lemma {:induction false} InverseOrder(n: nat, k: nat)
    requires Pow2(n) <= Pow10(k)
    ensures Power(0 - k) <= Binary(0 - n)
  {
    PowerProduct(k, 0 - k);
    BinaryProduct(n, 0 - n);
    TimesIncreases(Pow2(n), Pow10(k), Power(0 - k));
    Pow2Positive(n);
    if Power(0 - k) > Binary(0 - n) {
      TimesGrows(Pow2(n), Binary(0 - n), Power(0 - k));
    }
  }

  /* Parsing. */

  datatype Parsed = NotANumber | Number(float: Float)

  /** A zero mantissa converts to a signed zero. */
  lemma {:induction false} ZeroConverts(s: string, p: Cuts, convert: string -> Float)
    requires Converts(convert) && Reads(s, p) && Magnitude(s, p) == 0.0
    ensures convert(s) == Finite(Negative(s, p), ZERO)
  {
    assert Rounded(Magnitude(s, p), Negative(s, p), convert(s));
    BinaryIncreases(970, 1023);
    BinaryNext(1023);
    ZeroExactly(0.0, convert(s).magnitude);
  }

  /** A decimal order of 309 or more converts to infinity. */
  lemma {:induction false} InfiniteConverts(s: string, p: Cuts, convert: string -> Float)
    requires Converts(convert) && Reads(s, p) && Magnitude(s, p) >= Power(INFINITE_ORDER)
    ensures convert(s) == Infinite(Negative(s, p))
  {
    InfiniteOrderOverflows();
    assert Rounded(Magnitude(s, p), Negative(s, p), convert(s));
  }

  /** What every conversion gives: infinity from half a unit beyond the largest
      magnitude on, and zero up to half the smallest one. */
  lemma {:induction false} ConvertedSize(s: string, p: Cuts, convert: string -> Float)
    requires Converts(convert) && Reads(s, p)
    ensures var f := convert(s);
            && f.negative == Negative(s, p) && (f.Infinite? <==> Magnitude(s, p) >= Overflow())
            && (f == Finite(Negative(s, p), ZERO) <==> Magnitude(s, p) <= Underflow())
  {
    var f := convert(s);
    assert Rounded(Magnitude(s, p), Negative(s, p), f);
    NotNegative(s, p);
    if f.Finite? {
      ZeroExactly(Magnitude(s, p), f.magnitude);
    } else {
      UnderflowBelowOverflow();
    }
  }

  lemma {:induction false} NotNegative(s: string, p: Cuts)
    requires Reads(s, p)
    ensures Magnitude(s, p) >= 0.0
  {
    MantissaDigits(s, p);
    TimesIncreases(0, CssNumbers.Number(Mantissa(s, p)),
                   Power(SignedExponent(s, p, ExponentSize(s, p)) - (p.fraction - p.point)));
  }

  lemma {:induction false} UnderflowBelowOverflow()
    ensures Underflow() < Overflow()
  {
    BinaryIncreases(SMALLEST_EXPONENT - 1, 970);
    BinaryNext(970);
    BinaryNext(971);
    BinaryIncreases(972, 1024);
  }

  /** The shortcuts for zero and for large orders give what the conversion would
      give, so every number is the correctly rounded one. */
  method ParseCssNumber(s: string, convert: string -> Float) returns (r: Parsed)
    requires Converts(convert)
    ensures r.NotANumber? <==> !exists p :: Reads(s, p)
    ensures r.Number? ==> r.float == convert(s)
  {
    var scan := ScanCssNumber(s);
    if scan.Rejected? {
      return NotANumber;
    }
    ghost var p :| Reads(s, p);
    Sized(s, p);
    if scan.zero {
      ZeroConverts(s, p, convert);
      return Number(Finite(scan.negative, ZERO));
    }
    if scan.order >= INFINITE_ORDER {
      InfiniteConverts(s, p, convert);
      return Number(Infinite(scan.negative));
    }
    return Number(convert(s));
  }

  /** Other grammars take finite numbers only. */
  method NumberOf(s: string, convert: string -> Float) returns (f: Float, ok: bool)
    requires Converts(convert)
    ensures ok <==> exists p :: Reads(s, p) && Magnitude(s, p) < Overflow()
    ensures ok ==> f == convert(s)
  {
    var r := ParseCssNumber(s, convert);
    if r.NotANumber? {
      return Infinite(false), false;
    }
    ghost var p :| Reads(s, p);
    ConvertedSize(s, p, convert);
    forall q | Reads(s, q)
      ensures q == p
    {
      PartsForced(s, p);
      PartsForced(s, q);
    }
    return r.float, r.float.Finite?;
  }

  /* Two numbers that the shortcuts do not catch. */

  /** Of order 308 only, and infinite all the same. */
  lemma {:induction false} OverflowBelowTheShortcut()
    ensures var s, p := "1.8e308", Cuts(0, 1, 2, 3, 4, 4);
            Reads(s, p) && Order(s, p, ExponentSize(s, p)) < INFINITE_ORDER && Magnitude(s, p) >= Overflow()
  {
    var s, p := "1.8e308", Cuts(0, 1, 2, 3, 4, 4);
    assert s[0..1] == "1" && s[2..3] == "8" && s[4..] == "308";
    Eighteen();
    ThreeHundredEight();
    assert Mantissa(s, p) == "18";
    LargeEnough(s, p, 307);
  }

  lemma {:induction false} LargeEnough(s: string, p: Cuts, e: nat)
    requires e == 307 && Reads(s, p) && AllDigits(Mantissa(s, p)) && CssNumbers.Number(Mantissa(s, p)) == 18
    requires SignedExponent(s, p, ExponentSize(s, p)) - (p.fraction - p.point) == e
    ensures Magnitude(s, p) >= Overflow()
  {
    EighteenPowers(e);
  }

  lemma {:induction false} EighteenPowers(e: nat)
    requires e == 307
    ensures Times(18, Power(e)) >= Overflow()
  {
    EighteenTimes(Power(e));
    TwoToTheTenth();
    OverflowBelow(1024);
    PowerIs(e);
  }

  lemma {:induction false} OverflowBelow(e: nat)
    requires e == 1024
    ensures Overflow() <= Pow2(e) as real
  {
    BinaryIs(e);
  }

  lemma {:induction false} EighteenTimes(x: real)
    ensures Times(18, x) == 18.0 * x
  {
    assert Times(1, x) == x + Times(0, x);
    TimesSum(1, 1, x);
    TimesSum(2, 2, x);
    TimesSum(4, 4, x);
    TimesSum(8, 8, x);
    TimesSum(16, 2, x);
  }

  lemma {:induction false} Eighteen()
    ensures AllDigits("18") && CssNumbers.Number("18") == 18 && FirstNonzero("18") == 0
  {
    Digits("", '1');
    Digits("1", '8');
    assert "" + ['1'] == "1" && "1" + ['8'] == "18";
  }

  lemma {:induction false} ThreeHundredEight()
    ensures AllDigits("308") && CssNumbers.Number("308") == 308
  {
    Digits("", '3');
    Digits("3", '0');
    Digits("30", '8');
    assert "" + ['3'] == "3" && "3" + ['0'] == "30" && "30" + ['8'] == "308";
  }

  lemma {:induction false} FourHundred()
    ensures AllDigits("400") && CssNumbers.Number("400") == 400
  {
    Digits("", '4');
    Digits("4", '0');
    Digits("40", '0');
    assert "" + ['4'] == "4" && "4" + ['0'] == "40" && "40" + ['0'] == "400";
  }

  lemma {:induction false} Digits(ds: string, c: char)
    requires AllDigits(ds) && IsDigit(c)
    ensures AllDigits(ds + [c]) && CssNumbers.Number(ds + [c]) == CssNumbers.Number(ds) * 10 + DigitValue(c)
    ensures FirstNonzero(ds + [c]) == if FirstNonzero(ds) >= 0 then FirstNonzero(ds) else if c != '0' then |ds| else -1
  {
    assert (ds + [c])[..|ds|] == ds;
  }

  /** Not zero, and zero all the same. */
  lemma {:induction false} UnderflowBesideTheShortcut()
    ensures var s, p := "1e-400", Cuts(0, 1, 1, 1, 2, 3);
            Reads(s, p) && 0.0 < Magnitude(s, p) <= Underflow()
  {
    var s, p := "1e-400", Cuts(0, 1, 1, 1, 2, 3);
    assert s[0..1] == "1" && s[1..1] == "" && s[3..] == "400";
    Digits("", '1');
    assert "" + ['1'] == "1";
    FourHundred();
    assert Mantissa(s, p) == "1";
    SmallEnough(s, p, 400);
  }

  lemma {:induction false} SmallEnough(s: string, p: Cuts, k: nat)
    requires k == 400 && Reads(s, p) && AllDigits(Mantissa(s, p)) && CssNumbers.Number(Mantissa(s, p)) == 1
    requires SignedExponent(s, p, ExponentSize(s, p)) - (p.fraction - p.point) == 0 - k
    ensures 0.0 < Magnitude(s, p) <= Underflow()
  {
    EightsAreLess(k);
    InverseOrder(3 * k, k);
    BinaryIncreases(0 - 3 * k, SMALLEST_EXPONENT - 1);
    var x := Power(0 - k);
    assert Times(1, x) == x + Times(0, x);
  }
}
