/** Decimal numbers as CSS spells them: what is accepted, and how large the
    accepted number is. */
module CssNumbers {
  /** Added to the length of the text, beyond what its mantissa can cancel. */
  const EXPONENT_MARGIN := 1024
  /** Powers of ten from here on are infinite. */
  const INFINITE_ORDER := 309

  predicate IsDigit(c: char) {
    '0' <= c <= '9'
  }

  predicate IsSign(c: char) {
    c == '+' || c == '-'
  }

  predicate AllDigits(s: string) {
    forall i :: 0 <= i < |s| ==> IsDigit(s[i])
  }

  /** Where the parts of a number end: its sign, its integer digits, its point,
      its fraction digits, its exponent marker and its exponent sign; the
      exponent digits end with the text. */
  datatype Cuts = Cuts(sign: nat, integer: nat, point: nat, fraction: nat, marker: nat, exponentSign: nat)

  predicate Ordered(s: string, p: Cuts) {
    p.sign <= p.integer <= p.point <= p.fraction <= p.marker <= p.exponentSign <= |s|
  }

  /** An optional sign; digits, or a point with digits after it and perhaps
      before it; and an optional exponent with its own optional sign. */
  predicate Reads(s: string, p: Cuts) {
    && Ordered(s, p)
    && (p.sign == 0 || (p.sign == 1 && IsSign(s[0])))
    && AllDigits(s[p.sign..p.integer]) && AllDigits(s[p.point..p.fraction]) && AllDigits(s[p.exponentSign..])
    && (if p.point == p.integer then p.fraction == p.point && p.integer > p.sign
        else p.point == p.integer + 1 && s[p.integer] == '.' && p.fraction > p.point)
    && (if p.marker == p.fraction then p.exponentSign == p.marker == |s|
        else
          && p.marker == p.fraction + 1 && IsMarker(s[p.fraction])
          && (p.exponentSign == p.marker || (p.exponentSign == p.marker + 1 && IsSign(s[p.marker])))
          && p.exponentSign < |s|)
  }

  /** The end of the digits that start at `i`. */
  function Run(s: string, i: nat): (j: nat)
    requires i <= |s|
    ensures i <= j <= |s| && (j < |s| ==> !IsDigit(s[j]))
    decreases |s| - i
  {
    if i < |s| && IsDigit(s[i]) then Run(s, i + 1) else i
  }

  lemma {:induction false} RunIs(s: string, i: nat, j: nat)
    requires i <= j <= |s| && AllDigits(s[i..j]) && (j < |s| ==> !IsDigit(s[j]))
    ensures Run(s, i) == j
    decreases j - i
  {
    if i < j {
      assert s[i..j][0] == s[i] && s[i + 1..j] == s[i..j][1..];
      RunIs(s, i + 1, j);
    }
  }

  /** The sign, if there is one, belongs to the number. */
  lemma {:induction false} SignTaken(s: string, p: Cuts)
    requires Reads(s, p)
    ensures p.sign == (if |s| > 0 && IsSign(s[0]) then 1 else 0)
  {
    if p.integer > p.sign {
      FirstDigit(s, p);
    }
  }

  lemma {:induction false} FirstDigit(s: string, p: Cuts)
    requires Reads(s, p) && p.integer > p.sign
    ensures IsDigit(s[p.sign])
  {
    assert s[p.sign..p.integer][0] == s[p.sign];
  }

  predicate IsMarker(c: char) {
    c == 'e' || c == 'E'
  }

  /** Every part as long as it can be. */
  function CutsOf(s: string): (p: Cuts)
    ensures Ordered(s, p)
  {
    var sign := if |s| > 0 && IsSign(s[0]) then 1 else 0;
    var integer := Run(s, sign);
    var point := if integer < |s| && s[integer] == '.' then integer + 1 else integer;
    var fraction := if point > integer then Run(s, point) else point;
    var marker := if fraction < |s| && IsMarker(s[fraction]) then fraction + 1 else fraction;
    var exponentSign := if marker > fraction && marker < |s| && IsSign(s[marker]) then marker + 1 else marker;
    Cuts(sign, integer, point, fraction, marker, exponentSign)
  }

  /** A text is read in one way only. */
  lemma {:induction false} PartsForced(s: string, p: Cuts)
    requires Reads(s, p)
    ensures p == CutsOf(s)
  {
    SignTaken(s, p);
    RunIs(s, p.sign, p.integer);
    RunIs(s, p.point, p.fraction);
    if p.marker > p.fraction && p.exponentSign == p.marker {
      assert s[p.exponentSign..][0] == s[p.marker];
    }
  }

  /* Magnitude. */

  function DigitValue(c: char): nat
    requires IsDigit(c)
  {
    c as int - '0' as int
  }

  function Number(ds: string): nat
    requires AllDigits(ds)
  {
    if ds == "" then 0 else Number(ds[..|ds| - 1]) * 10 + DigitValue(ds[|ds| - 1])
  }

  /** The place of the first digit that is not zero, or -1. */
  function FirstNonzero(ds: string): (k: int)
    ensures -1 <= k < |ds|
  {
    if ds == "" then -1
    else
      var k := FirstNonzero(ds[..|ds| - 1]);
      if k >= 0 then k else if ds[|ds| - 1] != '0' then |ds| - 1 else -1
  }

  function Mantissa(s: string, p: Cuts): string
    requires Ordered(s, p)
  {
    s[p.sign..p.integer] + s[p.point..p.fraction]
  }

  lemma {:induction false} MantissaDigits(s: string, p: Cuts)
    requires Reads(s, p)
    ensures AllDigits(Mantissa(s, p))
  {
  }

  predicate Negative(s: string, p: Cuts)
    requires Ordered(s, p)
  {
    p.sign == 1 && s[0] == '-'
  }

  predicate NegativeExponent(s: string, p: Cuts)
    requires Ordered(s, p)
  {
    p.exponentSign == p.marker + 1 && s[p.marker] == '-'
  }

  function SignedExponent(s: string, p: Cuts, size: nat): int
    requires Ordered(s, p)
  {
    if NegativeExponent(s, p) then 0 - size else size
  }

  /** The power of ten of the first digit that is not zero, with `size` as the
      size of the exponent. */
  function Order(s: string, p: Cuts, size: nat): int
    requires Ordered(s, p)
  {
    (p.integer - p.sign) - FirstNonzero(Mantissa(s, p)) - 1 + SignedExponent(s, p, size)
  }

  function ExponentSize(s: string, p: Cuts): nat
    requires Reads(s, p)
  {
    Number(s[p.exponentSign..])
  }

  function Saturated(size: nat, cap: nat): nat {
    if size < cap then size else cap
  }

  function Pow10(e: nat): nat {
    if e == 0 then 1 else 10 * Pow10(e - 1)
  }

  /** Ten to an integer power. */
  function Power(e: int): real
    ensures Power(e) > 0.0
    decreases if e < 0 then -e else e
  {
    if e == 0 then 1.0 else if e > 0 then 10.0 * Power(e - 1) else Power(e + 1) / 10.0
  }

  /** `n` times `x`. */
  function Times(n: nat, x: real): real {
    if n == 0 then 0.0 else x + Times(n - 1, x)
  }

  lemma {:induction false} TimesSum(m: nat, n: nat, x: real)
    ensures Times(m + n, x) == Times(m, x) + Times(n, x)
  {
    if m > 0 {
      TimesSum(m - 1, n, x);
    }
  }

  lemma {:induction false} TimesIncreases(m: nat, n: nat, x: real)
    requires m <= n && x > 0.0
    ensures Times(m, x) <= Times(n, x) && (m < n ==> Times(m, x) < Times(n, x))
  {
    if m < n {
      TimesIncreases(m, n - 1, x);
    }
  }

  function Magnitude(s: string, p: Cuts): real
    requires Reads(s, p)
  {
    MantissaDigits(s, p);
    Times(Number(Mantissa(s, p)), Power(SignedExponent(s, p, ExponentSize(s, p)) - (p.fraction - p.point)))
  }

  lemma {:induction false} PowerNext(e: int)
    ensures Power(e + 1) == 10.0 * Power(e)
  {
  }

  lemma {:induction false} TenTimes(n: nat, x: real)
    ensures Times(10 * n, x) == 10.0 * Times(n, x)
  {
    TimesSum(n, n, x);
    TimesSum(2 * n, 2 * n, x);
    TimesSum(4 * n, 4 * n, x);
    TimesSum(8 * n, 2 * n, x);
  }

  lemma {:induction false} PowerProduct(k: nat, e: int)
    ensures Times(Pow10(k), Power(e)) == Power(k + e)
  {
    if k == 0 {
      assert Times(1, Power(e)) == Power(e) + Times(0, Power(e));
    } else {
      PowerProduct(k - 1, e);
      PowerNext(k - 1 + e);
      TenTimes(Pow10(k - 1), Power(e));
    }
  }

  lemma {:induction false} PowerIncreases(d: int, e: int)
    requires d <= e
    ensures Power(d) <= Power(e)
    decreases e - d
  {
    if d < e {
      PowerIncreases(d, e - 1);
      PowerNext(e - 1);
    }
  }

  /** The digits from the first nonzero one on decide the size of a numeral. */
  lemma {:induction false} NumeralSize(ds: string)
    requires AllDigits(ds)
    ensures FirstNonzero(ds) < 0 <==> Number(ds) == 0
    ensures FirstNonzero(ds) >= 0 ==> Pow10(|ds| - 1 - FirstNonzero(ds)) <= Number(ds) < Pow10(|ds| - FirstNonzero(ds))
  {
    if ds != "" {
      NumeralSize(ds[..|ds| - 1]);
    }
  }

  /** The exact order brackets the magnitude between powers of ten. */
  lemma {:induction false} OrderBrackets(s: string, p: Cuts)
    requires Reads(s, p) && FirstNonzero(Mantissa(s, p)) >= 0
    ensures var order := Order(s, p, ExponentSize(s, p)); Power(order) <= Magnitude(s, p) < Power(order + 1)
  {
    MantissaDigits(s, p);
    var ds := Mantissa(s, p);
    NumeralSize(ds);
    Bracketed(|ds| - 1 - FirstNonzero(ds), Number(ds),
              SignedExponent(s, p, ExponentSize(s, p)) - (p.fraction - p.point));
  }

  lemma {:induction false} Bracketed(k: nat, n: nat, shift: int)
    requires Pow10(k) <= n < Pow10(k + 1)
    ensures Power(k + shift) <= Times(n, Power(shift)) < Power(k + shift + 1)
  {
    PowerProduct(k, shift);
    PowerProduct(k + 1, shift);
    TimesIncreases(Pow10(k), n, Power(shift));
    TimesIncreases(n, Pow10(k + 1), Power(shift));
  }

  /** Saturating the exponent does not change whether the number is infinite. */
  lemma {:induction false} SaturationHarmless(s: string, p: Cuts)
    requires Reads(s, p) && FirstNonzero(Mantissa(s, p)) >= 0
    ensures var size, cap := ExponentSize(s, p), |s| + EXPONENT_MARGIN;
            && (Order(s, p, Saturated(size, cap)) >= INFINITE_ORDER <==> Magnitude(s, p) >= Power(INFINITE_ORDER))
            && (size <= cap ==> Order(s, p, Saturated(size, cap)) == Order(s, p, size))
  {
    var size, cap := ExponentSize(s, p), |s| + EXPONENT_MARGIN;
    OrderBrackets(s, p);
    AtLeast(Order(s, p, size), INFINITE_ORDER, Magnitude(s, p));
    assert |Mantissa(s, p)| <= |s|;
  }

  lemma {:induction false} AtLeast(order: int, limit: int, x: real)
    requires Power(order) <= x < Power(order + 1)
    ensures order >= limit <==> x >= Power(limit)
  {
    if order >= limit {
      PowerIncreases(limit, order);
    } else {
      PowerIncreases(order + 1, limit);
    }
  }

  /* Scanning. */

  /** What the scanner learns of a run of digits. */
  ghost predicate Counted(s: string, from: nat, to: nat, before: string, digits: nat, first: int)
    requires from <= to <= |s|
  {
    digits == |before| + (to - from) && first == FirstNonzero(before + s[from..to])
  }

  /** Move over digits, counting them and noting the first that is not zero. */
  method ScanDigits(s: string, start: nat, digits: nat, first: int, ghost before: string)
    returns (i: nat, count: nat, nonzero: int)
    requires start <= |s| && digits == |before| && first == FirstNonzero(before)
    ensures i == Run(s, start) && AllDigits(s[start..i]) && Counted(s, start, i, before, count, nonzero)
  {
    i, count, nonzero := start, digits, first;
    assert before + s[start..start] == before;
    while i < |s| && IsDigit(s[i])
      invariant start <= i <= |s| && Run(s, start) == Run(s, i) && AllDigits(s[start..i])
      invariant Counted(s, start, i, before, count, nonzero)
    {
      ghost var seen := before + s[start..i];
      assert s[start..i + 1] == s[start..i] + [s[i]];
      assert before + s[start..i + 1] == seen + [s[i]];
      assert (seen + [s[i]])[..|seen|] == seen;
      if nonzero < 0 && s[i] != '0' {
        nonzero := count;
      }
      count := count + 1;
      i := i + 1;
    }
  }

  /** Read exponent digits, stopping to count at `cap`. */
  method ScanExponent(s: string, start: nat, cap: nat) returns (i: nat, exponent: nat)
    requires start <= |s| && cap >= 10
    ensures i == Run(s, start) && AllDigits(s[start..i]) && exponent == Saturated(Number(s[start..i]), cap)
  {
    i, exponent := start, 0;
    while i < |s| && IsDigit(s[i])
      invariant start <= i <= |s| && Run(s, start) == Run(s, i) && AllDigits(s[start..i])
      invariant exponent == Saturated(Number(s[start..i]), cap)
    {
      var digit := DigitValue(s[i]);
      assert s[start..i + 1][..i - start] == s[start..i] && s[start..i + 1][i - start] == s[i];
      if exponent > (cap - digit) / 10 {
        exponent := cap;
      } else {
        exponent := exponent * 10 + digit;
      }
      i := i + 1;
    }
  }

  datatype Scan = Rejected | Accepted(order: int, zero: bool, negative: bool)

  /** What the scanner must say of a text that reads as `p`. */
  ghost predicate Describes(s: string, p: Cuts, r: Scan)
    requires Reads(s, p)
  {
    && r.Accepted? && r.negative == Negative(s, p)
    && r.zero == (FirstNonzero(Mantissa(s, p)) < 0)
    && r.order == Order(s, p, Saturated(ExponentSize(s, p), |s| + EXPONENT_MARGIN))
  }

  /** The parts up to the end of the fraction, and where its digits begin to count. */
  method ScanMantissa(s: string) returns (p: Cuts, first: int, ok: bool)
    ensures var q := CutsOf(s);
            && p == Cuts(q.sign, q.integer, q.point, q.fraction, q.fraction, q.fraction)
            && AllDigits(s[p.sign..p.integer]) && AllDigits(s[p.point..p.fraction])
            && first == FirstNonzero(Mantissa(s, q))
            && ok == MantissaReads(q)
  {
    var start := if |s| > 0 && IsSign(s[0]) then 1 else 0;
    var integer, digits, nonzero := ScanDigits(s, start, 0, -1, "");
    assert "" + s[start..integer] == s[start..integer];
    if integer < |s| && s[integer] == '.' {
      var point := integer + 1;
      var i;
      i, digits, nonzero := ScanDigits(s, point, digits, nonzero, s[start..integer]);
      return Cuts(start, integer, point, i, i, i), nonzero, i > point;
    }
    assert s[start..integer] + s[integer..integer] == s[start..integer];
    return Cuts(start, integer, integer, integer, integer, integer), nonzero, integer > start;
  }

  /** The mantissa part of the grammar, and the exponent part. */
  predicate MantissaReads(p: Cuts) {
    if p.point > p.integer then p.fraction > p.point else p.integer > p.sign
  }

  predicate ExponentReads(s: string, p: Cuts)
    requires Ordered(s, p)
  {
    if p.marker > p.fraction then p.exponentSign < |s| && AllDigits(s[p.exponentSign..]) else p.fraction == |s|
  }

  lemma {:induction false} ReadsInTwo(s: string)
    requires AllDigits(s[CutsOf(s).sign..CutsOf(s).integer]) && AllDigits(s[CutsOf(s).point..CutsOf(s).fraction])
    ensures Reads(s, CutsOf(s)) <==> MantissaReads(CutsOf(s)) && ExponentReads(s, CutsOf(s))
  {
  }

  /** What follows the fraction: nothing, or an exponent that ends the text. */
  method ScanTail(s: string, from: nat) returns (exponent: int, ok: bool)
    requires from == CutsOf(s).fraction
    ensures ok == ExponentReads(s, CutsOf(s))
    ensures ok ==> var q := CutsOf(s);
                   AllDigits(s[q.exponentSign..]) &&
                   exponent == SignedExponent(s, q, Saturated(Number(s[q.exponentSign..]), |s| + EXPONENT_MARGIN))
  {
    exponent := 0;
    if from == |s| || !IsMarker(s[from]) {
      return 0, from == |s|;
    }
    var sign, minus := from + 1, false;
    if sign < |s| && IsSign(s[sign]) {
      minus := s[sign] == '-';
      sign := sign + 1;
    }
    var i, size := ScanExponent(s, sign, |s| + EXPONENT_MARGIN);
    if i == sign || i != |s| {
      ExponentForced(s, i);
      return 0, false;
    }
    assert s[sign..] == s[sign..i];
    exponent := size;
    if minus {
      exponent := -exponent;
    }
    ok := true;
  }

  /** An exponent needs digits, and nothing may follow them. */
  lemma {:induction false} ExponentForced(s: string, i: nat)
    requires var q := CutsOf(s);
             q.marker > q.fraction && i == Run(s, q.exponentSign) &&
             (i == q.exponentSign || i != |s|)
    ensures !ExponentReads(s, CutsOf(s))
  {
    var q := CutsOf(s);
    if AllDigits(s[q.exponentSign..]) {
      assert s[q.exponentSign..|s|] == s[q.exponentSign..];
      RunIs(s, q.exponentSign, |s|);
    }
  }

  /** A text is accepted exactly when it is a number, and described as it reads. */
  method ScanCssNumber(s: string) returns (r: Scan)
    ensures r.Accepted? <==> exists p :: Reads(s, p)
    ensures forall p :: Reads(s, p) ==> Describes(s, p, r)
  {
    forall p | Reads(s, p) { PartsForced(s, p); }
    var p, first, ok := ScanMantissa(s);
    ReadsInTwo(s);
    if !ok {
      return Rejected;
    }
    var exponent, ended := ScanTail(s, p.fraction);
    if !ended {
      return Rejected;
    }
    return Accepted((p.integer - p.sign) - first - 1 + exponent, first < 0, |s| > 0 && s[0] == '-');
  }

  lemma {:induction false} Sized(s: string, p: Cuts)
    requires Reads(s, p)
    ensures var first, order := FirstNonzero(Mantissa(s, p)),
            Order(s, p, Saturated(ExponentSize(s, p), |s| + EXPONENT_MARGIN));
            && (first < 0 <==> Magnitude(s, p) == 0.0)
            && (Magnitude(s, p) >= Power(INFINITE_ORDER) <==> first >= 0 && order >= INFINITE_ORDER)
  {
    MantissaDigits(s, p);
    NumeralSize(Mantissa(s, p));
    if FirstNonzero(Mantissa(s, p)) >= 0 {
      OrderBrackets(s, p);
      SaturationHarmless(s, p);
    }
  }
}
