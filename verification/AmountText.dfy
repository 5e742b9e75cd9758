/**
  Amounts as decimal text: writing an amount of an asset with its precision, reading it back,
  and for which amounts the two agree.
 */
module AmountText {
  import opened Commons
  import opened Wrappers
  import opened Prices

  const INT64_MAX: int := 0x7fff_ffff_ffff_ffff

  // ----- numbers as digits ------------------------------------------------------------------

  function Power(n: nat): (r: nat)
    ensures r > 0
  {
    if n == 0 then 1 else 10 * Power(n - 1)
  }

  function DigitChar(d: nat): (c: char)
    requires d < 10
    ensures IsDigit(c) && DigitValue(c) == d
  {
    ('0' as int + d) as char
  }

  predicate IsDigit(c: char) {
    '0' <= c <= '9'
  }

  function DigitValue(c: char): (d: nat)
    requires IsDigit(c)
    ensures d < 10
  {
    c as int - '0' as int
  }

  predicate AllDigits(s: string) {
    forall c <- s :: IsDigit(c)
  }

  function Digits(n: nat): string {
    if n < 10 then [DigitChar(n)] else Digits(n / 10) + [DigitChar(n % 10)]
  }

  function Value(s: string): nat
    requires AllDigits(s)
  {
    if s == "" then 0 else Value(s[..|s| - 1]) * 10 + DigitValue(s[|s| - 1])
  }

  lemma {:induction false} DigitsRoundTrip(n: nat)
    ensures AllDigits(Digits(n)) && Digits(n) != "" && Value(Digits(n)) == n
  {
    if n >= 10 {
      DigitsRoundTrip(n / 10);
      assert Digits(n)[..|Digits(n)| - 1] == Digits(n / 10);
    } else {
      assert Digits(n)[..0] == "";
    }
  }

  lemma {:induction false} DigitsLength(n: nat, k: nat)
    requires Power(k) <= n < Power(k + 1)
    ensures |Digits(n)| == k + 1
  {
    if k > 0 {
      DigitsLength(n / 10, k - 1);
    }
  }

  lemma {:induction false} ValueIsBelow(s: string)
    requires AllDigits(s)
    ensures Value(s) < Power(|s|)
  {
    if s != "" {
      ValueIsBelow(s[..|s| - 1]);
    }
  }

  lemma {:induction false} ValueConcat(s: string, t: string)
    requires AllDigits(s) && AllDigits(t)
    ensures AllDigits(s + t) && Value(s + t) == Value(s) * Power(|t|) + Value(t)
  {
    if t == "" {
      assert s + t == s;
    } else {
      var k := |t| - 1;
      ValueConcat(s, t[..k]);
      assert (s + t)[..|s + t| - 1] == s + t[..k];
      Regroup(Value(s), Power(k), Value(t[..k]), DigitValue(t[k]));
    }
  }

  lemma Regroup(x: nat, p: nat, y: nat, d: nat)
    ensures (x * p + y) * 10 + d == x * (10 * p) + (y * 10 + d)
  {}

  function Zeros(n: nat): (s: string)
    ensures |s| == n && AllDigits(s)
  {
    if n == 0 then "" else Zeros(n - 1) + "0"
  }

  lemma {:induction false} ZerosValue(n: nat)
    ensures Value(Zeros(n)) == 0
  {
    if n > 0 {
      ZerosValue(n - 1);
      assert Zeros(n)[..n - 1] == Zeros(n - 1);
    }
  }

  // ----- reading ----------------------------------------------------------------------------

  function LeadingDigits(s: string): (d: string)
    ensures AllDigits(d)
  {
    if s == "" || !IsDigit(s[0]) then "" else [s[0]] + LeadingDigits(s[1..])
  }

  /** The library's conversion: a sign, then as many digits as follow; it throws without any. */
  function ToInteger(s: string): Option<int> {
    var negative := s != "" && s[0] == '-';
    var digits := LeadingDigits(if negative then s[1..] else s);
    if digits == "" || Value(digits) > INT64_MAX + (if negative then 1 else 0) then None
    else Some(if negative then 0 - Value(digits) else Value(digits))
  }

  predicate Safe(x: int) {
    -INT64_MAX - 1 <= x <= INT64_MAX
  }

  /** Digits, and at most one minus and one point, anywhere. */
  predicate Readable(s: string) {
    && (forall c <- s :: IsDigit(c) || c == '-' || c == '.')
    && multiset(s)['-'] <= 1 && multiset(s)['.'] <= 1
  }

  /** The place of the point, or the end. */
  function PointAt(s: string): (n: nat)
    ensures n <= |s| && (n < |s| ==> s[n] == '.')
  {
    if s == "" || s[0] == '.' then 0 else 1 + PointAt(s[1..])
  }

  /** What stands before the point; a minus counts as the first character wherever it is. */
  function WholeText(s: string): string {
    var from := if '-' in s then 1 else 0;
    if '.' in s then s[from..Min(from + PointAt(s), |s|)] else s[from..]
  }

  function WholePart(s: string, precision: nat): Option<int> {
    if WholeText(s) == "" then Some(0)
    else
      var whole := ToInteger(WholeText(s));
      if whole.None? || !Safe(whole.value * Power(precision)) then None else Some(whole.value * Power(precision))
  }

  /** What stands behind the point, filled up with zeros to the precision. */
  function Fraction(s: string, precision: nat): Option<int> {
    if '.' !in s then Some(0)
    else
      var rhs := s[Min(PointAt(s) + 1, |s|)..];
      if |rhs| > precision then None
      else if precision == 0 then Some(0)
      else ToInteger(rhs + Zeros(precision - |rhs|))
  }

  function FromText(s: string, precision: nat): Option<int> {
    if !Readable(s) || precision >= 19 then None
    else
      var whole, fraction := WholePart(s, precision), Fraction(s, precision);
      if whole.None? || fraction.None? || !Safe(whole.value + fraction.value)
         || whole.value + fraction.value > MAX_SHARE_SUPPLY
      then None
      else Some(if '-' in s then 0 - (whole.value + fraction.value) else whole.value + fraction.value)
  }

  // ----- writing ----------------------------------------------------------------------------

  /** Division and remainder round toward zero. */
  function Quotient(a: int, d: nat): int
    requires d > 0
  {
    if a >= 0 then a / d else 0 - (0 - a) / d
  }

  function Remainder(a: int, d: nat): int
    requires d > 0
  {
    if a >= 0 then a % d else 0 - (0 - a) % d
  }

  function Signed(n: int): string {
    if n >= 0 then Digits(n) else "-" + Digits(0 - n)
  }

  /** The fraction without its leading one is all its digits; a zero fraction is left out. */
  function TextAt(a: int, scale: nat): string
    requires scale > 0
  {
    var fraction := Remainder(a, scale);
    if fraction == 0 then Signed(Quotient(a, scale))
    else Signed(Quotient(a, scale)) + "." + Digits(scale + fraction)[1..]
  }

  function ToText(a: int, precision: nat): string {
    TextAt(a, Power(precision))
  }

  // ----- reading what was written -------------------------------------------------------------

  lemma {:induction false} LeadingOf(x: string, rest: string)
    requires AllDigits(x) && (rest == "" || !IsDigit(rest[0]))
    ensures LeadingDigits(x + rest) == x
  {
    if x == "" {
      assert x + rest == rest;
    } else {
      LeadingOf(x[1..], rest);
      assert (x + rest)[1..] == x[1..] + rest;
    }
  }

  lemma ReadInteger(x: string, rest: string)
    requires AllDigits(x) && x != "" && (rest == "" || !IsDigit(rest[0])) && Value(x) <= INT64_MAX
    ensures ToInteger(x + rest) == Some(Value(x))
  {
    LeadingOf(x, rest);
    assert IsDigit(x[0]) && (x + rest)[0] == x[0];
  }

  lemma {:induction false} PointOf(x: string, rest: string)
    requires (forall c <- x :: c != '.') && (rest == "" || rest[0] == '.')
    ensures PointAt(x + rest) == |x|
  {
    if x == "" {
      assert x + rest == rest;
    } else {
      assert x[0] in x && forall c <- x[1..] :: c in x;
      PointOf(x[1..], rest);
      assert (x + rest)[1..] == x[1..] + rest;
    }
  }

  lemma DigitsOnly(x: string)
    requires AllDigits(x)
    ensures '-' !in x && '.' !in x && multiset(x)['-'] == 0 && multiset(x)['.'] == 0
  {}

  /** A sign, digits, and perhaps a point with digits behind it, is readable. */
  lemma TextIsReadable(sign: string, x: string, tail: string)
    requires sign == "" || sign == "-"
    requires AllDigits(x) && (tail == "" || (tail[0] == '.' && AllDigits(tail[1..])))
    ensures Readable(sign + x + tail)
    ensures '-' in sign + x + tail <==> sign == "-"
    ensures '.' in sign + x + tail <==> tail != ""
  {
    DigitsOnly(x);
    if tail != "" {
      DigitsOnly(tail[1..]);
      assert tail == ['.'] + tail[1..];
    }
    assert multiset(sign + x + tail) == multiset(sign) + multiset(x) + multiset(tail);
  }

  lemma {:induction false} PowerGrows(k: nat, n: nat)
    requires k <= n
    ensures Power(k) <= Power(n)
  {
    if k < n {
      PowerGrows(k, n - 1);
    }
  }

  lemma ScaleIsSafe(precision: nat)
    requires precision < 19
    ensures Power(precision) <= 1_000_000_000_000_000_000 < INT64_MAX
  {
    PowerGrows(precision, 18);
    assert Power(3) == 1000;
    PowerAdds(3, 3);
    PowerAdds(6, 6);
    PowerAdds(12, 6);
  }

  lemma {:induction false} PowerAdds(j: nat, k: nat)
    ensures Power(j + k) == Power(j) * Power(k)
  {
    if j > 0 {
      PowerAdds(j - 1, k);
      TimesTen(Power(j - 1), Power(k));
    }
  }

  lemma TimesTen(x: nat, y: nat)
    ensures 10 * (x * y) == (10 * x) * y
  {}

  /** The whole part is read as written, with or without a point behind it. */
  lemma WholeIsRead(sign: string, q: nat, tail: string, precision: nat)
    requires sign == "" || sign == "-"
    requires tail == "" || (tail[0] == '.' && AllDigits(tail[1..]))
    requires q * Power(precision) <= MAX_SHARE_SUPPLY
    ensures WholePart(sign + Digits(q) + tail, precision) == Some(q * Power(precision))
  {
    hide Digits, Value, WholeText, ToInteger, Power;
    var x := Digits(q);
    var rest := if tail == "" || sign == "" then "" else ".";
    DigitsRoundTrip(q);
    ScaledDown(q, Power(precision), MAX_SHARE_SUPPLY);
    ReadInteger(x, rest);
    if tail == "" {
      WholeTextAlone(sign, x);
      assert sign + x + "" == sign + x;
    } else {
      WholeTextOf(sign, x, tail);
    }
    assert WholeText(sign + x + tail) == x + rest;
  }

  lemma WholeTextAlone(sign: string, x: string)
    requires (sign == "" || sign == "-") && AllDigits(x)
    ensures WholeText(sign + x) == x + ""
  {}

  lemma ScaledDown(q: nat, scale: nat, max: nat)
    requires scale > 0 && q * scale <= max
    ensures q <= max
  {}

  lemma WholeTextOf(sign: string, x: string, tail: string)
    requires (sign == "" || sign == "-") && AllDigits(x) && x != ""
    requires tail != "" && tail[0] == '.' && AllDigits(tail[1..])
    ensures WholeText(sign + x + tail) == x + (if sign == "" then "" else ".")
  {
    hide Readable, PointAt;
    var s := sign + x + tail;
    TextIsReadable(sign, x, tail);
    DigitsOnly(x);
    PointOf(sign + x, tail);
    UpToPoint(sign, x, tail);
    assert PointAt(s) == |sign| + |x| && '.' in s;
  }

  /** The piece after the sign, as long as everything before the point. */
  lemma UpToPoint(sign: string, x: string, tail: string)
    requires (sign == "" || sign == "-") && tail != "" && tail[0] == '.'
    ensures (sign + x + tail)[|sign|..|sign| + (|sign| + |x|)] == x + (if sign == "" then "" else ".")
  {}

  /** The fraction is read as the digits behind the point, filled up. */
  lemma FractionIsRead(sign: string, x: string, t: string, precision: nat)
    requires sign == "" || sign == "-"
    requires AllDigits(x) && AllDigits(t) && |t| <= precision && 0 < precision < 19
    ensures Fraction(sign + x + ("." + t), precision) == Some(Value(t) * Power(precision - |t|))
  {
    hide Value, LeadingDigits, ToInteger, PointAt, Power, Readable, Zeros;
    var tail := "." + t;
    var s := sign + x + tail;
    assert tail[1..] == t;
    TextIsReadable(sign, x, tail);
    DigitsOnly(x);
    PointOf(sign + x, tail);
    assert s[|sign + x| + 1..] == t;
    PaddedIsRead(t, precision);
  }

  lemma PaddedIsRead(t: string, precision: nat)
    requires AllDigits(t) && |t| <= precision && 0 < precision < 19
    ensures ToInteger(t + Zeros(precision - |t|)) == Some(Value(t) * Power(precision - |t|))
  {
    hide LeadingDigits, ToInteger, Power, Digits;
    var padded := t + Zeros(precision - |t|);
    ValueConcat(t, Zeros(precision - |t|));
    ZerosValue(precision - |t|);
    ValueIsBelow(padded);
    ScaleIsSafe(precision);
    assert padded + "" == padded;
    ReadInteger(padded, "");
  }

  lemma NoFraction(sign: string, x: string, precision: nat)
    requires (sign == "" || sign == "-") && AllDigits(x)
    ensures Fraction(sign + x, precision) == Some(0)
  {}

  /** Without their leading one, the digits of scale plus fraction are those of the fraction. */
  lemma FractionDigits(precision: nat, d: nat)
    requires d < Power(precision)
    ensures var t := Digits(Power(precision) + d)[1..];
      |t| == precision && AllDigits(t) && Value(t) == d
  {
    hide Digits;
    var scale := Power(precision);
    var all := Digits(scale + d);
    DigitsLength(scale + d, precision);
    DigitsRoundTrip(scale + d);
    var first, t := all[..1], all[1..];
    assert all == first + t;
    ValueConcat(first, t);
    ValueIsBelow(t);
    assert first[..0] == "" && Value(first) == DigitValue(first[0]);
    LeadingOne(scale, d, DigitValue(first[0]), Value(t));
  }

  lemma LeadingOne(scale: nat, d: nat, leading: nat, m: nat)
    requires scale + d == leading * scale + m && d < scale && m < scale
    ensures m == d
  {}

  /** Both parts together, with the sign. */
  lemma Assembled(sign: string, x: string, tail: string, precision: nat, whole: nat, fraction: nat)
    requires sign == "" || sign == "-"
    requires AllDigits(x) && (tail == "" || (tail[0] == '.' && AllDigits(tail[1..]))) && precision < 19
    requires WholePart(sign + x + tail, precision) == Some(whole)
    requires Fraction(sign + x + tail, precision) == Some(fraction)
    requires whole <= MAX_SHARE_SUPPLY && fraction <= 1_000_000_000_000_000_000
    ensures FromText(sign + x + tail, precision) ==
            if whole + fraction > MAX_SHARE_SUPPLY then None
            else Some(if sign == "-" then 0 - (whole + fraction) else whole + fraction)
  {
    hide WholePart, Fraction, Readable;
    TextIsReadable(sign, x, tail);
  }

  /** A text without a point is read as the whole number that it shows. */
  lemma WholeRoundTrip(sign: string, q: nat, precision: nat)
    requires (sign == "" || sign == "-") && precision < 19 && q * Power(precision) <= MAX_SHARE_SUPPLY
    ensures FromText(sign + Digits(q), precision) ==
            Some(if sign == "-" then 0 - q * Power(precision) else q * Power(precision))
  {
    hide Digits, WholePart, Fraction, Power, FromText;
    var x := Digits(q);
    DigitsRoundTrip(q);
    WholeIsRead(sign, q, "", precision);
    NoFraction(sign, x, precision);
    assert sign + x + "" == sign + x;
    Assembled(sign, x, "", precision, q * Power(precision), 0);
  }

  /** A text with a point is read as its whole part and its digits behind the point. */
  lemma PointRoundTrip(sign: string, q: nat, t: string, precision: nat)
    requires (sign == "" || sign == "-") && 0 < precision < 19 && q * Power(precision) <= MAX_SHARE_SUPPLY
    requires AllDigits(t) && |t| <= precision
    ensures var value := q * Power(precision) + Value(t) * Power(precision - |t|);
      FromText(sign + Digits(q) + "." + t, precision) ==
        if value > MAX_SHARE_SUPPLY then None else Some(if sign == "-" then 0 - value else value)
  {
    hide Digits, WholePart, Fraction, Power, FromText, Value;
    var x, tail := Digits(q), "." + t;
    assert tail[1..] == t;
    DigitsRoundTrip(q);
    WholeIsRead(sign, q, tail, precision);
    FractionIsRead(sign, x, t, precision);
    FilledUpFits(t, precision);
    Assembled(sign, x, tail, precision, q * Power(precision), Value(t) * Power(precision - |t|));
    assert sign + x + tail == sign + x + "." + t;
  }

  lemma FilledUpFits(t: string, precision: nat)
    requires AllDigits(t) && |t| <= precision < 19
    ensures Value(t) * Power(precision - |t|) <= 1_000_000_000_000_000_000
  {
    hide Value, Power;
    ValueIsBelow(t);
    PowerAdds(|t|, precision - |t|);
    MulMonotone(Value(t), Power(|t|), Power(precision - |t|));
    ScaleIsSafe(precision);
  }

  /** Every amount up to the maximum supply is read back as it was written. */
  lemma RoundTrip(a: nat, precision: nat)
    requires precision < 19 && a <= MAX_SHARE_SUPPLY
    ensures FromText(ToText(a, precision), precision) == Some(a)
  {
    hide Digits, Value, FromText, Power;
    var scale := Power(precision);
    var q, d := a / scale, a % scale;
    FloorBounds(a, scale);
    assert q * scale + d == a;
    if d == 0 {
      WholeRoundTrip("", q, precision);
      assert "" + Digits(q) == Digits(q);
    } else {
      DigitsRoundTrip(scale + d);
      FractionDigits(precision, d);
      UnitPower();
      var t := Digits(scale + d)[1..];
      PointRoundTrip("", q, t, precision);
      assert "" + Digits(q) + "." + t == Digits(q) + "." + t;
    }
  }

  lemma UnitPower()
    ensures Power(0) == 1
  {}

  // ----- negative amounts ---------------------------------------------------------------------

  /** Dividing both sides by ten until only the last digits are left. */
  lemma {:induction false} NeverMatches(m: nat, leading: nat, e: nat, j: nat)
    requires 1 <= leading <= 9 && j >= 1
    ensures m * (1 + Power(j)) != Power(e) * (Power(j) - leading)
  {
    var u := Power(j - 1);
    assert Power(j) == 10 * u;
    if e == 0 {
      if m >= 1 {
        MulMonotone(1, m, 1 + Power(j));
      }
    } else if m % 10 == 0 {
      NeverMatches(m / 10, leading, e - 1, j);
      TenTimes(m / 10, 1 + Power(j));
      TenTimes(Power(e - 1), Power(j) - leading);
    } else {
      LastDigit(m, u);
      LastDigitZero(Power(e - 1), Power(j) - leading);
    }
  }

  lemma TenTimes(x: nat, y: int)
    ensures (10 * x) * y == 10 * (x * y)
  {}

  lemma LastDigit(m: nat, u: nat)
    ensures m * (1 + 10 * u) % 10 == m % 10
  {
    assert m * (1 + 10 * u) == m + 10 * (m * u);
  }

  lemma LastDigitZero(x: nat, y: int)
    ensures (10 * x) * y % 10 == 0
  {
    TenTimes(x, y);
  }

  lemma {:induction false} DigitsBounds(n: nat)
    requires n > 0
    ensures Power(|Digits(n)| - 1) <= n < Power(|Digits(n)|)
  {
    if n >= 10 {
      DigitsBounds(n / 10);
    } else {
      assert Power(1) == 10 && Power(0) == 1;
    }
  }

  /**
    What a negative amount's text says behind the point: the digits of scale minus fraction
    without the first one, filled up with zeros. It is never the fraction.
   */
  lemma WrongFraction(precision: nat, r: nat)
    requires 0 < r < Power(precision)
    ensures var t := Digits(Power(precision) - r)[1..];
      |t| < precision && AllDigits(t) && Value(t) * Power(precision - |t|) != r
  {
    var y := Power(precision) - r;
    var all := Digits(y);
    DigitsRoundTrip(y);
    DigitsBounds(y);
    var first, t := all[..1], all[1..];
    var e, j := |t|, precision - |t|;
    if e >= precision {
      PowerGrows(precision, e);
    }
    assert all == first + t && first[..0] == "";
    ValueConcat(first, t);
    ValueIsBelow(t);
    var leading, m := DigitValue(first[0]), Value(t);
    assert y == leading * Power(e) + m;
    assert leading >= 1;
    PowerAdds(e, j);
    NeverMatches(m, leading, e, j);
    SplitProducts(m, leading, Power(e), Power(j));
  }

  lemma SplitProducts(m: nat, leading: nat, x: nat, y: nat)
    ensures m * (1 + y) == m + m * y
    ensures x * (y - leading) == x * y - leading * x
  {}

  lemma NegativeMultiple(x: nat, precision: nat)
    requires precision < 19 && 0 < x <= MAX_SHARE_SUPPLY && x % Power(precision) == 0
    ensures FromText(ToText(0 - x, precision), precision) == Some(0 - x)
  {
    hide Digits, Value, FromText, Power;
    var scale := Power(precision);
    var q := x / scale;
    FloorBounds(x, scale);
    assert q * scale == x && q > 0;
    WholeRoundTrip("-", q, precision);
  }

  /** The text of a negative amount with a fraction: no sign if the whole part is zero. */
  lemma NegativeText(x: nat, scale: nat)
    requires x > 0 && scale > 0 && x % scale != 0
    ensures Digits(scale - x % scale) != ""
    ensures TextAt(0 - x, scale) == Signed(0 - x / scale) + "." + Digits(scale - x % scale)[1..]
  {
    hide Digits, Signed;
    DigitsRoundTrip(scale - x % scale);
    var a: int := 0 - x;
    assert Remainder(a, scale) == 0 - x % scale;
    assert Quotient(a, scale) == 0 - x / scale;
  }

  lemma SignedNegative(q: nat)
    ensures Signed(0 - q) == (if q == 0 then "" else "-") + Digits(q)
  {}

  lemma NegativeReadsWrong(sign: string, q: nat, r: nat, precision: nat)
    requires precision < 19 && 0 < r < Power(precision) && q * Power(precision) + r <= MAX_SHARE_SUPPLY
    requires sign == if q == 0 then "" else "-"
    ensures Digits(Power(precision) - r) != ""
    ensures FromText(sign + Digits(q) + "." + Digits(Power(precision) - r)[1..], precision) !=
            Some(0 - (q * Power(precision) + r))
  {
    hide Digits, Value, FromText, Power;
    DigitsRoundTrip(Power(precision) - r);
    WrongFraction(precision, r);
    var t := Digits(Power(precision) - r)[1..];
    PointRoundTrip(sign, q, t, precision);
  }

  lemma NegativeFraction(x: nat, precision: nat)
    requires precision < 19 && 0 < x <= MAX_SHARE_SUPPLY && x % Power(precision) != 0
    ensures FromText(ToText(0 - x, precision), precision) != Some(0 - x)
  {
    hide Digits, FromText, TextAt, Power, Signed;
    var scale := Power(precision);
    var q, r := x / scale, x % scale;
    FloorBounds(x, scale);
    assert q * scale + r == x;
    NegativeText(x, scale);
    SignedNegative(q);
    NegativeReadsWrong(if q == 0 then "" else "-", q, r, precision);
  }

  /**
    Among all amounts within the maximum, exactly those that are not negative or have no
    fraction are read back as they were written.
   */
  lemma RoundTripExactly(a: int, precision: nat)
    requires precision < 19 && 0 <= a + MAX_SHARE_SUPPLY && a <= MAX_SHARE_SUPPLY
    ensures FromText(ToText(a, precision), precision) == Some(a) <==> a >= 0 || Remainder(a, Power(precision)) == 0
  {
    hide FromText, ToText, Power;
    if a >= 0 {
      RoundTrip(a, precision);
    } else if (0 - a) % Power(precision) == 0 {
      NegativeMultiple(0 - a, precision);
    } else {
      NegativeFraction(0 - a, precision);
    }
  }

  lemma NegativeFractionHappens()
    ensures ToText(-5, 1) == "0." && FromText("0.", 1) == Some(0)
  {
    assert Digits(5) == "5" && Digits(0) == "0" && Digits(5)[1..] == "";
    assert "0" + "." + "" == "0.";
    PointRoundTrip("", 0, "", 1);
    assert "" + Digits(0) + "." + "" == "0.";
  }

  // ----- the loops of the two conversions -----------------------------------------------------

  method ScaleOf(precision: nat) returns (scale: nat)
    ensures scale == Power(precision)
  {
    scale := 1;
    for i := 0 to precision
      invariant scale == Power(i)
    {
      scale := scale * 10;
    }
  }

  method AmountToString(a: int, precision: nat) returns (text: string)
    ensures text == ToText(a, precision)
  {
    var scale := ScaleOf(precision);
    text := Signed(Quotient(a, scale));
    var decimals := Remainder(a, scale);
    if decimals != 0 {
      text := text + "." + Digits(scale + decimals)[1..];
    }
  }

  /** Whether all characters may occur; notes a minus and a point, and stops at a second one. */
  method Scan(s: string) returns (ok: bool, negative: bool, point: bool)
    ensures ok == Readable(s)
    ensures ok ==> negative == ('-' in s) && point == ('.' in s)
  {
    negative, point := false, false;
    for i := 0 to |s|
      invariant Readable(s[..i])
      invariant negative == ('-' in s[..i]) && point == ('.' in s[..i])
    {
      assert s[..i + 1] == s[..i] + [s[i]];
      assert s == s[..i + 1] + s[i + 1..];
      OneMoreCharacter(s[..i], s[i], s[i + 1..]);
      if IsDigit(s[i]) {
        continue;
      }
      if s[i] == '-' && !negative {
        negative := true;
        continue;
      }
      if s[i] == '.' && !point {
        point := true;
        continue;
      }
      return false, negative, point;
    }
    assert s[..|s|] == s;
    ok := true;
  }

  lemma OneMoreCharacter(x: string, c: char, rest: string)
    requires Readable(x)
    ensures Readable(x + [c]) <==> IsDigit(c) || (c == '-' && '-' !in x) || (c == '.' && '.' !in x)
    ensures !Readable(x + [c]) ==> !Readable(x + [c] + rest)
  {}

  /** Fills up with zeros to the wanted size. */
  method FillUp(rhs: string, size: nat) returns (filled: string)
    requires |rhs| <= size
    ensures filled == rhs + Zeros(size - |rhs|)
  {
    filled := rhs;
    assert rhs + Zeros(0) == rhs;
    while |filled| < size
      invariant |rhs| <= |filled| <= size && filled == rhs + Zeros(|filled| - |rhs|)
    {
      ghost var n := |filled| - |rhs|;
      filled := filled + "0";
      assert Zeros(n + 1) == Zeros(n) + "0";
    }
  }

  method AmountFromString(s: string, precision: nat) returns (amount: Option<int>)
    ensures amount == FromText(s, precision)
  {
    hide Readable, WholePart, Fraction;
    var ok, negative, point := Scan(s);
    if !ok || precision >= 19 {
      return None;
    }
    var satoshis := ReadWhole(s, negative, point, precision);
    if satoshis.None? {
      return None;
    }
    var fraction := ReadFraction(s, point, precision);
    if fraction.None? || !Safe(satoshis.value + fraction.value) {
      return None;
    }
    var total := satoshis.value + fraction.value;
    if total > MAX_SHARE_SUPPLY {
      return None;
    }
    return Some(if negative then 0 - total else total);
  }

  method ReadWhole(s: string, negative: bool, point: bool, precision: nat) returns (whole: Option<int>)
    requires negative == ('-' in s) && point == ('.' in s)
    ensures whole == WholePart(s, precision)
  {
    hide ToInteger, Power, PointAt;
    var scale := ScaleOf(precision);
    var from := if negative then 1 else 0;
    var lhs := if point then s[from..Min(from + PointAt(s), |s|)] else s[from..];
    if lhs == "" {
      return Some(0);
    }
    whole := ToInteger(lhs);
    if whole.Some? {
      whole := if Safe(whole.value * scale) then Some(whole.value * scale) else None;
    }
  }

  method ReadFraction(s: string, point: bool, precision: nat) returns (fraction: Option<int>)
    requires point == ('.' in s)
    ensures fraction == Fraction(s, precision)
  {
    hide ToInteger, PointAt, Zeros;
    if !point {
      return Some(0);
    }
    var rhs := s[Min(PointAt(s) + 1, |s|)..];
    if |rhs| > precision {
      return None;
    }
    var filled := FillUp(rhs, precision);
    fraction := if filled != "" then ToInteger(filled) else Some(0);
  }
}
