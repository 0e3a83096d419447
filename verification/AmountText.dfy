/** Amounts of an asset as text, with as many decimals as the asset's precision. */
module AmountText {
  import opened Wrappers

  const MAX_SHARES := 1_000_000_000_000_000
  const INT64_MAX := 0x7FFF_FFFF_FFFF_FFFF

  /** The decimals of an asset, as its creation allows them. */
  type Precision = p: int | 0 <= p <= 12

  // ----- digits -----

  predicate IsDigit(c: char) {
    '0' <= c <= '9'
  }

  function Digit(n: nat): (c: char)
    requires n < 10
    ensures IsDigit(c) && DigitValue(c) == n
  {
    ('0' as int + n) as char
  }

  function DigitValue(c: char): nat
    requires IsDigit(c)
  {
    c as int - '0' as int
  }

  predicate AllDigits(s: string) {
    forall i :: 0 <= i < |s| ==> IsDigit(s[i])
  }

  function Value(s: string): nat
    requires AllDigits(s)
  {
    if s == [] then 0 else Value(s[..|s| - 1]) * 10 + DigitValue(s[|s| - 1])
  }

  function Pow10(n: nat): (r: nat)
    ensures r > 0
  {
    if n == 0 then 1 else 10 * Pow10(n - 1)
  }

  /** `to_string` of a number that is not negative */
  function Decimal(n: nat): (s: string)
    ensures s != [] && AllDigits(s) && Value(s) == n
  {
    if n < 10 then
      assert [Digit(n)][..0] == [];
      [Digit(n)]
    else
      var s := Decimal(n / 10) + [Digit(n % 10)];
      assert s[..|s| - 1] == Decimal(n / 10);
      s
  }

  function LeadingDigits(s: string): (d: string)
    ensures AllDigits(d)
  {
    if s == [] || !IsDigit(s[0]) then [] else [s[0]] + LeadingDigits(s[1..])
  }

  predicate IsInt64(n: int) {
    -INT64_MAX - 1 <= n <= INT64_MAX
  }

  /** `stoll`: a sign and the digits after it; throws without digits and beyond 64 bits. */
  function Stoll(s: string): Option<int> {
    var negative := s != [] && s[0] == '-';
    var digits := LeadingDigits(if negative then s[1..] else s);
    if digits == [] then None
    else
      var v: int := if negative then -(Value(digits) as int) else Value(digits);
      if IsInt64(v) then Some(v) else None
  }

  // ----- writing -----

  lemma Recomposed(amount: nat, scale: int)
    requires scale > 0
    ensures amount / scale * scale + amount % scale == amount && amount / scale >= 0 && 0 <= amount % scale < scale
  {
  }

  function Whole(amount: nat, precision: Precision): nat {
    Recomposed(amount, Pow10(precision));
    amount / Pow10(precision)
  }

  function Decimals(amount: nat, precision: Precision): (d: nat)
    ensures d < Pow10(precision)
  {
    Recomposed(amount, Pow10(precision));
    amount % Pow10(precision)
  }

  function Magnitude(n: int): nat {
    if n < 0 then -n else n
  }

  /** Quotient and remainder of a negative amount are not positive, so its decimals are taken off the power of ten. */
  function ToString(amount: int, precision: Precision): string {
    hide Decimal, Decimals, Pow10, Whole;
    var (whole, decimals) := (Whole(Magnitude(amount), precision), Decimals(Magnitude(amount), precision));
    (if amount < 0 && whole != 0 then "-" else "") + Decimal(whole) + Fraction(amount < 0, decimals, precision)
  }

  function Fraction(negative: bool, decimals: nat, precision: Precision): string
    requires decimals < Pow10(precision)
  {
    if decimals == 0 then ""
    else "." + Decimal(if negative then Pow10(precision) - decimals else Pow10(precision) + decimals)[1..]
  }

  // ----- reading -----

  function Find(s: string, c: char): (i: nat)
    ensures i <= |s| && (i < |s| ==> s[i] == c)
  {
    if s == [] || s[0] == c then 0 else 1 + Find(s[1..], c)
  }

  /** Whether a minus and a point were found; throws at a second one and at any other character. */
  function Scan(s: string, negative: bool, point: bool): (r: Option<(bool, bool)>)
    ensures r.Some? && r.value.0 ==> negative || s != []
    ensures r.Some? && r.value.1 ==> point || Find(s, '.') < |s|
  {
    if s == [] then Some((negative, point))
    else if IsDigit(s[0]) then Scan(s[1..], negative, point)
    else if s[0] == '-' && !negative then Scan(s[1..], true, point)
    else if s[0] == '.' && !point then Scan(s[1..], negative, true)
    else None
  }

  /**
   The scan lets through digits, one minus and one point at most, wherever they
   stand, and tells which of them it saw.
   */
  lemma {:induction false} ScanAccepts(s: string, negative: bool, point: bool)
    ensures var minuses, points := multiset(s)['-'] + Once(negative), multiset(s)['.'] + Once(point);
            && (Scan(s, negative, point).Some? <==>
                  (forall c <- s :: IsDigit(c) || c == '-' || c == '.') && minuses <= 1 && points <= 1)
            && (Scan(s, negative, point).Some? ==> Scan(s, negative, point).value == (minuses == 1, points == 1))
  {
    if s == [] {
    } else {
      assert s == [s[0]] + s[1..];
      ScanAccepts(s[1..], negative || s[0] == '-', point || s[0] == '.');
    }
  }

  function Once(b: bool): nat {
    if b then 1 else 0
  }

  /** Any other text throws, and so does one whose decimals are more than the precision, or whose value is too large. */
  lemma {:induction false} OnlyNumeralsAreRead(s: string, precision: Precision)
    requires FromString(s, precision).Some?
    ensures (forall c <- s :: IsDigit(c) || c == '-' || c == '.') && multiset(s)['-'] <= 1 && multiset(s)['.'] <= 1
    ensures '.' in s ==> |s| - Find(s, '.') - 1 <= |Decimal(Pow10(precision))| - 1
    ensures FromString(s, precision).value <= if '-' in s then INT64_MAX + 1 else MAX_SHARES
  {
    hide PartValue, Pow10, Decimal, Padded, Integral;
    ScanAccepts(s, false, false);
    assert ('.' in s <==> multiset(s)['.'] > 0) && ('-' in s <==> multiset(s)['-'] > 0);
  }

  function Padded(s: string, size: nat): (r: string)
    requires |s| <= size
    ensures |r| == size
    decreases size - |s|
  {
    if |s| == size then s else Padded(s + "0", size)
  }

  /** The substring of the integral part: as many characters as stand before the point, after a minus. */
  function Integral(s: string, negative: bool, point: bool): string
    requires negative ==> s != []
  {
    var from := if negative then 1 else 0;
    var count := if point then Find(s, '.') else |s|;
    s[from..if from + count <= |s| then from + count else |s|]
  }

  /** A part as a number; an empty part is zero. */
  function PartValue(s: string): Option<int> {
    if s == [] then Some(0) else Stoll(s)
  }

  function FromString(s: string, precision: Precision): Option<int> {
    var found := Scan(s, false, false);
    if found.None? then None
    else
      var (negative, point) := found.value;
      var scale := Pow10(precision);
      var whole := PartValue(Integral(s, negative, point));
      if whole.None? || !IsInt64(whole.value * scale) then None
      else
        var size := |Decimal(scale)| - 1;
        var rest := if point then s[Find(s, '.') + 1..] else [];
        if |rest| > size then None
        else
          var part := if point then PartValue(Padded(rest, size)) else Some(0);
          if part.None? || !IsInt64(whole.value * scale + part.value) then None
          else
            var total := whole.value * scale + part.value;
            if total > MAX_SHARES then None else Some(if negative then -total else total)
  }

  // ----- reading plain numerals -----

  lemma {:induction false} LeadingOfDigits(s: string)
    requires AllDigits(s)
    ensures LeadingDigits(s) == s
  {
    if s == [] {
    } else {
      LeadingOfDigits(s[1..]);
    }
  }

  lemma {:induction false} ValueBound(s: string)
    requires AllDigits(s)
    ensures Value(s) < Pow10(|s|)
  {
    if s == [] {
    } else {
      ValueBound(s[..|s| - 1]);
    }
  }

  lemma {:induction false} StollReadsDigits(s: string)
    requires AllDigits(s) && s != []
    ensures Stoll(s) == if Value(s) <= INT64_MAX then Some(Value(s)) else None
  {
    LeadingOfDigits(s);
    assert s[0] != '-' by { assert IsDigit(s[0]); }
  }

  lemma {:induction false} PartReadsDigits(s: string)
    requires AllDigits(s)
    ensures PartValue(s) == if Value(s) <= INT64_MAX then Some(Value(s)) else None
  {
    if s != [] { StollReadsDigits(s); }
  }

  lemma {:induction false} ScanDigits(s: string, rest: string, negative: bool, point: bool)
    requires AllDigits(s)
    ensures Scan(s + rest, negative, point) == Scan(rest, negative, point)
  {
    if s == [] {
      assert s + rest == rest;
    } else {
      assert IsDigit((s + rest)[0]) && (s + rest)[1..] == s[1..] + rest;
      ScanDigits(s[1..], rest, negative, point);
    }
  }

  lemma {:induction false} FindAfterDigits(s: string, rest: string)
    requires AllDigits(s)
    ensures Find(s + rest, '.') == |s| + Find(rest, '.')
  {
    if s == [] {
      assert s + rest == rest;
    } else {
      assert (s + rest)[0] != '.' by { assert IsDigit(s[0]); }
      assert (s + rest)[1..] == s[1..] + rest;
      FindAfterDigits(s[1..], rest);
    }
  }

  lemma {:induction false} ValueOfTen(s: string)
    requires AllDigits(s)
    ensures Value(s + "0") == Value(s) * 10
  {
  }

  lemma Regroup(v: int, p: int)
    ensures v * 10 * p == v * (10 * p)
  {
  }

  lemma {:induction false} PaddedValue(s: string, size: nat)
    requires AllDigits(s) && |s| <= size
    ensures AllDigits(Padded(s, size)) && Value(Padded(s, size)) == Value(s) * Pow10(size - |s|)
    decreases size - |s|
  {
    if |s| < size {
      PaddedValue(s + "0", size);
      ValueOfTen(s);
      Regroup(Value(s), Pow10(size - |s| - 1));
    }
  }

  /**
   A power of ten has one digit more than zeros; a number below it, added to it,
   has the same digits after the first.
   */
  lemma {:induction false} ScaledDigits(precision: nat, d: nat)
    requires d < Pow10(precision)
    ensures var s := Decimal(Pow10(precision) + d);
            |s| == precision + 1 && Value(s[1..]) == d
  {
    var n := Pow10(precision) + d;
    if precision == 0 {
      assert Decimal(1) == [Digit(1)];
    } else {
      var p := Pow10(precision - 1);
      assert n / 10 == p + d / 10 && n % 10 == d % 10 && d / 10 < p && n >= 10;
      ScaledDigits(precision - 1, d / 10);
      var (s, head) := (Decimal(n), Decimal(n / 10));
      assert s == head + [Digit(n % 10)];
      assert s[1..][..|s[1..]| - 1] == head[1..];
    }
  }

  /**
   Digits, and digits after a point, are read as what they say: no more decimals than the precision
   are taken, and nothing above the largest amount.
   */
  lemma ReadsNumeral(whole: string, decimals: string, precision: Precision)
    requires AllDigits(whole) && AllDigits(decimals)
    ensures FromString(whole + "." + decimals, precision) ==
              if |decimals| > precision then None
              else
                var total := Value(whole) * Pow10(precision) + Value(decimals) * Pow10(precision - |decimals|);
                if total <= MAX_SHARES then Some(total) else None
  {
    hide Decimal, Pow10, Value, Padded, PartValue;
    var s := whole + "." + decimals;
    assert s == whole + ("." + decimals);
    ScanDigits(whole, "." + decimals, false, false);
    assert ("." + decimals)[1..] == decimals;
    ScanDigits(decimals, [], false, true);
    assert decimals + [] == decimals;
    assert Scan(s, false, false) == Some((false, true));
    FindAfterDigits(whole, "." + decimals);
    assert Integral(s, false, true) == whole;
    assert s[|whole| + 1..] == decimals;
    ScaledDigits(precision, 0);
    PartReadsDigits(whole);
    if |decimals| <= precision {
      PaddedValue(decimals, precision);
      PartReadsDigits(Padded(decimals, precision));
      TotalFits(Value(whole), Pow10(precision), Value(Padded(decimals, precision)));
    }
  }

  lemma TotalFits(whole: nat, scale: nat, part: nat)
    requires scale > 0
    ensures whole * scale >= whole
  {
  }

  lemma {:induction false} ReadsInteger(whole: string, precision: Precision)
    requires AllDigits(whole)
    ensures FromString(whole, precision) ==
              if Value(whole) * Pow10(precision) <= MAX_SHARES then Some(Value(whole) * Pow10(precision)) else None
  {
    hide Decimal, Pow10, Value, Padded, PartValue;
    ScanDigits(whole, [], false, false);
    assert whole + [] == whole;
    assert Integral(whole, false, false) == whole;
    PartReadsDigits(whole);
    TotalFits(Value(whole), Pow10(precision), 0);
  }

  lemma {:induction false} WritesNumeral(amount: nat, precision: Precision)
    requires Decimals(amount, precision) != 0
    ensures ToString(amount, precision) ==
              Decimal(Whole(amount, precision)) + "." + Decimal(Pow10(precision) + Decimals(amount, precision))[1..]
  {
    hide Decimal, Pow10, Whole, Decimals;
    var (whole, fraction) := (Decimal(Whole(amount, precision)), Decimal(Pow10(precision) + Decimals(amount, precision))[1..]);
    assert "" + whole + ("." + fraction) == whole + "." + fraction;
  }

  lemma {:induction false} WritesInteger(amount: int, precision: Precision)
    requires Decimals(Magnitude(amount), precision) == 0
    ensures var whole := Whole(Magnitude(amount), precision);
            && ToString(amount, precision) == (if amount < 0 then "-" else "") + Decimal(whole)
            && Magnitude(amount) == whole * Pow10(precision)
  {
    hide Decimal, Pow10;
    Recomposed(Magnitude(amount), Pow10(precision));
  }

  /** Every amount that is not negative is read back from its text. */
  lemma ReadsBack(amount: nat, precision: Precision)
    requires amount <= MAX_SHARES
    ensures FromString(ToString(amount, precision), precision) == Some(amount)
  {
    hide FromString, ToString, Decimal, Pow10;
    var scale := Pow10(precision);
    Recomposed(amount, scale);
    var (whole, decimals) := (Whole(amount, precision), Decimals(amount, precision));
    if decimals == 0 {
      WritesInteger(amount, precision);
      ReadsInteger(Decimal(whole), precision);
      assert "" + Decimal(whole) == Decimal(whole);
    } else {
      ScaledDigits(precision, decimals);
      WritesNumeral(amount, precision);
      PowZero();
      ReadsNumeral(Decimal(whole), Decimal(scale + decimals)[1..], precision);
    }
  }

  // ----- negative amounts -----

  /** After a minus a whole number is read as its negation. */
  lemma {:induction false} ReadsNegativeInteger(whole: string, precision: Precision)
    requires AllDigits(whole)
    ensures FromString("-" + whole, precision) ==
              if Value(whole) * Pow10(precision) <= MAX_SHARES then Some(-(Value(whole) * Pow10(precision))) else None
  {
    hide Decimal, Pow10, Value, Padded, PartValue;
    var s := "-" + whole;
    assert s[1..] == whole && whole + [] == whole;
    ScanDigits(whole, [], true, false);
    assert Scan(s, false, false) == Some((true, false));
    assert Integral(s, true, false) == whole;
    PartReadsDigits(whole);
    TotalFits(Value(whole), Pow10(precision), 0);
  }

  /** After a minus the integral part takes the point in, which ends it; the decimals are read as ever. */
  lemma ReadsNegativeNumeral(whole: string, decimals: string, precision: Precision)
    requires AllDigits(whole) && whole != [] && AllDigits(decimals) && |decimals| <= precision
    ensures var r := FromString("-" + (whole + ("." + decimals)), precision);
            r.Some? ==> r.value == -(Value(whole) * Pow10(precision) + Value(decimals) * Pow10(precision - |decimals|))
  {
    hide Decimal, Pow10, Value, Padded, LeadingDigits;
    var s := "-" + (whole + ("." + decimals));
    assert s[1..] == whole + ("." + decimals) && ("." + decimals)[1..] == decimals && decimals + [] == decimals;
    ScanDigits(whole, "." + decimals, true, false);
    ScanDigits(decimals, [], true, true);
    assert Scan(s, false, false) == Some((true, true));
    FindAfterDigits(whole, "." + decimals);
    assert Find(s, '.') == 1 + |whole|;
    assert Integral(s, true, true) == whole + ".";
    StopsAtPoint(whole);
    assert s[|whole| + 2..] == decimals;
    ScaledDigits(precision, 0);
    PaddedValue(decimals, precision);
    PartReadsDigits(Padded(decimals, precision));
  }

  lemma {:induction false} StopsAtPoint(whole: string)
    requires AllDigits(whole)
    ensures LeadingDigits(whole + ".") == whole
  {
    if whole == [] {
    } else {
      assert (whole + ".")[1..] == whole[1..] + ".";
      StopsAtPoint(whole[1..]);
    }
  }

  lemma {:induction false} SplitsAtFirst(n: nat)
    requires n > 0
    ensures var s := Decimal(n);
            DigitValue(s[0]) >= 1 && n == DigitValue(s[0]) * Pow10(|s| - 1) + Value(s[1..])
  {
    var s := Decimal(n);
    if n < 10 {
      assert s == [Digit(n)] && s[1..] == [];
    } else {
      var head := Decimal(n / 10);
      SplitsAtFirst(n / 10);
      assert s == head + [Digit(n % 10)];
      assert s[1..][..|s[1..]| - 1] == head[1..] && s[1..] == head[1..] + [Digit(n % 10)];
      Shifted(n, DigitValue(s[0]), Pow10(|head| - 1), Value(head[1..]));
    }
  }

  lemma Shifted(n: nat, f: nat, p: nat, v: nat)
    requires n / 10 == f * p + v
    ensures n == f * (10 * p) + (v * 10 + n % 10)
  {
  }

  lemma {:induction false} DigitsBound(precision: nat, n: nat)
    requires n < Pow10(precision)
    ensures precision > 0 ==> |Decimal(n)| <= precision
  {
    if precision <= 1 {
      assert Pow10(1) == 10 * Pow10(0);
    } else {
      DigitsBound(precision - 1, n / 10);
    }
  }

  lemma {:induction false} Pow10Splits(a: nat, b: nat)
    ensures Pow10(a + b) == Pow10(a) * Pow10(b)
  {
    if a == 0 {
    } else {
      Pow10Splits(a - 1, b);
      Regroup3(10, Pow10(a - 1), Pow10(b));
    }
  }

  lemma Regroup3(a: int, b: int, c: int)
    ensures a * (b * c) == (a * b) * c
  {
  }

  /** One more than a power of ten has no factor with any other, and divides nothing smaller. */
  lemma {:induction false} NoComplement(v: nat, m: nat, k: nat, f: nat)
    requires k > 0 && 1 <= f <= 9
    ensures v * (Pow10(k) + 1) != Pow10(m) * (Pow10(k) - f)
  {
    var p := Pow10(k);
    assert p == 10 * Pow10(k - 1);
    if m == 0 {
      TooSmall(v, p, f);
    } else {
      var q := Pow10(m - 1) * (p - f);
      Regroup3(10, Pow10(m - 1), p - f);
      if v * (p + 1) == 10 * q {
        LastDigitZero(v, Pow10(k - 1), q);
        NoComplement(v / 10, m - 1, k, f);
      }
    }
  }

  lemma TooSmall(v: nat, p: nat, f: nat)
    requires p >= 10 && 1 <= f <= 9
    ensures v * (p + 1) != 1 * (p - f)
  {
    if v > 0 { assert v * (p + 1) >= p + 1; }
  }

  lemma LastDigitZero(v: nat, p: nat, q: int)
    requires v * (10 * p + 1) == 10 * q
    ensures v / 10 * (10 * p + 1) == q
  {
    assert v * (10 * p + 1) == 10 * (v * p) + v;
    assert v == 10 * (q - v * p);
    var u := q - v * p;
    assert v / 10 == u;
    assert (10 * u) * (10 * p + 1) == 10 * (u * (10 * p + 1));
  }

  /**
   What the digits after the first of such a number say at their place after the point is never what it lacks
   to the power of ten.
   */
  lemma DigitsNeverComplement(precision: nat, n: nat)
    requires 0 < n < Pow10(precision)
    ensures var s := Decimal(n);
            |s| <= precision && Value(s[1..]) * Pow10(precision - (|s| - 1)) != Pow10(precision) - n
  {
    hide Decimal, Pow10, Value;
    var s := Decimal(n);
    PowZero();
    DigitsBound(precision, n);
    SplitsAtFirst(n);
    var (v, m, k, f) := (Value(s[1..]), |s| - 1, precision - (|s| - 1), DigitValue(s[0]));
    Pow10Splits(m, k);
    NoComplement(v, m, k, f);
    assert Pow10(m) * (Pow10(k) - f) == Pow10(precision) - f * Pow10(m);
  }

  /**
   A negative amount with decimals is never read back: below one unit its text has no minus, and otherwise
   other decimals.
   */
  lemma NegativeIsLost(amount: int, precision: Precision)
    requires amount < 0 && Decimals(-amount, precision) != 0
    ensures FromString(ToString(amount, precision), precision) != Some(amount)
  {
    hide FromString, Decimal, Pow10, Value, Whole, Decimals;
    var scale := Pow10(precision);
    var (whole, decimals) := (Whole(-amount, precision), Decimals(-amount, precision));
    var digits := Decimal(scale - decimals)[1..];
    MagnitudeSplits(amount, precision);
    DigitsNeverComplement(precision, scale - decimals);
    if whole == 0 {
      ReadsNumeral(Decimal(whole), digits, precision);
      assert "" + Decimal(whole) + ("." + digits) == Decimal(whole) + "." + digits;
    } else {
      ReadsNegativeNumeral(Decimal(whole), digits, precision);
      assert "-" + Decimal(whole) + ("." + digits) == "-" + (Decimal(whole) + ("." + digits));
    }
  }

  lemma {:induction false} MagnitudeSplits(amount: int, precision: Precision)
    requires amount < 0
    ensures -amount == Whole(-amount, precision) * Pow10(precision) + Decimals(-amount, precision)
    ensures Decimals(-amount, precision) < Pow10(precision)
  {
    hide Pow10;
    Recomposed(-amount, Pow10(precision));
  }

  /** An amount within the range is read back from its text exactly when it is not negative or has no decimals. */
  lemma RoundTrip(amount: int, precision: Precision)
    requires -MAX_SHARES <= amount <= MAX_SHARES
    ensures FromString(ToString(amount, precision), precision) == Some(amount) <==>
            amount >= 0 || Decimals(-amount, precision) == 0
  {
    hide FromString, ToString, Decimal, Pow10, Value, Whole, Decimals;
    if amount >= 0 {
      ReadsBack(amount, precision);
    } else if Decimals(-amount, precision) == 0 {
      WritesInteger(amount, precision);
      ReadsNegativeInteger(Decimal(Whole(-amount, precision)), precision);
    } else {
      NegativeIsLost(amount, precision);
    }
  }

  lemma PowZero()
    ensures Pow10(0) == 1
  {
  }

  // ----- the loops -----

  method ScaledPrecision(precision: Precision) returns (scale: nat)
    ensures scale == Pow10(precision)
  {
    scale := 1;
    for i := 0 to precision
      invariant scale == Pow10(i)
    {
      scale := scale * 10;
    }
  }

  method AmountToString(amount: int, precision: Precision) returns (result: string)
    ensures result == ToString(amount, precision)
  {
    hide Decimal, Pow10;
    var scale := ScaledPrecision(precision);
    Recomposed(Magnitude(amount), scale);
    // the quotient and the remainder have the sign of the amount
    var whole, decimals := Magnitude(amount) / scale, Magnitude(amount) % scale;
    result := (if amount < 0 && whole != 0 then "-" else "") + Decimal(whole);
    if decimals != 0 {
      result := result + ("." + Decimal(if amount < 0 then scale - decimals else scale + decimals)[1..]);
    } else {
      assert result + "" == result;
    }
  }

  /** Goes through the characters; throws at any that does not belong. */
  method ScanCharacters(s: string) returns (r: Option<(bool, bool)>)
    ensures r == Scan(s, false, false)
  {
    var negative, point := false, false;
    assert s[0..] == s;
    for i := 0 to |s|
      invariant Scan(s, false, false) == Scan(s[i..], negative, point)
    {
      assert s[i..][1..] == s[i + 1..];
      if IsDigit(s[i]) {
      } else if s[i] == '-' && !negative {
        negative := true;
      } else if s[i] == '.' && !point {
        point := true;
      } else {
        return None;
      }
    }
    return Some((negative, point));
  }

  method AmountFromString(s: string, precision: Precision) returns (r: Option<int>)
    ensures r == FromString(s, precision)
  {
    hide Decimal, Pow10, PartValue, Scan, Find;
    var found := ScanCharacters(s);
    if found.None? { return None; }
    var (negative, point) := found.value;
    var satoshis := 0;
    var scale := ScaledPrecision(precision);
    var whole := PartValue(Integral(s, negative, point));
    if whole.None? || !IsInt64(whole.value * scale) { return None; }
    satoshis := satoshis + whole.value * scale;
    var size := |Decimal(scale)| - 1;
    if point {
      var rest := s[Find(s, '.') + 1..];
      if |rest| > size { return None; }
      ghost var unpadded := rest;
      while |rest| < size
        invariant |rest| <= size && Padded(rest, size) == Padded(unpadded, size)
      {
        rest := rest + "0";
      }
      var part := PartValue(rest);
      if part.None? || !IsInt64(satoshis + part.value) { return None; }
      satoshis := satoshis + part.value;
    }
    if satoshis > MAX_SHARES { return None; }
    if negative { satoshis := -satoshis; }
    return Some(satoshis);
  }
}
