/** Decimal text: how whole numbers, microdollars and expanded exponents are printed and read. Amounts in
    text are what files and provider pages hold. */
module DecimalText {
  import opened Money

  // ---------------------------------------------------------------- digits

  predicate IsDigit(c: char) { '0' <= c <= '9' }

  predicate AllDigits(s: string) { forall i :: 0 <= i < |s| ==> IsDigit(s[i]) }

  function DigitValue(c: char): nat
    requires IsDigit(c)
  {
    (c - '0') as nat
  }

  function DigitChar(d: nat): (c: char)
    requires d < 10
    ensures IsDigit(c) && DigitValue(c) == d
  {
    '0' + d as char
  }

  function ParseNat(s: string): nat
    requires AllDigits(s)
  {
    if s == [] then 0 else 10 * ParseNat(s[..|s| - 1]) + DigitValue(s[|s| - 1])
  }

  /** A whole number as it is printed. */
  function NatText(n: nat): (s: string)
    ensures s != [] && AllDigits(s)
  {
    if n < 10 then [DigitChar(n)] else NatText(n / 10) + [DigitChar(n % 10)]
  }

  /** No leading zero, unless the text is just zero. */
  predicate Plain(s: string) { AllDigits(s) && s != [] && (s == "0" || s[0] != '0') }

  lemma {:induction false} ParseNatText(n: nat)
    ensures ParseNat(NatText(n)) == n && Plain(NatText(n))
    ensures n > 0 ==> NatText(n)[0] != '0'
  {
    if n >= 10 {
      ParseNatText(n / 10);
      var s := NatText(n);
      assert s[..|s| - 1] == NatText(n / 10);
      assert s[0] == NatText(n / 10)[0];
    } else {
      var s := NatText(n);
      assert s[..|s| - 1] == [];
      assert DigitValue(s[0]) == n;
      assert n == 0 ==> s == "0";
    }
  }

  lemma {:induction false} ParsePositive(s: string)
    requires AllDigits(s) && s != [] && s[0] != '0'
    ensures ParseNat(s) > 0
    decreases |s|
  {
    if |s| > 1 {
      ParsePositive(s[..|s| - 1]);
    } else {
      assert s[..0] == [];
    }
  }

  /** A text without a leading zero is the printed form of the number it denotes. */
  lemma {:induction false} PlainIsPrinted(s: string)
    requires Plain(s)
    ensures s == NatText(ParseNat(s))
    decreases |s|
  {
    var n := |s| - 1;
    if n == 0 {
      assert s[..0] == [];
      assert s == [DigitChar(DigitValue(s[0]))];
    } else {
      var init := s[..n];
      ParsePositive(init);
      assert init != "0";
      PlainIsPrinted(init);
      var value := ParseNat(s);
      assert value == 10 * ParseNat(init) + DigitValue(s[n]);
      assert value / 10 == ParseNat(init) && value % 10 == DigitValue(s[n]);
      assert DigitChar(DigitValue(s[n])) == s[n];
      assert s == init + [s[n]];
    }
  }

  lemma {:induction false} ParseConcat(a: string, b: string)
    requires AllDigits(a) && AllDigits(b)
    ensures AllDigits(a + b) && ParseNat(a + b) == Shift(ParseNat(a), |b|) + ParseNat(b)
    decreases |b|
  {
    if b == [] {
      assert a + b == a;
    } else {
      var n := |b| - 1;
      ParseConcat(a, b[..n]);
      assert (a + b)[..|a + b| - 1] == a + b[..n];
      assert b[..n][..n] == b[..n];
    }
  }

  function Zeros(n: nat): (s: string)
    ensures |s| == n && AllDigits(s)
  {
    seq(n, i => '0')
  }

  lemma {:induction false} ParseZeros(n: nat)
    ensures ParseNat(Zeros(n)) == 0
  {
    if n > 0 {
      ParseZeros(n - 1);
      assert Zeros(n)[..n - 1] == Zeros(n - 1);
    }
  }

  /** Two texts of one length denote the same number only if they are the same text. */
  lemma {:induction false} SameLengthSameText(a: string, b: string)
    requires AllDigits(a) && AllDigits(b) && |a| == |b| && ParseNat(a) == ParseNat(b)
    ensures a == b
    decreases |a|
  {
    if a != [] {
      var n := |a| - 1;
      assert a == a[..n] + [a[n]] && b == b[..n] + [b[n]];
      assert DigitValue(a[n]) == DigitValue(b[n]);
      SameLengthSameText(a[..n], b[..n]);
    }
  }

  // ---------------------------------------------------------------- microdollars

  const MAX_SAFE: int := 9_007_199_254_740_991

  function IndexOf(s: string, c: char): (i: nat)
    ensures i <= |s| && (forall k :: 0 <= k < i ==> s[k] != c) && (i < |s| ==> s[i] == c)
  {
    if s == [] || s[0] == c then 0 else 1 + IndexOf(s[1..], c)
  }

  function Whole(s: string): string { s[..IndexOf(s, '.')] }

  function Fraction(s: string): string { if IndexOf(s, '.') < |s| then s[IndexOf(s, '.') + 1..] else [] }

  /** An unsigned amount: whole part without leading zeros, and either no point or one to six digits
      after it. */
  predicate UnsignedOk(s: string) {
    && Plain(Whole(s))
    && AllDigits(Fraction(s))
    && (IndexOf(s, '.') < |s| ==> 1 <= |Fraction(s)| <= 6)
  }

  function Padded(f: string): (p: string)
    requires AllDigits(f) && |f| <= 6
    ensures |p| == 6 && AllDigits(p)
  {
    f + Zeros(6 - |f|)
  }

  function UnsignedMicros(s: string): nat
    requires UnsignedOk(s)
  {
    ParseNat(Whole(s)) * 1_000_000 + ParseNat(Padded(Fraction(s)))
  }

  function Unsigned(s: string): string { if s != [] && s[0] == '-' then s[1..] else s }

  function UsdMicros(s: string): (r: Option<int>)
    ensures r.Some? ==> -MAX_SAFE <= r.value <= MAX_SAFE
  {
    var u := Unsigned(s);
    if !UnsignedOk(u) then None
    else
      var signed := if u != s then -(UnsignedMicros(u) as int) else UnsignedMicros(u);
      if -MAX_SAFE <= signed <= MAX_SAFE then Some(signed) else None
  }

  function WithoutTrailingZeros(s: string): (t: string)
    ensures |t| <= |s| && t == s[..|t|]
    ensures t == [] || t[|t| - 1] != '0'
    ensures forall i :: |t| <= i < |s| ==> s[i] == '0'
  {
    if s != [] && s[|s| - 1] == '0' then WithoutTrailingZeros(s[..|s| - 1]) else s
  }

  /** The last six digits of a number below a million, padded on the left. */
  function SixDigits(n: nat): (s: string)
    requires n < 1_000_000
    ensures |s| == 6 && AllDigits(s) && ParseNat(s) == n
  {
    SixDigitsFit(n);
    var t := NatText(n);
    ParseNatText(n);
    ParseZeros(6 - |t|);
    ParseConcat(Zeros(6 - |t|), t);
    ShiftZero(|t|);
    Zeros(6 - |t|) + t
  }

  lemma {:induction false} ShiftZero(k: nat)
    ensures Shift(0, k) == 0
  {
    if k > 0 {
      ShiftZero(k - 1);
    }
  }

  lemma SixDigitsFit(n: nat)
    requires n < 1_000_000
    ensures |NatText(n)| <= 6
  {
    assert Shift(1, 6) == 1_000_000;
    TextFits(n, 6);
  }

  lemma {:induction false} TextFits(n: nat, k: nat)
    requires k > 0 && n < Shift(1, k)
    ensures |NatText(n)| <= k
    decreases k
  {
    if n >= 10 {
      TextFits(n / 10, k - 1);
    }
  }

  function FormatUnsigned(v: nat): string {
    var fraction := WithoutTrailingZeros(SixDigits(v % 1_000_000));
    NatText(v / 1_000_000) + if fraction == [] then [] else "." + fraction
  }

  function FormatUsdMicros(v: int): string {
    if v < 0 then "-" + FormatUnsigned(-v) else FormatUnsigned(v)
  }

  // ---------------------------------------------------------------- printing and reading

  lemma SplitAt(whole: string, rest: string)
    requires AllDigits(whole) && (rest == [] || rest[0] == '.')
    ensures IndexOf(whole + rest, '.') == |whole|
    ensures Whole(whole + rest) == whole
    ensures rest != [] ==> Fraction(whole + rest) == rest[1..]
    ensures rest == [] ==> Fraction(whole + rest) == []
  {
    var s := whole + rest;
    assert forall k :: 0 <= k < |whole| ==> s[k] == whole[k];
    assert rest != [] ==> s[|whole|] == rest[0];
  }

  /** Digits lost by stripping zeros are put back by padding. */
  lemma PadAfterStrip(s: string)
    requires |s| == 6 && AllDigits(s)
    ensures Padded(WithoutTrailingZeros(s)) == s
  {
  }

  lemma UnsignedRoundTrip(v: nat)
    ensures UnsignedOk(FormatUnsigned(v)) && UnsignedMicros(FormatUnsigned(v)) == v
    ensures FormatUnsigned(v) != [] && FormatUnsigned(v)[0] != '-'
  {
    hide NatText, WithoutTrailingZeros, SixDigits, ParseNat, IndexOf;
    var whole, six := NatText(v / 1_000_000), SixDigits(v % 1_000_000);
    var fraction := WithoutTrailingZeros(six);
    ParseNatText(v / 1_000_000);
    PadAfterStrip(six);
    SplitAt(whole, if fraction == [] then [] else "." + fraction);
    assert fraction == [] ==> FormatUnsigned(v) == whole + [];
    assert ("." + fraction)[1..] == fraction;
  }

  /** Printing and reading back is the identity on every safe integer. */
  lemma UsdRoundTrip(v: int)
    requires -MAX_SAFE <= v <= MAX_SAFE
    ensures UsdMicros(FormatUsdMicros(v)) == Some(v)
  {
    hide FormatUnsigned, UnsignedOk, UnsignedMicros;
    UnsignedRoundTrip(if v < 0 then -v else v);
    assert ("-" + FormatUnsigned(if v < 0 then -v else v))[1..] == FormatUnsigned(if v < 0 then -v else v);
  }

  lemma {:induction false} StripIsShortest(s: string, f: string)
    requires AllDigits(f) && |f| <= 6 && Padded(f) == s
    ensures |WithoutTrailingZeros(s)| <= |f|
  {
    assert forall i :: |f| <= i < 6 ==> s[i] == '0';
  }

  lemma PlainParts(s: string)
    requires UnsignedOk(s)
    ensures |s| == |Whole(s)| + (if IndexOf(s, '.') < |s| then 1 + |Fraction(s)| else 0)
    ensures |Fraction(s)| <= 6 && (Fraction(s) != [] ==> IndexOf(s, '.') < |s|)
  {
  }

  lemma {:induction false} ParseBelow(s: string, k: nat)
    requires AllDigits(s) && |s| == k
    ensures ParseNat(s) < Shift(1, k)
    decreases k
  {
    if k > 0 {
      ParseBelow(s[..k - 1], k - 1);
    }
  }

  lemma PaddedBelowMillion(f: string)
    requires AllDigits(f) && |f| <= 6
    ensures ParseNat(Padded(f)) < 1_000_000
  {
    hide ParseNat, Padded;
    ParseBelow(Padded(f), 6);
    assert Shift(1, 6) == 1_000_000;
  }

  /** Every accepted unsigned text is at least as long as the printed form of its amount. */
  lemma UnsignedIsShortest(s: string)
    requires UnsignedOk(s)
    ensures |FormatUnsigned(UnsignedMicros(s))| <= |s|
  {
    hide NatText, WithoutTrailingZeros, SixDigits, ParseNat, IndexOf, Padded, Whole, Fraction;
    var whole, f := Whole(s), Fraction(s);
    PlainParts(s);
    PaddedBelowMillion(f);
    var v := UnsignedMicros(s);
    assert v / 1_000_000 == ParseNat(whole) && v % 1_000_000 == ParseNat(Padded(f));
    PlainIsPrinted(whole);
    SameLengthSameText(SixDigits(v % 1_000_000), Padded(f));
    StripIsShortest(Padded(f), f);
  }

  /** The printed form is the shortest accepted text of its amount. */
  lemma PrintedIsShortest(s: string)
    requires UsdMicros(s).Some?
    ensures |FormatUsdMicros(UsdMicros(s).value)| <= |s|
  {
    hide FormatUnsigned, UnsignedOk, UnsignedMicros;
    UnsignedIsShortest(Unsigned(s));
  }

  // ---------------------------------------------------------------- expanding exponents

  /** c times ten to the k. */
  ghost function Scaled(c: int, k: int): real {
    if k >= 0 then Shift(c, k) as real else Value(Decimal(c, -k))
  }

  lemma {:induction false} ScaledByTen(c: int, k: int)
    ensures Scaled(c, k + 1) == 10.0 * Scaled(c, k)
  {
    if k < 0 {
      assert Value(Decimal(c, -k)) == Value(Decimal(c, -k - 1)) / 10.0;
    }
  }

  lemma {:induction false} ScaledUp(c: int, k: int, z: nat)
    ensures Scaled(c, k) > 0.0 && z > 0 ==> Scaled(c, k + z) > Scaled(c, k)
    ensures Scaled(c, k) > 0.0 ==> Scaled(c, k + z) > 0.0
    ensures Scaled(c, k) == 0.0 ==> Scaled(c, k + z) == 0.0
  {
    hide Scaled;
    if z > 0 {
      ScaledUp(c, k, z - 1);
      ScaledByTen(c, k + z - 1);
    }
  }

  lemma {:induction false} ShiftSign(c: nat, k: nat)
    ensures Shift(c, k) >= 0 && (c > 0 <==> Shift(c, k) > 0)
  {
    if k > 0 {
      ShiftSign(c, k - 1);
    }
  }

  lemma {:induction false} ValueSign(c: nat, s: nat)
    ensures Value(Decimal(c, s)) >= 0.0 && (c > 0 <==> Value(Decimal(c, s)) > 0.0)
  {
    if s > 0 {
      ValueSign(c, s - 1);
    }
  }

  lemma ScaledSign(c: nat, k: int)
    ensures Scaled(c, k) >= 0.0 && (c > 0 <==> Scaled(c, k) > 0.0)
  {
    if k >= 0 {
      ShiftSign(c, k);
    } else {
      ValueSign(c, -k);
    }
  }

  /** A plain unsigned decimal: digits, or digits, a point and digits. */
  predicate PlainDecimal(s: string) {
    AllDigits(Whole(s)) && Whole(s) != [] && AllDigits(Fraction(s))
  }

  ghost function ReadDecimal(s: string): real
    requires PlainDecimal(s)
  {
    Value(Decimal(ParseNat(Whole(s) + Fraction(s)), |Fraction(s)|))
  }

  function Pointed(whole: string, fraction: string): string { whole + ("." + fraction) }

  lemma PointedReads(w: string, f: string)
    requires AllDigits(w) && w != [] && AllDigits(f)
    ensures PlainDecimal(Pointed(w, f)) && ReadDecimal(Pointed(w, f)) == Value(Decimal(ParseNat(w + f), |f|))
    ensures Whole(Pointed(w, f)) == w && Fraction(Pointed(w, f)) == f
  {
    hide ParseNat, Value, IndexOf, Whole, Fraction;
    SplitAt(w, "." + f);
    assert ("." + f)[1..] == f;
  }

  lemma WholeReads(w: string)
    requires AllDigits(w) && w != []
    ensures PlainDecimal(w) && ReadDecimal(w) == ParseNat(w) as real
  {
    hide ParseNat, IndexOf, Whole, Fraction;
    SplitAt(w, []);
    assert w + [] == w;
  }

  /** The digits of a mantissa with its point moved right by the exponent (left if negative). The sign
      is copied unchanged and is left aside. */
  function PlacePoint(digits: string, point: int): string {
    if point <= 0 then Pointed("0", Zeros(-point) + digits)
    else if point >= |digits| then digits + Zeros(point - |digits|)
    else Pointed(digits[..point], digits[point..])
  }

  /** The expansion used for configured amounts. */
  function ExpandExponent(whole: string, fraction: string, exponent: int): string {
    PlacePoint(whole + fraction, |whole| + exponent)
  }

  lemma PlacePointReads(digits: string, point: int)
    requires AllDigits(digits) && digits != []
    ensures PlainDecimal(PlacePoint(digits, point))
    ensures ReadDecimal(PlacePoint(digits, point)) == Scaled(ParseNat(digits), point - |digits|)
  {
    hide *;
    if point <= 0 {
      PointBefore(digits, point);
    } else if point >= |digits| {
      PointAfter(digits, point);
    } else {
      PointInside(digits, point);
    }
  }

  lemma PointBefore(digits: string, point: int)
    requires AllDigits(digits) && digits != [] && point <= 0
    ensures PlainDecimal(PlacePoint(digits, point))
    ensures ReadDecimal(PlacePoint(digits, point)) == Scaled(ParseNat(digits), point - |digits|)
  {
    hide ParseNat, Value, PlainDecimal, ReadDecimal, Pointed;
    LeadingZeros(digits, -point);
    PointedReads("0", Zeros(-point) + digits);
  }

  lemma PointAfter(digits: string, point: int)
    requires AllDigits(digits) && digits != [] && point > 0 && point >= |digits|
    ensures PlainDecimal(PlacePoint(digits, point))
    ensures ReadDecimal(PlacePoint(digits, point)) == Scaled(ParseNat(digits), point - |digits|)
  {
    hide ParseNat, Value, PlainDecimal, ReadDecimal, Pointed;
    TrailingZeros(digits, point - |digits|);
    WholeReads(digits + Zeros(point - |digits|));
  }

  lemma PointInside(digits: string, point: int)
    requires AllDigits(digits) && 0 < point < |digits|
    ensures PlainDecimal(PlacePoint(digits, point))
    ensures ReadDecimal(PlacePoint(digits, point)) == Scaled(ParseNat(digits), point - |digits|)
  {
    hide ParseNat, Value, PlainDecimal, ReadDecimal, Pointed;
    PointedReads(digits[..point], digits[point..]);
    assert digits[..point] + digits[point..] == digits;
  }

  lemma LeadingZeros(digits: string, n: nat)
    requires AllDigits(digits)
    ensures ParseNat("0" + (Zeros(n) + digits)) == ParseNat(digits)
  {
    hide ParseNat;
    assert "0" + (Zeros(n) + digits) == Zeros(n + 1) + digits;
    ParseZeros(n + 1);
    ParseConcat(Zeros(n + 1), digits);
    ShiftZero(|digits|);
  }

  lemma TrailingZeros(digits: string, n: nat)
    requires AllDigits(digits)
    ensures ParseNat(digits + Zeros(n)) == Shift(ParseNat(digits), n)
  {
    hide ParseNat;
    ParseZeros(n);
    ParseConcat(digits, Zeros(n));
  }

  /** For every mantissa and exponent the expansion denotes exactly mantissa times ten to the exponent. */
  lemma ExpansionIsExact(whole: string, fraction: string, exponent: int)
    requires AllDigits(whole) && whole != [] && AllDigits(fraction)
    ensures PlainDecimal(ExpandExponent(whole, fraction, exponent))
    ensures ReadDecimal(ExpandExponent(whole, fraction, exponent))
         == Scaled(ParseNat(whole + fraction), exponent - |fraction|)
  {
    hide ParseNat, Value, IndexOf, PlacePoint;
    PlacePointReads(whole + fraction, |whole| + exponent);
  }

  // ---------------------------------------------------------------- the provider's amounts

  function WithoutLeadingZeros(s: string): (t: string)
    ensures |t| <= |s| && t == s[|s| - |t|..]
    ensures t == [] || t[0] != '0'
    ensures forall i :: 0 <= i < |s| - |t| ==> s[i] == '0'
  {
    if s != [] && s[0] == '0' then WithoutLeadingZeros(s[1..]) else s
  }

  function Significant(digits: string): string {
    if WithoutLeadingZeros(digits) == [] then "0" else WithoutLeadingZeros(digits)
  }

  /** Strips zeros at the end of a fraction, and then a point with nothing after it. */
  function TidyFraction(s: string): string {
    if IndexOf(s, '.') == |s| then s
    else
      var f := WithoutTrailingZeros(Fraction(s));
      if f == [] then Whole(s) else Pointed(Whole(s), f)
  }

  /** The expansion used for the provider's amounts: it drops leading zeros of the digits, but still
      counts the point from the undropped whole part. */
  function CanonicalApiDecimal(whole: string, fraction: string, exponent: int): string {
    TidyFraction(PlacePoint(Significant(whole + fraction), |whole| + exponent))
  }

  lemma LeadingZerosParse(digits: string)
    requires AllDigits(digits)
    ensures AllDigits(WithoutLeadingZeros(digits)) && ParseNat(WithoutLeadingZeros(digits)) == ParseNat(digits)
  {
    hide ParseNat, WithoutLeadingZeros;
    var t := WithoutLeadingZeros(digits);
    var z := |digits| - |t|;
    assert digits[..z] == Zeros(z);
    assert digits == Zeros(z) + t;
    ParseZeros(z);
    ParseConcat(Zeros(z), t);
    ShiftZero(|t|);
  }

  lemma SignificantParses(digits: string)
    requires AllDigits(digits)
    ensures AllDigits(Significant(digits)) && Significant(digits) != []
    ensures ParseNat(Significant(digits)) == ParseNat(digits)
    ensures ParseNat(digits) > 0 ==> Significant(digits) == digits[|digits| - |Significant(digits)|..]
  {
    hide ParseNat, WithoutLeadingZeros;
    LeadingZerosParse(digits);
    ParseNothing();
  }

  lemma ParseNothing()
    ensures ParseNat([]) == 0 && ParseNat("0") == 0
  {
    assert "0"[..0] == [];
  }

  lemma {:induction false} StrippedValue(s: string, w: string)
    requires AllDigits(w) && AllDigits(s)
    ensures Value(Decimal(ParseNat(w + WithoutTrailingZeros(s)), |WithoutTrailingZeros(s)|))
         == Value(Decimal(ParseNat(w + s), |s|))
    decreases |s|
  {
    if s != [] && s[|s| - 1] == '0' {
      var init := s[..|s| - 1];
      StrippedValue(init, w);
      assert (w + s)[..|w + s| - 1] == w + init;
      ValueTimesTen(ParseNat(w + init), |init|);
    }
  }

  lemma TidyKeepsValue(s: string)
    requires PlainDecimal(s)
    ensures PlainDecimal(TidyFraction(s)) && ReadDecimal(TidyFraction(s)) == ReadDecimal(s)
  {
    if IndexOf(s, '.') < |s| {
      var w, f := Whole(s), WithoutTrailingZeros(Fraction(s));
      StrippedValue(Fraction(s), w);
      hide ParseNat, IndexOf, Whole, Fraction, Pointed;
      WholeReads(w);
      PointedReads(w, f);
      assert w + [] == w;
    }
  }

  lemma ApiDecimalReads(whole: string, fraction: string, exponent: int)
    requires AllDigits(whole) && whole != [] && AllDigits(fraction)
    ensures PlainDecimal(CanonicalApiDecimal(whole, fraction, exponent))
    ensures var digits := whole + fraction;
            ReadDecimal(CanonicalApiDecimal(whole, fraction, exponent))
            == Scaled(ParseNat(digits), exponent - |fraction| + (|digits| - |Significant(digits)|))
  {
    hide ParseNat, Value, IndexOf, PlacePoint, TidyFraction, PlainDecimal, Significant, ReadDecimal, Scaled;
    var digits := whole + fraction;
    SignificantParses(digits);
    PlacePointReads(Significant(digits), |whole| + exponent);
    TidyKeepsValue(PlacePoint(Significant(digits), |whole| + exponent));
  }

  /** The provider expansion is exact if and only if the amount is zero or its mantissa does not begin
      with a zero. */
  lemma ApiDecimalExactly(whole: string, fraction: string, exponent: int)
    requires AllDigits(whole) && whole != [] && AllDigits(fraction)
    ensures PlainDecimal(CanonicalApiDecimal(whole, fraction, exponent))
    ensures ReadDecimal(CanonicalApiDecimal(whole, fraction, exponent))
            == Scaled(ParseNat(whole + fraction), exponent - |fraction|)
       <==> ParseNat(whole + fraction) == 0 || whole[0] != '0'
  {
    hide Value, IndexOf, TidyFraction, PlainDecimal, ReadDecimal, Scaled, CanonicalApiDecimal, ParseNat, PlacePoint;
    var digits := whole + fraction;
    var c, k, z := ParseNat(digits), exponent - |fraction|, |digits| - |Significant(digits)|;
    ApiDecimalReads(whole, fraction, exponent);
    SignificantLength(digits);
    ScaledSign(c, k);
    if z >= 0 {
      ScaledUp(c, k, z);
    }
    assert digits[0] == whole[0];
  }

  lemma SignificantLength(digits: string)
    requires AllDigits(digits) && digits != []
    ensures |Significant(digits)| <= |digits|
    ensures digits[0] != '0' ==> Significant(digits) == digits
    ensures digits[0] == '0' && ParseNat(digits) > 0 ==> |Significant(digits)| < |digits|
  {
    hide ParseNat;
    SignificantParses(digits);
    ParseNothing();
    assert digits[0] != '0' ==> WithoutLeadingZeros(digits) == digits;
    assert WithoutLeadingZeros(digits) == digits ==> digits[0] != '0';
  }
}
