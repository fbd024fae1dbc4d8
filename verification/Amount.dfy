// XLM amounts as decimal strings, and stroops as integers: 1 XLM is 10,000,000 stroops.
module Amount {
  import opened Common
  import opened Division

  const PLACES: nat := 7
  const STROOPS_PER_XLM: nat := 10_000_000

  // ── Digits ────────────────────────────────────────────────────────────────────

  predicate IsDigit(c: char) { '0' <= c <= '9' }

  predicate AllDigits(s: string) { forall i :: 0 <= i < |s| ==> IsDigit(s[i]) }

  function DigitValue(c: char): (d: nat)
    requires IsDigit(c)
    ensures d < 10
  {
    (c - '0') as nat
  }

  function DigitOf(d: nat): (c: char)
    requires d < 10
    ensures IsDigit(c) && DigitValue(c) == d
  {
    '0' + d as char
  }

  function ValueOf(s: string): nat
    requires AllDigits(s)
  {
    if s == [] then 0 else 10 * ValueOf(s[..|s| - 1]) + DigitValue(s[|s| - 1])
  }

  function Pow10(k: nat): (p: nat)
    ensures p > 0
  {
    if k == 0 then 1 else 10 * Pow10(k - 1)
  }

  /** Decimal digits without leading zeros; zero is "0". */
  function Digits(n: nat): (s: string)
    ensures AllDigits(s) && s != []
  {
    if n < 10 then [DigitOf(n)] else Digits(n / 10) + [DigitOf(n % 10)]
  }

  /** Exactly `width` decimal digits. */
  function Fixed(n: nat, width: nat): (s: string)
    ensures AllDigits(s) && |s| == width
  {
    if width == 0 then [] else Fixed(n / 10, width - 1) + [DigitOf(n % 10)]
  }

  /** Without the zeros at its right end. */
  function Trimmed(s: string): (t: string)
    ensures |t| <= |s| && t == s[..|t|]
    ensures forall i :: |t| <= i < |s| ==> s[i] == '0'
    ensures t != [] ==> t[|t| - 1] != '0'
  {
    if s != [] && s[|s| - 1] == '0' then Trimmed(s[..|s| - 1]) else s
  }

  /** Without the zeros at its left end, all but one digit if that is all there is. */
  function Stripped(s: string): (t: string)
    requires s != []
    ensures t != [] && |t| <= |s| && t == s[|s| - |t|..]
    ensures forall i :: 0 <= i < |s| - |t| ==> s[i] == '0'
    ensures |t| > 1 ==> t[0] != '0'
  {
    if |s| > 1 && s[0] == '0' then Stripped(s[1..]) else s
  }

  // ── Decimal strings ───────────────────────────────────────────────────────────

  /** A decimal string taken apart: sign, digits before the point, digits after it. */
  datatype Decimal = Decimal(negative: bool, whole: string, fraction: string)

  predicate Proper(d: Decimal)
  {
    d.whole != [] && AllDigits(d.whole) && AllDigits(d.fraction)
  }

  function PointIn(s: string): Option<nat>
  {
    if s == [] then None
    else if s[0] == '.' then Some(0)
    else
      var rest := PointIn(s[1..]);
      if rest.None? then None else Some(rest.value + 1)
  }

  /** Digits with an optional point, of which there may be none before the point or none after it, but not
      neither; anything else is refused. */
  function ParseUnsigned(body: string, negative: bool): (r: Result<Decimal>)
    ensures r.Success? ==> Proper(r.value)
  {
    var point := PointIn(body);
    PointInBounds(body);
    var whole := if point.None? then body else body[..point.value];
    var fraction := if point.None? then [] else body[point.value + 1..];
    if (whole == [] && fraction == []) || !AllDigits(whole) || !AllDigits(fraction) then Failure(BadRequest)
    else Success(Decimal(negative, if whole == [] then "0" else whole, fraction))
  }

  /** With a sign before it or none. */
  function ParseAmount(s: string): (r: Result<Decimal>)
    ensures r.Success? ==> Proper(r.value)
  {
    if s != [] && (s[0] == '-' || s[0] == '+') then ParseUnsigned(s[1..], s[0] == '-') else ParseUnsigned(s, false)
  }

  lemma {:induction false} PointInBounds(s: string)
    ensures PointIn(s).Some? ==> PointIn(s).value < |s| && s[PointIn(s).value] == '.'
    ensures forall i :: 0 <= i < |s| && s[i] == '.' ==> PointIn(s).Some? && PointIn(s).value <= i
  {
    if s != [] && s[0] != '.' { PointInBounds(s[1..]); }
  }

  /** The decimal's magnitude is `Mantissa(d)` units of the last place it is written to. */
  function Mantissa(d: Decimal): nat
    requires Proper(d)
  {
    ValueOf(d.whole + d.fraction)
  }

  function Signed(negative: bool, magnitude: nat): int { if negative then 0 - magnitude else magnitude }

  /** Magnitude times ten to the 7th over ten to the places, the remainder dropped. */
  function StroopsMagnitude(mantissa: nat, places: nat): nat
  {
    Quotient(mantissa * STROOPS_PER_XLM, Pow10(places))
  }

  /** Stroops of an amount, rounded toward zero. */
  function XlmToStroops(s: string): Result<int>
  {
    var d := ParseAmount(s);
    if d.Failure? then Failure(d.error)
    else Success(Signed(d.value.negative, StroopsMagnitude(Mantissa(d.value), |d.value.fraction|)))
  }

  function WithFraction(whole: string, fraction: string): string
  {
    if fraction == [] then whole else whole + "." + fraction
  }

  /** An amount of stroops as XLM: no leading or trailing zeros, no sign on zero. */
  function StroopsToXlm(n: int): string
  {
    var magnitude := if n < 0 then -n else n;
    var text := WithFraction(Digits(magnitude / STROOPS_PER_XLM), Trimmed(Fixed(magnitude % STROOPS_PER_XLM, PLACES)));
    if n < 0 then "-" + text else text
  }

  /** What truncating a decimal string to seven places leaves, digit by digit. */
  function TruncatedText(d: Decimal): string
    requires Proper(d)
  {
    var kept := if |d.fraction| <= PLACES then d.fraction else d.fraction[..PLACES];
    var text := WithFraction(Stripped(d.whole), Trimmed(kept));
    if d.negative && text != "0" then "-" + text else text
  }

  // ── Values of digit strings ───────────────────────────────────────────────────

  lemma {:induction false} ValueAppend(s: string, t: string)
    requires AllDigits(s) && AllDigits(t)
    ensures AllDigits(s + t) && ValueOf(s + t) == ValueOf(s) * Pow10(|t|) + ValueOf(t)
  {
    if t == [] {
      assert s + t == s;
    } else {
      var n := |t| - 1;
      ValueAppend(s, t[..n]);
      assert (s + t)[..|s + t| - 1] == s + t[..n];
      Shift(ValueOf(s), Pow10(n));
    }
  }

  lemma Shift(v: nat, p: nat)
    ensures 10 * (v * p) == v * (10 * p)
  {
  }

  lemma {:induction false} ValueBelow(s: string)
    requires AllDigits(s)
    ensures ValueOf(s) < Pow10(|s|)
  {
    if s != [] { ValueBelow(s[..|s| - 1]); }
  }

  lemma {:induction false} DigitsValue(n: nat)
    ensures ValueOf(Digits(n)) == n
  {
    if n >= 10 {
      DigitsValue(n / 10);
      assert Digits(n)[..|Digits(n)| - 1] == Digits(n / 10);
    }
  }

  lemma {:induction false} FixedValue(n: nat, width: nat)
    requires n < Pow10(width)
    ensures ValueOf(Fixed(n, width)) == n
  {
    if width > 0 {
      FixedValue(n / 10, width - 1);
      assert Fixed(n, width)[..width - 1] == Fixed(n / 10, width - 1);
    }
  }

  lemma SplitLast(s: string)
    requires s != [] && AllDigits(s)
    ensures ValueOf(s) / 10 == ValueOf(s[..|s| - 1]) && ValueOf(s) % 10 == DigitValue(s[|s| - 1])
    ensures DigitOf(DigitValue(s[|s| - 1])) == s[|s| - 1]
  {
  }

  lemma {:induction false} FixedOfValue(s: string)
    requires AllDigits(s)
    ensures Fixed(ValueOf(s), |s|) == s
  {
    if s != [] {
      var n := |s| - 1;
      FixedOfValue(s[..n]);
      SplitLast(s);
      hide ValueOf;
      assert s == s[..n] + [s[n]];
    }
  }

  lemma {:induction false} ZeroAhead(s: string)
    requires s != [] && AllDigits(s) && s[0] == '0'
    ensures ValueOf(s) == ValueOf(s[1..])
  {
    var n := |s| - 1;
    if n == 0 {
      assert s == ['0'] && s[..0] == [];
    } else {
      ZeroAhead(s[..n]);
      assert s[1..][..n - 1] == s[..n][1..];
    }
  }

  lemma {:induction false} LeadingZeros(s: string)
    requires s != [] && AllDigits(s)
    ensures ValueOf(Stripped(s)) == ValueOf(s)
  {
    hide ValueOf;
    if |s| > 1 && s[0] == '0' {
      LeadingZeros(s[1..]);
      ZeroAhead(s);
    }
  }

  lemma OneDigit(c: char)
    requires IsDigit(c)
    ensures AllDigits([c]) && ValueOf([c]) == DigitValue(c)
  {
    assert [c][..0] == [];
  }

  /** Digits without leading zeros are what their value prints as. */
  lemma {:induction false} DigitsOfValue(s: string)
    requires s != [] && AllDigits(s) && (|s| > 1 ==> s[0] != '0')
    ensures Digits(ValueOf(s)) == s
  {
    var n := |s| - 1;
    if n == 0 {
      OneDigit(s[0]);
      assert s == [s[0]];
    } else {
      DigitsOfValue(s[..n]);
      FirstCounts(s[..n]);
      assert s == s[..n] + [s[n]];
    }
  }

  lemma {:induction false} FirstCounts(s: string)
    requires s != [] && AllDigits(s) && s[0] != '0'
    ensures ValueOf(s) >= 1
  {
    if |s| > 1 { FirstCounts(s[..|s| - 1]); } else { OneDigit(s[0]); assert s == [s[0]]; }
  }

  function Zeros(n: nat): (s: string)
    ensures |s| == n && AllDigits(s) && forall i :: 0 <= i < n ==> s[i] == '0'
  {
    if n == 0 then [] else Zeros(n - 1) + ['0']
  }

  lemma {:induction false} ZerosValue(n: nat)
    ensures ValueOf(Zeros(n)) == 0
  {
    if n > 0 {
      ZerosValue(n - 1);
      assert Zeros(n)[..n - 1] == Zeros(n - 1);
    }
  }

  /** The seven digits after the point, cut or filled with zeros. */
  function SevenPlaces(fraction: string): (s: string)
    requires AllDigits(fraction)
    ensures |s| == PLACES && AllDigits(s)
  {
    if |fraction| <= PLACES then fraction + Zeros(PLACES - |fraction|) else fraction[..PLACES]
  }

  lemma TrimmedSeven(fraction: string)
    requires AllDigits(fraction)
    ensures Trimmed(SevenPlaces(fraction)) == Trimmed(if |fraction| <= PLACES then fraction else fraction[..PLACES])
  {
    if |fraction| <= PLACES { TrimZeros(fraction, PLACES - |fraction|); }
  }

  lemma {:induction false} TrimZeros(s: string, n: nat)
    ensures Trimmed(s + Zeros(n)) == Trimmed(s)
  {
    if n == 0 {
      assert s + Zeros(0) == s;
    } else {
      TrimZeros(s, n - 1);
      assert s + Zeros(n) == (s + Zeros(n - 1)) + ['0'];
      assert (s + Zeros(n))[..|s| + n - 1] == s + Zeros(n - 1);
    }
  }

  // ── Truncation is digit cutting ───────────────────────────────────────────────

  lemma {:induction false} Pow10Sum(a: nat, b: nat)
    ensures Pow10(a + b) == Pow10(a) * Pow10(b)
  {
    if b > 0 {
      Pow10Sum(a, b - 1);
      Shift(Pow10(a), Pow10(b - 1));
    }
  }

  lemma SevenIsTenMillion()
    ensures Pow10(PLACES) == STROOPS_PER_XLM
  {
    assert Pow10(1) == 10 && Pow10(2) == 100 && Pow10(3) == 1000;
    Pow10Sum(3, 3);
    assert Pow10(6) == 1_000_000;
  }

  /** Stroops of a decimal are its digits with the fraction cut, or filled, to seven. */
  lemma StroopsAreDigits(whole: string, fraction: string)
    requires AllDigits(whole) && AllDigits(fraction)
    ensures AllDigits(whole + fraction)
    ensures StroopsMagnitude(ValueOf(whole + fraction), |fraction|) == ValueOf(whole + SevenPlaces(fraction))
  {
    ValueAppend(whole, fraction);
    if |fraction| <= PLACES {
      FilledDigits(whole, fraction);
    } else {
      CutDigits(whole, fraction);
    }
  }

  lemma FilledDigits(whole: string, fraction: string)
    requires AllDigits(whole) && AllDigits(fraction) && |fraction| <= PLACES && AllDigits(whole + fraction)
    ensures StroopsMagnitude(ValueOf(whole + fraction), |fraction|) == ValueOf(whole + SevenPlaces(fraction))
  {
    hide Pow10;
    hide ValueOf;
    var k := PLACES - |fraction|;
    var v := ValueOf(whole + fraction);
    assert whole + SevenPlaces(fraction) == (whole + fraction) + Zeros(k);
    ValueAppend(whole + fraction, Zeros(k));
    ZerosValue(k);
    Pow10Sum(|fraction|, k);
    SevenIsTenMillion();
    Regroup(v, Pow10(|fraction|), Pow10(k));
    DivisionIsUnique(v * STROOPS_PER_XLM, Pow10(|fraction|), v * Pow10(k), 0);
  }

  lemma Regroup(v: nat, p: nat, q: nat)
    ensures v * (p * q) == v * q * p
  {
  }

  lemma CutDigits(whole: string, fraction: string)
    requires AllDigits(whole) && AllDigits(fraction) && |fraction| > PLACES && AllDigits(whole + fraction)
    ensures StroopsMagnitude(ValueOf(whole + fraction), |fraction|) == ValueOf(whole + SevenPlaces(fraction))
  {
    hide Pow10;
    hide ValueOf;
    var cut, rest := fraction[..PLACES], fraction[PLACES..];
    assert whole + fraction == (whole + cut) + rest;
    ValueAppend(whole + cut, rest);
    ValueBelow(rest);
    Pow10Sum(PLACES, |rest|);
    SevenIsTenMillion();
    var q, r, p := ValueOf(whole + cut), ValueOf(rest), Pow10(|rest|);
    Rescale(q, p, r, STROOPS_PER_XLM);
    ProductGrows(r, p, STROOPS_PER_XLM);
    DivisionIsUnique((q * p + r) * STROOPS_PER_XLM, STROOPS_PER_XLM * p, q, r * STROOPS_PER_XLM);
  }

  lemma Rescale(q: nat, p: nat, r: nat, m: nat)
    ensures (q * p + r) * m == q * (m * p) + r * m
    ensures p * m == m * p
  {
    assert q * p * m == q * (m * p);
  }

  // ── The round trips ───────────────────────────────────────────────────────────

  /** Printing what a decimal is worth in stroops cuts its text to seven places. */
  lemma PrintedIsTruncated(d: Decimal)
    requires Proper(d)
    ensures StroopsToXlm(Signed(d.negative, StroopsMagnitude(Mantissa(d), |d.fraction|))) == TruncatedText(d)
  {
    hide StroopsMagnitude;
    hide ValueOf;
    hide Digits;
    hide Fixed;
    hide SevenPlaces;
    hide Trimmed;
    hide Stripped;
    var seven := SevenPlaces(d.fraction);
    StroopsAreDigits(d.whole, d.fraction);
    TrimmedSeven(d.fraction);
    SplitValue(d.whole, seven);
    LeadingZeros(d.whole);
    DigitsOfValue(Stripped(d.whole));
    FixedOfValue(seven);
    ZeroText(Stripped(d.whole), seven, ValueOf(d.whole + seven));
  }

  lemma SplitValue(whole: string, seven: string)
    requires AllDigits(whole) && AllDigits(seven) && |seven| == PLACES && AllDigits(whole + seven)
    ensures ValueOf(whole + seven) / STROOPS_PER_XLM == ValueOf(whole)
    ensures ValueOf(whole + seven) % STROOPS_PER_XLM == ValueOf(seven)
  {
    ValueAppend(whole, seven);
    ValueBelow(seven);
    SevenIsTenMillion();
  }

  /** The text is "0" exactly when no stroop is left. */
  lemma ZeroText(whole: string, seven: string, n: nat)
    requires whole != [] && AllDigits(whole) && |seven| == PLACES && AllDigits(seven)
    requires n / STROOPS_PER_XLM == ValueOf(whole) && n % STROOPS_PER_XLM == ValueOf(seven)
    requires Digits(ValueOf(whole)) == whole
    ensures WithFraction(whole, Trimmed(seven)) == "0" <==> n == 0
  {
    var t := Trimmed(seven);
    if n == 0 {
      assert whole == "0";
      if t != [] { PositiveDigits(seven, |t| - 1); }
    }
    if WithFraction(whole, t) == "0" {
      assert t == [];
      OneDigit('0');
      assert whole == ['0'];
      assert seven == Zeros(PLACES);
      ZerosValue(PLACES);
    }
  }

  lemma {:induction false} PositiveDigits(s: string, i: nat)
    requires AllDigits(s) && i < |s| && s[i] != '0'
    ensures ValueOf(s) > 0
  {
    if i < |s| - 1 { PositiveDigits(s[..|s| - 1], i); }
  }

  /** Converting a decimal string to stroops and back cuts it to seven places, for every decimal
      string: what follows is dropped, and so are zeros that do not count. */
  lemma TruncatesToSevenPlaces(s: string)
    requires ParseAmount(s).Success?
    ensures XlmToStroops(s).Success? && StroopsToXlm(XlmToStroops(s).value) == TruncatedText(ParseAmount(s).value)
  {
    PrintedIsTruncated(ParseAmount(s).value);
  }

  lemma {:induction false} PointAfter(whole: string, rest: string)
    requires AllDigits(whole)
    ensures PointIn(whole + "." + rest) == Some(|whole|)
    ensures PointIn(whole).None?
  {
    var s := whole + "." + rest;
    if whole != [] {
      PointAfter(whole[1..], rest);
      assert s[1..] == whole[1..] + "." + rest;
    }
  }

  /** A text of the shape that is read: a sign or none, digits, and a point with more digits or none. */
  datatype Shape = Shape(sign: string, whole: string, pointed: bool, fraction: string)

  predicate Readable(f: Shape)
  {
    && f.sign in ["", "-", "+"] && AllDigits(f.whole) && AllDigits(f.fraction)
    && (f.whole != [] || f.fraction != []) && (f.fraction != [] ==> f.pointed)
  }

  function BodyOf(f: Shape): string { f.whole + if f.pointed then "." + f.fraction else [] }

  function TextOf(f: Shape): string { f.sign + BodyOf(f) }

  function DecimalOf(f: Shape): Decimal { Decimal(f.sign == "-", if f.whole == [] then "0" else f.whole, f.fraction) }

  lemma BodyIsRead(f: Shape)
    requires Readable(f)
    ensures ParseUnsigned(BodyOf(f), f.sign == "-") == Success(DecimalOf(f))
    ensures BodyOf(f) != [] && BodyOf(f)[0] != '-' && BodyOf(f)[0] != '+'
  {
    PointAfter(f.whole, f.fraction);
    if f.pointed {
      assert BodyOf(f) == f.whole + "." + f.fraction;
      assert BodyOf(f)[..|f.whole|] == f.whole && BodyOf(f)[|f.whole| + 1..] == f.fraction;
    } else {
      assert BodyOf(f) == f.whole;
    }
  }

  /** Every text of that shape is read as the decimal it shows. */
  lemma ShapesAreRead(f: Shape)
    requires Readable(f)
    ensures ParseAmount(TextOf(f)) == Success(DecimalOf(f))
  {
    BodyIsRead(f);
    hide BodyOf;
    hide ParseUnsigned;
    var s := TextOf(f);
    if f.sign == "" { assert s == BodyOf(f); } else { assert s[0] == f.sign[0] && s[1..] == BodyOf(f); }
  }

  lemma SplitAtPoint(body: string, p: nat)
    requires p < |body| && body[p] == '.'
    ensures body == body[..p] + ("." + body[p + 1..])
  {
  }

  lemma OnlyBodiesAreRead(body: string, negative: bool) returns (f: Shape)
    requires ParseUnsigned(body, negative).Success?
    ensures Readable(f.(sign := "")) && body == BodyOf(f)
  {
    PointInBounds(body);
    var point := PointIn(body);
    if point.None? {
      f := Shape("", body, false, []);
    } else {
      SplitAtPoint(body, point.value);
      f := Shape("", body[..point.value], true, body[point.value + 1..]);
    }
    hide PointIn;
  }

  /** And no other text is read. */
  lemma OnlyShapesAreRead(s: string) returns (f: Shape)
    requires ParseAmount(s).Success?
    ensures Readable(f) && s == TextOf(f) && ParseAmount(s) == Success(DecimalOf(f))
  {
    if s != [] && (s[0] == '-' || s[0] == '+') {
      f := OnlyBodiesAreRead(s[1..], s[0] == '-');
      f := f.(sign := [s[0]]);
      assert s == [s[0]] + s[1..];
    } else {
      f := OnlyBodiesAreRead(s, false);
      f := f.(sign := "");
    }
    hide ParseUnsigned;
    ShapesAreRead(f);
  }

  /** A written decimal is read back as it is. */
  lemma ParsedAsWritten(d: Decimal)
    requires Proper(d)
    ensures ParseAmount((if d.negative then "-" else "") + WithFraction(d.whole, d.fraction)) == Success(d)
  {
    var f := Shape(if d.negative then "-" else "", d.whole, d.fraction != [], d.fraction);
    ShapesAreRead(f);
    assert TextOf(f) == (if d.negative then "-" else "") + WithFraction(d.whole, d.fraction) by {
      assert d.whole + [] == d.whole;
      assert d.whole + "." + d.fraction == d.whole + ("." + d.fraction);
    }
  }

  lemma SevenOfTrimmed(seven: string)
    requires |seven| == PLACES && AllDigits(seven)
    ensures AllDigits(Trimmed(seven)) && SevenPlaces(Trimmed(seven)) == seven
  {
  }

  /** Every integer number of stroops comes back from its XLM text. */
  lemma StroopsRoundTrip(n: int)
    ensures XlmToStroops(StroopsToXlm(n)) == Success(n)
  {
    var magnitude := if n < 0 then -n else n;
    var whole, seven := Digits(magnitude / STROOPS_PER_XLM), Fixed(magnitude % STROOPS_PER_XLM, PLACES);
    var d := Decimal(n < 0, whole, Trimmed(seven));
    SevenOfTrimmed(seven);
    ParsedAsWritten(d);
    StroopsAreDigits(whole, d.fraction);
    PrintedValue(magnitude, whole, seven);
    hide Trimmed;
    hide Digits;
    hide Fixed;
    hide ParseAmount;
    hide StroopsMagnitude;
    hide ValueOf;
    assert StroopsToXlm(n) == (if d.negative then "-" else "") + WithFraction(d.whole, d.fraction);
  }

  lemma PrintedValue(n: nat, whole: string, seven: string)
    requires whole == Digits(n / STROOPS_PER_XLM) && seven == Fixed(n % STROOPS_PER_XLM, PLACES)
    ensures AllDigits(whole + seven) && ValueOf(whole + seven) == n
  {
    SevenIsTenMillion();
    DigitsValue(n / STROOPS_PER_XLM);
    FixedValue(n % STROOPS_PER_XLM, PLACES);
    SplitValue(whole, seven);
  }

  // ── In numbers ────────────────────────────────────────────────────────────────

  lemma {:induction false} NoFraction(width: nat)
    ensures forall i :: 0 <= i < width ==> Fixed(0, width)[i] == '0'
  {
    if width > 0 { NoFraction(width - 1); }
  }

  /** One XLM is ten million stroops, so many XLM so many times that, and a debt the same with its sign. */
  lemma XlmInStroops(xlm: nat, stroops: nat)
    requires stroops == xlm * 10_000_000
    ensures StroopsToXlm(stroops) == Digits(xlm) && XlmToStroops(Digits(xlm)) == Success(stroops)
    ensures xlm > 0 ==> StroopsToXlm(0 - stroops) == "-" + Digits(xlm) && XlmToStroops("-" + Digits(xlm)) == Success(0 - stroops)
  {
    hide *;
    WholeXlm(xlm, stroops);
    StroopsRoundTrip(stroops);
    StroopsRoundTrip(0 - stroops);
  }

  lemma WholeXlm(xlm: nat, stroops: nat)
    requires stroops == xlm * 10_000_000
    ensures StroopsToXlm(stroops) == Digits(xlm)
    ensures xlm > 0 ==> StroopsToXlm(0 - stroops) == "-" + Digits(xlm)
  {
    NoFraction(7);
    assert Trimmed(Fixed(0, 7)) == [];
    assert stroops / STROOPS_PER_XLM == xlm && stroops % STROOPS_PER_XLM == 0;
    hide Trimmed;
    hide Fixed;
    hide Digits;
  }

  /** A single stroop is the seventh place. */
  lemma OneStroop()
    ensures StroopsToXlm(1) == "0.0000001" && XlmToStroops("0.0000001") == Success(1)
  {
    hide *;
    OneStroopText();
    StroopsRoundTrip(1);
  }

  lemma OneStroopText()
    ensures StroopsToXlm(1) == "0.0000001"
  {
    NoFraction(6);
    assert Fixed(1, 7) == Fixed(0, 6) + ['1'];
    assert Fixed(1, 7) == "0000001";
    assert Trimmed("0000001") == "0000001";
    assert Digits(0) == "0";
    assert WithFraction("0", "0000001") == "0.0000001";
    hide Fixed;
    hide Digits;
    hide Trimmed;
  }
}
