// Sums and comparisons of XLM amounts, against sums and comparisons of their stroops.
module AmountSums {
  import opened Common
  import opened Division
  import opened Amount

  /** The decimal in units of its `places`-th place. */
  function Units(d: Decimal, places: nat): int
    requires Proper(d) && |d.fraction| <= places
  {
    Signed(d.negative, Mantissa(d)) * Pow10(places - |d.fraction|)
  }

  /** An exact number of units of some place, as stroops rounded toward zero. */
  function Truncated(units: int, places: nat): int
  {
    if units < 0 then -(StroopsMagnitude(-units, places) as int) else StroopsMagnitude(units, places)
  }

  predicate AllProper(ds: seq<Decimal>) { forall i :: 0 <= i < |ds| ==> Proper(ds[i]) }

  predicate Within(ds: seq<Decimal>, places: nat) { forall i :: 0 <= i < |ds| ==> |ds[i].fraction| <= places }

  /** The exact sum, in units of the `places`-th place. */
  function TotalUnits(ds: seq<Decimal>, places: nat): int
    requires AllProper(ds) && Within(ds, places)
  {
    if ds == [] then 0 else TotalUnits(ds[..|ds| - 1], places) + Units(ds[|ds| - 1], places)
  }

  function StroopsOf(d: Decimal): int
    requires Proper(d)
  {
    Signed(d.negative, StroopsMagnitude(Mantissa(d), |d.fraction|))
  }

  function TotalStroops(ds: seq<Decimal>): int
    requires AllProper(ds)
  {
    if ds == [] then 0 else TotalStroops(ds[..|ds| - 1]) + StroopsOf(ds[|ds| - 1])
  }

  // ── Units at different places ─────────────────────────────────────────────────

  lemma Assoc(x: int, p: int, q: int)
    ensures x * p * q == x * (p * q)
  {
  }

  lemma Spread(x: int, y: int, p: int)
    ensures (x + y) * p == x * p + y * p
  {
  }

  lemma UnitsRescale(d: Decimal, places: nat, more: nat)
    requires Proper(d) && |d.fraction| <= places
    ensures Units(d, places + more) == Units(d, places) * Pow10(more)
  {
    hide Pow10;
    hide Mantissa;
    Pow10Sum(places - |d.fraction|, more);
    Assoc(Signed(d.negative, Mantissa(d)), Pow10(places - |d.fraction|), Pow10(more));
  }

  lemma {:induction false} TotalRescale(ds: seq<Decimal>, places: nat, more: nat)
    requires AllProper(ds) && Within(ds, places)
    ensures Within(ds, places + more) && TotalUnits(ds, places + more) == TotalUnits(ds, places) * Pow10(more)
  {
    hide Pow10;
    hide Units;
    if ds != [] {
      var n := |ds| - 1;
      TotalRescale(ds[..n], places, more);
      UnitsRescale(ds[n], places, more);
      Spread(TotalUnits(ds[..n], places), Units(ds[n], places), Pow10(more));
    }
  }

  lemma MagnitudeRescale(v: nat, places: nat, more: nat)
    ensures v * Pow10(more) >= 0 && StroopsMagnitude(v * Pow10(more), places + more) == StroopsMagnitude(v, places)
  {
    var m, p, t := Pow10(places), Pow10(more), v * STROOPS_PER_XLM;
    Pow10Sum(places, more);
    hide Pow10;
    var q, r := t / m, t % m;
    assert t == q * m + r && r < m by { Divides(t, m); }
    assert v * p * STROOPS_PER_XLM == q * (m * p) + r * p by { Rearrange(v, p, STROOPS_PER_XLM, q, m, r); }
    ProductGrows(r, m, p);
    assert v * p >= 0;
    DivisionIsUnique(v * p * STROOPS_PER_XLM, m * p, q, r * p);
    DivisionIsUnique(t, m, q, r);
  }

  lemma Divides(t: nat, m: nat)
    requires m > 0
    ensures t == t / m * m + t % m && 0 <= t % m < m && t / m >= 0
  {
  }

  lemma Rearrange(v: nat, p: nat, s: nat, q: nat, m: nat, r: nat)
    requires v * s == q * m + r
    ensures v * p * s == q * (m * p) + r * p
  {
    assert v * p * s == (v * s) * p;
    assert (q * m + r) * p == q * m * p + r * p;
    assert q * m * p == q * (m * p);
  }

  /** Writing more zeros behind a number does not change its stroops. */
  lemma TruncatedRescale(units: int, places: nat, more: nat)
    ensures Truncated(units * Pow10(more), places + more) == Truncated(units, places)
  {
    var p := Pow10(more);
    hide StroopsMagnitude;
    if units < 0 {
      MagnitudeRescale(-units, places, more);
      assert units * p < 0 && -(units * p) == (-units) * p;
    } else {
      MagnitudeRescale(units, places, more);
    }
  }

  lemma TruncatedDecimal(d: Decimal, places: nat)
    requires Proper(d) && |d.fraction| <= places
    ensures Truncated(Units(d, places), places) == StroopsOf(d)
  {
    hide StroopsMagnitude;
    hide Pow10;
    hide Mantissa;
    var m := Mantissa(d);
    TruncatedRescale(Signed(d.negative, m), |d.fraction|, places - |d.fraction|);
    assert Truncated(0, |d.fraction|) == 0 by { NothingTruncated(|d.fraction|); }
  }

  lemma NothingTruncated(places: nat)
    ensures StroopsMagnitude(0, places) == 0
  {
    DivisionIsUnique(0, Pow10(places), 0, 0);
  }

  // ── Summing ───────────────────────────────────────────────────────────────────

  predicate Parses(amounts: seq<string>)
  {
    forall i :: 0 <= i < |amounts| ==> ParseAmount(amounts[i]).Success?
  }

  function Parsed(amounts: seq<string>): (ds: seq<Decimal>)
    requires Parses(amounts)
    ensures |ds| == |amounts| && AllProper(ds)
    ensures forall i :: 0 <= i < |ds| ==> ds[i] == ParseAmount(amounts[i]).value
  {
    seq(|amounts|, i requires 0 <= i < |amounts| => ParseAmount(amounts[i]).value)
  }

  /** The exact sum, printed as an amount: whatever place it is taken at, cut to seven. */
  method SumAmounts(amounts: seq<string>) returns (r: Result<string>)
    ensures r.Success? <==> Parses(amounts)
    ensures r.Success? ==> forall places: nat :: Within(Parsed(amounts), places) ==>
      r.value == StroopsToXlm(Truncated(TotalUnits(Parsed(amounts), places), places))
  {
    hide StroopsToXlm;
    hide Truncated;
    hide Units;
    hide Pow10;
    hide ParseAmount;
    var sum: int, places: nat := 0, 0;
    var i := 0;
    while i < |amounts|
      invariant i <= |amounts| && Parses(amounts[..i])
      invariant Within(Parsed(amounts[..i]), places) && sum == TotalUnits(Parsed(amounts[..i]), places)
    {
      var d := ParseAmount(amounts[i]);
      if d.Failure? { return Failure(d.error); }
      OneMoreParsed(amounts, i);
      AddOne(Parsed(amounts[..i]), d.value, places);
      if places < |d.value.fraction| {
        sum := sum * Pow10(|d.value.fraction| - places);
        places := |d.value.fraction|;
      }
      sum := sum + Units(d.value, places);
      i := i + 1;
    }
    assert amounts[..i] == amounts;
    SumAtAnyPlace(Parsed(amounts), places);
    r := Success(StroopsToXlm(Truncated(sum, places)));
  }

  lemma OneMoreParsed(amounts: seq<string>, i: nat)
    requires i < |amounts| && Parses(amounts[..i]) && ParseAmount(amounts[i]).Success?
    ensures Parses(amounts[..i + 1])
    ensures Parsed(amounts[..i + 1]) == Parsed(amounts[..i]) + [ParseAmount(amounts[i]).value]
  {
    hide ParseAmount;
    assert amounts[..i + 1] == amounts[..i] + [amounts[i]];
  }

  lemma SumAtAnyPlace(ds: seq<Decimal>, places: nat)
    requires AllProper(ds) && Within(ds, places)
    ensures forall at: nat :: Within(ds, at) ==> Truncated(TotalUnits(ds, at), at) == Truncated(TotalUnits(ds, places), places)
  {
    hide Truncated;
    hide TotalUnits;
    forall at: nat | Within(ds, at) ensures Truncated(TotalUnits(ds, at), at) == Truncated(TotalUnits(ds, places), places) {
      PlaceDoesNotMatter(ds, places, at);
    }
  }

  lemma AddOne(ds: seq<Decimal>, d: Decimal, places: nat)
    requires AllProper(ds) && Within(ds, places) && Proper(d)
    ensures var more := if places < |d.fraction| then |d.fraction| - places else 0;
      && Within(ds + [d], places + more)
      && TotalUnits(ds + [d], places + more) == TotalUnits(ds, places) * Pow10(more) + Units(d, places + more)
  {
    hide Units;
    var more := if places < |d.fraction| then |d.fraction| - places else 0;
    TotalRescale(ds, places, more);
    assert (ds + [d])[..|ds|] == ds;
  }

  lemma PlaceDoesNotMatter(ds: seq<Decimal>, places: nat, at: nat)
    requires AllProper(ds) && Within(ds, places) && Within(ds, at)
    ensures Truncated(TotalUnits(ds, at), at) == Truncated(TotalUnits(ds, places), places)
  {
    hide Truncated;
    hide TotalUnits;
    hide Pow10;
    if places <= at {
      TotalRescale(ds, places, at - places);
      TruncatedRescale(TotalUnits(ds, places), places, at - places);
    } else {
      TotalRescale(ds, at, places - at);
      TruncatedRescale(TotalUnits(ds, at), at, places - at);
    }
  }

  // ── The stroops of a sum ──────────────────────────────────────────────────────

  /** What summing the stroops of each amount leaves out, in units of the `places`-th place. */
  function Dropped(ds: seq<Decimal>, places: nat): int
    requires AllProper(ds) && Within(ds, places) && PLACES <= places
  {
    TotalUnits(ds, places) - TotalStroops(ds) * Pow10(places - PLACES)
  }

  lemma WholeStroops(v: nat, places: nat)
    requires PLACES <= places
    ensures var m := Pow10(places - PLACES);
      StroopsMagnitude(v, places) * m <= v < StroopsMagnitude(v, places) * m + m
  {
    var m := Pow10(places - PLACES);
    Pow10Sum(PLACES, places - PLACES);
    SevenIsTenMillion();
    hide Pow10;
    var q, r := v / m, v % m;
    Divides(v, m);
    Rearrange(v, 1, STROOPS_PER_XLM, q * STROOPS_PER_XLM, m, r * STROOPS_PER_XLM);
    assert v * STROOPS_PER_XLM == q * (STROOPS_PER_XLM * m) + r * STROOPS_PER_XLM by { Scale(v, q, m, r, STROOPS_PER_XLM); }
    ProductGrows(r, m, STROOPS_PER_XLM);
    assert r * STROOPS_PER_XLM < STROOPS_PER_XLM * m;
    DivisionIsUnique(v * STROOPS_PER_XLM, STROOPS_PER_XLM * m, q, r * STROOPS_PER_XLM);
  }

  lemma Scale(v: nat, q: nat, m: nat, r: nat, s: nat)
    requires v == q * m + r
    ensures v * s == q * (s * m) + r * s
  {
    assert (q * m + r) * s == q * m * s + r * s;
    assert q * m * s == q * (s * m);
  }

  /** Below one stroop, and not against the sign of `n`. */
  predicate Negligible(left: int, n: int, stroop: int)
  {
    -stroop < left < stroop && (n > 0 ==> left >= 0) && (n < 0 ==> left <= 0)
  }

  /** Rounding toward zero gives `n` exactly when what is left over stays below one stroop and does
      not pull against the sign of `n`. */
  lemma TruncatedIs(units: int, places: nat, n: int, left: int)
    requires PLACES <= places && units == n * Pow10(places - PLACES) + left
    ensures Truncated(units, places) == n <==>
      Negligible(left, n, Pow10(places - PLACES))
  {
    var m := Pow10(places - PLACES);
    var t := Truncated(units, places);
    if units < 0 {
      WholeStroops(-units, places);
      Negated(-t, m);
    } else { WholeStroops(units, places); }
    hide Pow10;
    hide StroopsMagnitude;
    TruncatedBounds(units, t, n, left, m);
  }

  lemma Negated(t: int, m: int)
    ensures (-t) * m == -(t * m)
  {
  }

  lemma IntGrows(a: int, b: int, m: int)
    requires a < b && m > 0
    ensures a * m + m <= b * m
  {
    var c := b - a - 1;
    Spread(a + 1, c, m);
    Spread(a, 1, m);
    assert c * m >= 0;
  }

  lemma TruncatedBounds(units: int, t: int, n: int, left: int, m: int)
    requires m > 0 && units == n * m + left
    requires units >= 0 ==> 0 <= t && t * m <= units < t * m + m
    requires units < 0 ==> t <= 0 && t * m - m < units <= t * m
    ensures t == n <==> Negligible(left, n, m)
  {
    if t < n { IntGrows(t, n, m); }
    if n < t { IntGrows(n, t, m); }
    if n > 0 { IntGrows(0, n, m); }
    if n < 0 { IntGrows(n, 0, m); }
    if t > 0 { IntGrows(0, t, m); }
    if t < 0 { IntGrows(t, 0, m); }
  }

  /**
   * The stroops of a sum are the sum of the stroops exactly when the parts that the separate
   * conversions drop add up to less than a stroop, and not against the sign of the whole.
   */
  lemma SumKeepsStroopsIff(ds: seq<Decimal>, places: nat)
    requires AllProper(ds) && Within(ds, places) && PLACES <= places
    ensures Truncated(TotalUnits(ds, places), places) == TotalStroops(ds) <==>
      Negligible(Dropped(ds, places), TotalStroops(ds), Pow10(places - PLACES))
  {
    hide TotalUnits;
    hide TotalStroops;
    hide Truncated;
    hide Pow10;
    TruncatedIs(TotalUnits(ds, places), places, TotalStroops(ds), Dropped(ds, places));
  }

  lemma {:induction false} SevenPlacesDropNothing(ds: seq<Decimal>)
    requires AllProper(ds) && Within(ds, PLACES)
    ensures TotalUnits(ds, PLACES) == TotalStroops(ds)
  {
    hide Units;
    hide StroopsOf;
    if ds != [] {
      SevenPlacesDropNothing(ds[..|ds| - 1]);
      SevenPlacesIsStroops(ds[|ds| - 1]);
    }
  }

  lemma SevenPlacesIsStroops(d: Decimal)
    requires Proper(d) && |d.fraction| <= PLACES
    ensures Units(d, PLACES) == StroopsOf(d)
  {
    hide StroopsOf;
    hide Units;
    TruncatedDecimal(d, PLACES);
    TruncatedIs(Units(d, PLACES), PLACES, Units(d, PLACES), 0);
  }

  /** With at most seven places each, nothing is dropped: the stroops of the sum are the sum of the
      stroops. */
  lemma SumOfStroops(ds: seq<Decimal>)
    requires AllProper(ds) && Within(ds, PLACES)
    ensures Truncated(TotalUnits(ds, PLACES), PLACES) == TotalStroops(ds)
  {
    hide Truncated;
    SevenPlacesDropNothing(ds);
    TruncatedIs(TotalUnits(ds, PLACES), PLACES, TotalStroops(ds), 0);
  }

  /** Two halves of a stroop make one, though each is worth none. */
  lemma HalvesAddUp()
    ensures var d := Decimal(false, "0", "00000005");
      TotalStroops([d, d]) == 0 && Truncated(TotalUnits([d, d], 8), 8) == 1
  {
    var d := Decimal(false, "0", "00000005");
    HalfAStroop(d);
    hide Units;
    hide StroopsOf;
    assert [d, d][..1] == [d] && [d][..0] == [];
    assert TotalUnits([d], 8) == TotalUnits([], 8) + 5;
    assert TotalUnits([d, d], 8) == 10;
    assert TotalStroops([d]) == TotalStroops([]) + 0;
    assert Pow10(1) == 10;
    TruncatedIs(10, 8, 1, 0);
  }

  lemma HalfAStroop(d: Decimal)
    requires d == Decimal(false, "0", "00000005")
    ensures Proper(d) && Units(d, 8) == 5 && StroopsOf(d) == 0
  {
    assert d.whole + d.fraction == Zeros(8) + "5" by { EightZeros(); }
    ZerosValue(8);
    OneDigit('5');
    ValueAppend(Zeros(8), "5");
    assert Pow10(0) == 1 && Pow10(1) == 10;
    hide Mantissa;
    assert Mantissa(d) == 5 by { MantissaIs(d); }
    TruncatedDecimal(d, 8);
    TruncatedIs(5, 8, 0, 5);
  }

  lemma EightZeros()
    ensures Zeros(8) == "00000000"
  {
  }

  lemma MantissaIs(d: Decimal)
    requires Proper(d)
    ensures Mantissa(d) == ValueOf(d.whole + d.fraction)
  {
  }

  // ── Comparing ─────────────────────────────────────────────────────────────────

  /** -1, 0 or 1, by exact value. */
  function CompareAmounts(a: Decimal, b: Decimal): int
    requires Proper(a) && Proper(b)
  {
    var places := if |a.fraction| < |b.fraction| then |b.fraction| else |a.fraction|;
    var x, y := Units(a, places), Units(b, places);
    if x < y then -1 else if x > y then 1 else 0
  }

  lemma ScaledOrder(x: int, y: int, p: nat)
    requires p > 0
    ensures x < y <==> x * p < y * p
  {
    if x < y { IntGrows(x, y, p); }
    if y < x { IntGrows(y, x, p); }
  }

  /** The comparison is that of the values, at whatever common place they are written. */
  lemma CompareAtAnyPlace(a: Decimal, b: Decimal, places: nat)
    requires Proper(a) && Proper(b) && |a.fraction| <= places && |b.fraction| <= places
    ensures CompareAmounts(a, b) < 0 <==> Units(a, places) < Units(b, places)
    ensures CompareAmounts(a, b) == 0 <==> Units(a, places) == Units(b, places)
    ensures CompareAmounts(a, b) in {-1, 0, 1}
  {
    hide Units;
    var most := if |a.fraction| < |b.fraction| then |b.fraction| else |a.fraction|;
    UnitsRescale(a, most, places - most);
    UnitsRescale(b, most, places - most);
    ScaledOrder(Units(a, most), Units(b, most), Pow10(places - most));
    ScaledOrder(Units(b, most), Units(a, most), Pow10(places - most));
  }

  /** Amounts of at most seven places compare as their stroops do. */
  lemma CompareIsStroopOrder(a: Decimal, b: Decimal)
    requires Proper(a) && Proper(b) && |a.fraction| <= PLACES && |b.fraction| <= PLACES
    ensures CompareAmounts(a, b) < 0 <==> StroopsOf(a) < StroopsOf(b)
    ensures CompareAmounts(a, b) == 0 <==> StroopsOf(a) == StroopsOf(b)
  {
    CompareAtAnyPlace(a, b, PLACES);
    SevenPlacesIsStroops(a);
    SevenPlacesIsStroops(b);
  }
}
