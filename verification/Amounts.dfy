/**
 Money amounts: decimal major units on the wire, integer minor units inside, lovelace on chain.
 */
module Amounts {
  import opened Prelude
  import opened TextOrder

  // ---------- text ----------

  predicate IsDigit(c: char) {
    '0' <= c <= '9'
  }

  predicate AllDigits(s: string) {
    forall i :: 0 <= i < |s| ==> IsDigit(s[i])
  }

  function DigitValue(c: char): nat
    requires IsDigit(c)
  {
    c as int - '0' as int
  }

  /** The number a digit string denotes; the empty string denotes zero. */
  function Value(s: string): nat
    requires AllDigits(s)
  {
    if s == "" then 0 else Value(s[..|s| - 1]) * 10 + DigitValue(s[|s| - 1])
  }

  function TrimStart(s: string): string {
    if s != "" && IsSpace(s[0]) then TrimStart(s[1..]) else s
  }

  function TrimEnd(s: string): string {
    if s != "" && IsSpace(s[|s| - 1]) then TrimEnd(s[..|s| - 1]) else s
  }

  /** The parts before and after the first point; no point means an empty second part. */
  function SplitAtPoint(s: string): (string, string) {
    if s == "" then ("", "")
    else if s[0] == '.' then ("", s[1..])
    else var (before, after) := SplitAtPoint(s[1..]); ([s[0]] + before, after)
  }

  /** Unsigned 128-bit parsing: an optional plus sign, then at least one digit, in range. */
  function ParseU128(s: string): Option<nat> {
    var digits := if s != "" && s[0] == '+' then s[1..] else s;
    if digits == "" || !AllDigits(digits) || Value(digits) > U128_MAX then None
    else Some(Value(digits))
  }

  function PadRight(s: string, width: nat): string
    decreases width - |s|
  {
    if |s| >= width then s else PadRight(s + "0", width)
  }

  // ---------- minor units ----------

  datatype AmountError = EmptyAmount | InvalidAmount | InvalidFraction | AmountOverflow

  function MinorUnits(amount: string, decimals: nat): Result<nat, AmountError> {
    var parts := SplitAtPoint(TrimEnd(TrimStart(amount)));
    if parts.0 == "" && parts.1 == "" then Err(EmptyAmount)
    else Combine(WholePart(parts.0), FractionPart(PadRight(Truncate(parts.1, decimals), decimals)), Pow10(decimals))
  }

  function Truncate(s: string, width: nat): string {
    if |s| > width then s[..width] else s
  }

  function WholePart(digits: string): Option<nat> {
    if digits == "" then Some(0) else ParseU128(digits)
  }

  function FractionPart(digits: string): Option<nat> {
    if digits == "" then Some(0) else ParseU128(digits)
  }

  function Combine(whole: Option<nat>, minor: Option<nat>, unit: nat): Result<nat, AmountError> {
    match whole
    case None => Err(InvalidAmount)
    case Some(w) =>
      match minor
      case None => Err(InvalidFraction)
      case Some(m) => if w * unit + m > U128_MAX then Err(AmountOverflow) else Ok(w * unit + m)
  }

  /** The parser: truncate the fraction to the currency's decimals, pad it on the right, combine. */
  method ParseMinorUnits(amount: string, decimals: nat) returns (r: Result<nat, AmountError>)
    requires decimals <= 38
    ensures r == MinorUnits(amount, decimals)
  {
    var parts := SplitAtPoint(TrimEnd(TrimStart(amount)));
    if parts.0 == "" && parts.1 == "" {
      return Err(EmptyAmount);
    }
    var frac := Truncate(parts.1, decimals);
    while |frac| < decimals
      invariant PadRight(frac, decimals) == PadRight(Truncate(parts.1, decimals), decimals)
      decreases decimals - |frac|
    {
      frac := frac + "0";
    }
    r := Combine(WholePart(parts.0), FractionPart(frac), Pow10(decimals));
  }

  // ---------- parsing is exact ----------

  /** A decimal: digits, and perhaps a point and more digits, with at least one digit somewhere. */
  datatype Decimal = Decimal(whole: string, fraction: Option<string>) {
    predicate WellFormed() {
      && AllDigits(whole)
      && AllDigits(fraction.GetOr(""))
      && (whole != "" || fraction.GetOr("") != "")
    }

    function Text(): string {
      match fraction
      case None => whole
      case Some(f) => whole + "." + f
    }

    /** The value in units of 10^-Scale(). */
    function Numerator(): nat
      requires WellFormed()
    {
      Value(whole) * Pow10(Scale()) + Value(fraction.GetOr(""))
    }

    function Scale(): nat {
      |fraction.GetOr("")|
    }
  }

  /** The hundredths in a decimal, rounded down. */
  function FloorOfHundredths(d: Decimal): nat
    requires d.WellFormed()
  {
    100 * d.Numerator() / Pow10(d.Scale())
  }

  lemma {:induction false} TrimStartKeeps(pad: string, s: string)
    requires forall i :: 0 <= i < |pad| ==> IsSpace(pad[i])
    requires s != "" && !IsSpace(s[0])
    ensures TrimStart(pad + s) == s
  {
    if pad == "" {
      assert pad + s == s;
    } else {
      assert (pad + s)[1..] == pad[1..] + s;
      TrimStartKeeps(pad[1..], s);
    }
  }

  lemma {:induction false} TrimEndKeeps(s: string, pad: string)
    requires forall i :: 0 <= i < |pad| ==> IsSpace(pad[i])
    requires s != "" && !IsSpace(s[|s| - 1])
    ensures TrimEnd(s + pad) == s
  {
    if pad == "" {
      assert s + pad == s;
    } else {
      var short := pad[..|pad| - 1];
      assert (s + pad)[..|s + pad| - 1] == s + short;
      TrimEndKeeps(s, short);
    }
  }

  predicate NoPoint(s: string) {
    forall i :: 0 <= i < |s| ==> s[i] != '.'
  }

  lemma {:induction false} SplitAtFirstPoint(before: string, after: string)
    requires NoPoint(before)
    ensures SplitAtPoint(before + "." + after) == (before, after)
  {
    var s := before + "." + after;
    if before == "" {
      assert s[1..] == after;
    } else {
      assert s[1..] == before[1..] + "." + after;
      SplitAtFirstPoint(before[1..], after);
      assert [before[0]] + before[1..] == before;
    }
  }

  lemma {:induction false} SplitWithoutPoint(s: string)
    requires NoPoint(s)
    ensures SplitAtPoint(s) == (s, "")
  {
    if s != "" {
      SplitWithoutPoint(s[1..]);
      assert [s[0]] + s[1..] == s;
    }
  }

  lemma {:induction false} ValueOfConcat(a: string, b: string)
    requires AllDigits(a) && AllDigits(b)
    ensures AllDigits(a + b) && Value(a + b) == Value(a) * Pow10(|b|) + Value(b)
    decreases |b|
  {
    if b == "" {
      assert a + b == a;
    } else {
      var short := b[..|b| - 1];
      ValueOfConcat(a, short);
      assert (a + b)[..|a + b| - 1] == a + short;
      assert (a + b)[|a + b| - 1] == b[|b| - 1];
      OneDigitMore(Value(a), Pow10(|short|), Value(short), DigitValue(b[|b| - 1]));
    }
  }

  lemma OneDigitMore(v: nat, p: nat, w: nat, d: nat)
    ensures (v * p + w) * 10 + d == v * (10 * p) + (w * 10 + d)
  {
  }

  lemma {:induction false} ValueIsBounded(s: string)
    requires AllDigits(s)
    ensures Value(s) < Pow10(|s|)
  {
    if s != "" {
      ValueIsBounded(s[..|s| - 1]);
    }
  }

  /** Truncating or padding to two digits is taking the floor of 100 times the fraction. */
  lemma FractionToHundredths(f: string)
    requires AllDigits(f)
    ensures var two := PadRight(Truncate(f, 2), 2);
            && AllDigits(two) && |two| == 2
            && Value(two) * Pow10(|f|) <= 100 * Value(f) < (Value(two) + 1) * Pow10(|f|)
  {
    if |f| > 2 {
      LongFraction(f);
      assert Truncate(f, 2) == f[..2] && PadRight(f[..2], 2) == f[..2];
    } else {
      ShortFraction(f);
    }
  }

  lemma LongFraction(f: string)
    requires AllDigits(f) && |f| > 2
    ensures Value(f[..2]) * Pow10(|f|) <= 100 * Value(f) < (Value(f[..2]) + 1) * Pow10(|f|)
  {
    var kept, dropped := f[..2], f[2..];
    assert f == kept + dropped;
    ValueOfConcat(kept, dropped);
    ValueIsBounded(dropped);
    assert Pow10(|f|) == 10 * Pow10(|f| - 1) == 100 * Pow10(|dropped|);
    ScaledByHundred(Value(kept), Pow10(|dropped|), Value(dropped));
  }

  lemma ScaledByHundred(v: nat, p: nat, d: nat)
    requires d < p
    ensures v * (100 * p) <= 100 * (v * p + d) < (v + 1) * (100 * p)
  {
    assert v * (100 * p) == 100 * (v * p);
    assert (v + 1) * (100 * p) == 100 * (v * p) + 100 * p;
  }

  lemma ShortFraction(f: string)
    requires AllDigits(f) && |f| <= 2
    ensures var two := PadRight(f, 2);
            && AllDigits(two) && |two| == 2
            && Value(two) * Pow10(|f|) <= 100 * Value(f) < (Value(two) + 1) * Pow10(|f|)
  {
    assert Pow10(0) == 1 && Pow10(1) == 10 && Pow10(2) == 100;
    assert Value("0") == 0 by {
      assert "0"[..0] == "";
    }
    if |f| == 1 {
      assert PadRight(f, 2) == f + "0";
      ValueOfConcat(f, "0");
    } else if |f| == 0 {
      var z := f + "0";
      assert PadRight(f, 2) == PadRight(z, 2);
      assert PadRight(z, 2) == PadRight(z + "0", 2) == z + "0";
      assert z == "0";
      ValueOfConcat(z, "0");
    }
  }

  lemma MulMonotone(a: int, b: int, d: nat)
    requires a <= b
    ensures a * d <= b * d
  {
  }

  lemma CancelLess(a: int, b: int, d: nat)
    requires a * d < b * d
    ensures a < b
  {
    if b <= a {
      MulMonotone(b, a, d);
    }
  }

  lemma FloorIsUnique(n: nat, d: nat, q: nat)
    requires d > 0 && q * d <= n < (q + 1) * d
    ensures n / d == q
  {
    var f := n / d;
    assert f * d <= n < (f + 1) * d;
    CancelLess(q, f + 1, d);
    CancelLess(f, q + 1, d);
  }

  lemma DecimalTextParts(d: Decimal, before: string, after: string)
    requires d.WellFormed()
    requires forall i :: 0 <= i < |before| ==> IsSpace(before[i])
    requires forall i :: 0 <= i < |after| ==> IsSpace(after[i])
    ensures SplitAtPoint(TrimEnd(TrimStart(before + d.Text() + after))) == (d.whole, d.fraction.GetOr(""))
  {
    var t := d.Text();
    assert before + t + after == before + (t + after);
    TrimStartKeeps(before, t + after);
    TrimEndKeeps(t, after);
    match d.fraction {
      case None => SplitWithoutPoint(t);
      case Some(f) => SplitAtFirstPoint(d.whole, f);
    }
  }

  /** The hundredths are the whole part's, plus the first two digits after the point. */
  lemma HundredthsFromParts(d: Decimal)
    requires d.WellFormed()
    ensures var two := PadRight(Truncate(d.fraction.GetOr(""), 2), 2);
            && AllDigits(two) && |two| == 2
            && FloorOfHundredths(d) == Value(d.whole) * 100 + Value(two)
  {
    var f := d.fraction.GetOr("");
    FractionToHundredths(f);
    var two := PadRight(Truncate(f, 2), 2);
    HundredthsArithmetic(Value(d.whole), Value(two), Value(f), Pow10(|f|));
  }

  lemma HundredthsArithmetic(w: nat, m: nat, v: nat, p: nat)
    requires p > 0 && m * p <= 100 * v < (m + 1) * p
    ensures 100 * (w * p + v) / p == w * 100 + m
  {
    assert (w * 100 + m) * p == 100 * (w * p) + m * p;
    assert (w * 100 + m + 1) * p == 100 * (w * p) + (m + 1) * p;
    FloorIsUnique(100 * (w * p + v), p, w * 100 + m);
  }

  lemma TwoDigitsParse(two: string)
    requires AllDigits(two) && |two| == 2
    ensures ParseU128(two) == Some(Value(two)) && Value(two) < 100
  {
    ValueIsBounded(two);
    assert Pow10(1) == 10 && Pow10(2) == 100;
  }

  /** Every well-formed decimal, with any white space around it, is read as the floor of 100 times
      its value, and is refused exactly when that floor does not fit 128 bits. */
  lemma ParsesToFloorOfHundredths(d: Decimal, before: string, after: string)
    requires d.WellFormed()
    requires forall i :: 0 <= i < |before| ==> IsSpace(before[i])
    requires forall i :: 0 <= i < |after| ==> IsSpace(after[i])
    ensures var r := MinorUnits(before + d.Text() + after, 2);
            && (r.Ok? <==> FloorOfHundredths(d) <= U128_MAX)
            && (r.Ok? ==> r.value == FloorOfHundredths(d))
  {
    DecimalTextParts(d, before, after);
    HundredthsFromParts(d);
    var two := PadRight(Truncate(d.fraction.GetOr(""), 2), 2);
    TwoDigitsParse(two);
    assert Pow10(1) == 10 && Pow10(2) == 100;
    assert MinorUnits(before + d.Text() + after, 2) == Combine(WholePart(d.whole), Some(Value(two)), 100);
  }

  // ---------- what is not a number is refused ----------

  /** Digits, at least one, perhaps after a plus sign. */
  predicate IsNumber(s: string) {
    if s != "" && s[0] == '+' then |s| >= 2 && AllDigits(s[1..]) else s != "" && AllDigits(s)
  }

  function NumberValue(s: string): nat
    requires IsNumber(s)
  {
    if s[0] == '+' then Value(s[1..]) else Value(s)
  }

  /** The first two characters after the point, filled up with zeros. */
  function FirstTwo(fraction: string): string {
    match |fraction|
    case 0 => "00"
    case 1 => fraction + "0"
    case _ => fraction[..2]
  }

  lemma FirstTwoIsPadded(fraction: string)
    ensures PadRight(Truncate(fraction, 2), 2) == FirstTwo(fraction)
  {
    if |fraction| == 0 {
      assert PadRight("", 2) == PadRight("0", 2) == PadRight("00", 2);
    } else if |fraction| == 1 {
      assert PadRight(fraction, 2) == PadRight(fraction + "0", 2);
    }
  }

  /** The text of an amount: what comes before the point and, if there is a point, after it; no white space
      at either end. */
  ghost predicate IsBody(body: string, whole: string, fraction: Option<string>) {
    && NoPoint(whole)
    && body == whole + (if fraction.Some? then "." + fraction.value else "")
    && (body != "" ==> !IsSpace(body[0]) && !IsSpace(body[|body| - 1]))
  }

  lemma {:induction false} BlankTrimsAway(pad: string)
    requires Blank(pad)
    ensures TrimStart(pad) == ""
  {
    if pad != "" {
      BlankTrimsAway(pad[1..]);
    }
  }

  lemma BodyParts(body: string, whole: string, fraction: Option<string>, before: string, after: string)
    requires IsBody(body, whole, fraction) && Blank(before) && Blank(after)
    ensures SplitAtPoint(TrimEnd(TrimStart(before + body + after))) == (whole, fraction.GetOr(""))
  {
    if body == "" {
      BlankTrimsAway(before + body + after);
    } else {
      assert before + body + after == before + (body + after);
      TrimStartKeeps(before, body + after);
      TrimEndKeeps(body, after);
      match fraction {
        case None =>
          assert body == whole;
          SplitWithoutPoint(whole);
        case Some(f) =>
          assert body == whole + "." + f;
          SplitAtFirstPoint(whole, f);
      }
    }
  }

  /** Of all texts: an amount is read exactly if it is not empty, what stands before the point is nothing or
      a number, the two characters after it make a number, and the sum fits 128 bits; what comes after those
      two is dropped unread. */
  lemma ReadsExactlyNumbers(body: string, whole: string, fraction: Option<string>, before: string, after: string)
    requires IsBody(body, whole, fraction) && Blank(before) && Blank(after)
    ensures var r := MinorUnits(before + body + after, 2);
            var two := FirstTwo(if fraction.Some? then fraction.value else "");
            if body == "" || body == "." then r == Err(EmptyAmount)
            else if whole != "" && !(IsNumber(whole) && NumberValue(whole) <= U128_MAX) then r == Err(InvalidAmount)
            else if !IsNumber(two) then r == Err(InvalidFraction)
            else
              var total := 100 * (if whole == "" then 0 else NumberValue(whole)) + NumberValue(two);
              r == if total <= U128_MAX then Ok(total) else Err(AmountOverflow)
  {
    BodyParts(body, whole, fraction, before, after);
    var f := fraction.GetOr("");
    FirstTwoIsPadded(f);
    var two := FirstTwo(f);
    assert Pow10(1) == 10 && Pow10(2) == 100;
    ParsesExactlyNumbers(whole);
    ParsesExactlyNumbers(two);
    if IsNumber(two) {
      TwoCharactersAreSmall(two);
    }
  }

  lemma ParsesExactlyNumbers(s: string)
    ensures ParseU128(s) == if IsNumber(s) && NumberValue(s) <= U128_MAX then Some(NumberValue(s)) else None
  {
  }

  lemma TwoCharactersAreSmall(two: string)
    requires |two| == 2 && IsNumber(two)
    ensures NumberValue(two) < 100
  {
    ValueIsBounded(two[1..]);
    if two[0] != '+' {
      ValueIsBounded(two);
    }
    assert Pow10(1) == 10 && Pow10(2) == 100;
  }

  // ---------- printing ----------

  function Shown(n: nat): (s: string)
    ensures s != "" && AllDigits(s) && Value(s) == n
  {
    var last := [('0' as int + n % 10) as char];
    if n < 10 then
      assert last[..0] == "";
      last
    else
      var s := Shown(n / 10) + last;
      assert s[..|s| - 1] == Shown(n / 10);
      s
  }

  /** Minor units as a decimal with exactly two places. */
  function TwoPlaces(minor: nat): Decimal {
    Decimal(Shown(minor / 100), Some(Shown(minor % 100 / 10) + Shown(minor % 100 % 10)))
  }

  function PrintMinorUnits(minor: nat): string {
    TwoPlaces(minor).Text()
  }

  lemma ShownHundredths(cents: nat)
    requires cents < 100
    ensures var two := Shown(cents / 10) + Shown(cents % 10); AllDigits(two) && |two| == 2 && Value(two) == cents
  {
    var tens, ones := Shown(cents / 10), Shown(cents % 10);
    assert |tens| == 1 && |ones| == 1;
    ValueOfConcat(tens, ones);
    assert Pow10(1) == 10;
  }

  lemma PrintedIsWellFormed(minor: nat)
    ensures TwoPlaces(minor).WellFormed() && FloorOfHundredths(TwoPlaces(minor)) == minor
  {
    ShownHundredths(minor % 100);
    HundredthsOf(TwoPlaces(minor), minor);
  }

  lemma HundredthsOf(d: Decimal, minor: nat)
    requires d.WellFormed() && d.fraction.Some? && |d.fraction.value| == 2
    requires Value(d.whole) == minor / 100 && Value(d.fraction.value) == minor % 100
    ensures FloorOfHundredths(d) == minor
  {
    assert Pow10(1) == 10 && Pow10(2) == 100;
    assert d.Numerator() == minor;
  }

  lemma ParseUndoesPrint(minor: nat)
    requires minor <= U128_MAX
    ensures MinorUnits(PrintMinorUnits(minor), 2) == Ok(minor)
  {
    PrintedIsWellFormed(minor);
    ParsesToFloorOfHundredths(TwoPlaces(minor), "", "");
    var text := PrintMinorUnits(minor);
    assert "" + text + "" == text;
  }

  // ---------- lovelace ----------

  const LOVELACE_PER_ADA: nat := 1_000_000

  datatype RateError = ZeroRate | ProductOverflow | RoundsToZero | ExceedsU64

  /** Fiat minor units to lovelace at `rate` minor units per ADA, in integers. */
  function FiatToLovelace(net: nat, rate: nat): Result<nat, RateError> {
    if rate == 0 then Err(ZeroRate)
    else if net * LOVELACE_PER_ADA > U128_MAX then Err(ProductOverflow)
    else
      var lovelace := net * LOVELACE_PER_ADA / rate;
      if lovelace == 0 then Err(RoundsToZero)
      else if lovelace > U64_MAX then Err(ExceedsU64)
      else Ok(lovelace)
  }

  /** The transfer is the largest whole number of lovelace worth no more than the net, and sizing
      succeeds exactly when that number is positive and every intermediate fits its word. */
  lemma LovelaceIsTheFloor(net: nat, rate: nat, lovelace: nat)
    ensures FiatToLovelace(net, rate) == Ok(lovelace)
       <==> && net * LOVELACE_PER_ADA <= U128_MAX
            && 0 < lovelace <= U64_MAX
            && lovelace * rate <= net * LOVELACE_PER_ADA < (lovelace + 1) * rate
  {
    var n := net * LOVELACE_PER_ADA;
    if rate != 0 && lovelace * rate <= n < (lovelace + 1) * rate {
      FloorIsUnique(n, rate, lovelace);
    }
    if rate != 0 {
      var q := n / rate;
      assert q * rate <= n < (q + 1) * rate;
    }
  }

  lemma LovelaceIsMonotone(small: nat, large: nat, rate: nat)
    requires small <= large
    requires FiatToLovelace(small, rate).Ok? && FiatToLovelace(large, rate).Ok?
    ensures FiatToLovelace(small, rate).value <= FiatToLovelace(large, rate).value
  {
    var a, b := FiatToLovelace(small, rate).value, FiatToLovelace(large, rate).value;
    LovelaceIsTheFloor(small, rate, a);
    LovelaceIsTheFloor(large, rate, b);
    CancelLess(a, b + 1, rate);
  }

  function Sum(parts: seq<nat>): nat {
    if parts == [] then 0 else Sum(parts[..|parts| - 1]) + parts[|parts| - 1]
  }

  ghost predicate AllSettle(parts: seq<nat>, rate: nat) {
    forall i :: 0 <= i < |parts| ==> FiatToLovelace(parts[i], rate).Ok?
  }

  function LovelaceOfParts(parts: seq<nat>, rate: nat): nat
    requires AllSettle(parts, rate)
  {
    if parts == [] then 0
    else LovelaceOfParts(parts[..|parts| - 1], rate) + FiatToLovelace(parts[|parts| - 1], rate).value
  }

  lemma {:induction false} PartsAreSandwiched(parts: seq<nat>, rate: nat)
    requires AllSettle(parts, rate)
    ensures LovelaceOfParts(parts, rate) * rate <= Sum(parts) * LOVELACE_PER_ADA
    ensures parts != [] ==> Sum(parts) * LOVELACE_PER_ADA < (LovelaceOfParts(parts, rate) + |parts|) * rate
  {
    if parts != [] {
      var init, last := parts[..|parts| - 1], parts[|parts| - 1];
      PartsAreSandwiched(init, rate);
      var l, t := LovelaceOfParts(init, rate), FiatToLovelace(last, rate).value;
      LovelaceIsTheFloor(last, rate, t);
      assert (l + t) * rate == l * rate + t * rate;
      assert (l + t + |parts|) * rate == (l + |init|) * rate + (t + 1) * rate;
    }
  }

  /** Paying a net in m settleable parts never overpays and loses at most m - 1 lovelace. */
  lemma SplittingLosesLessThanOneLovelacePerPart(parts: seq<nat>, rate: nat)
    requires parts != [] && AllSettle(parts, rate)
    requires FiatToLovelace(Sum(parts), rate).Ok?
    ensures var whole := FiatToLovelace(Sum(parts), rate).value;
            LovelaceOfParts(parts, rate) <= whole <= LovelaceOfParts(parts, rate) + |parts| - 1
  {
    PartsAreSandwiched(parts, rate);
    var whole, split := FiatToLovelace(Sum(parts), rate).value, LovelaceOfParts(parts, rate);
    LovelaceIsTheFloor(Sum(parts), rate, whole);
    CancelLess(split, whole + 1, rate);
    CancelLess(whole, split + |parts|, rate);
  }
}
