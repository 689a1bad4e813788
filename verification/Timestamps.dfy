/**
 The stored timestamps: UTC, cut to whole seconds, year-month-day and hour:minute:second in
 zero-padded fields (RFC 3339, section 5.6). The backoff compares them as texts (section 5.1), so
 their order must be the order of the instants. Seconds are counted from the start of year 0.
 */
module Timestamps {
  import opened Prelude
  import opened TextOrder

  predicate Leap(year: nat) {
    year % 4 == 0 && (year % 100 != 0 || year % 400 == 0)
  }

  function DaysInYear(year: nat): nat {
    if Leap(year) then 366 else 365
  }

  function DaysInMonth(year: nat, month: nat): nat {
    if month == 2 then (if Leap(year) then 29 else 28)
    else if month == 4 || month == 6 || month == 9 || month == 11 then 30 else 31
  }

  function DaysBeforeYear(year: nat): nat {
    if year == 0 then 0 else DaysBeforeYear(year - 1) + DaysInYear(year - 1)
  }

  function DaysBeforeMonth(year: nat, month: nat): nat {
    if month <= 1 then 0 else DaysBeforeMonth(year, month - 1) + DaysInMonth(year, month - 1)
  }

  datatype Civil = Civil(year: nat, month: nat, day: nat, hour: nat, minute: nat, second: nat) {
    predicate Valid() {
      && 1 <= month <= 12 && 1 <= day <= DaysInMonth(year, month)
      && hour < 24 && minute < 60 && second < 60
    }

    function DayNumber(): nat
      requires Valid()
    {
      DaysBeforeYear(year) + DaysBeforeMonth(year, month) + day - 1
    }

    function Seconds(): nat
      requires Valid()
    {
      ((DayNumber() * 24 + hour) * 60 + minute) * 60 + second
    }
  }

  // ---------- the calendar date of an instant ----------

  lemma MonthsFillTheYear(year: nat)
    ensures DaysBeforeMonth(year, 13) == DaysInYear(year)
  {
    var leap := if Leap(year) then 1 else 0;
    assert DaysBeforeMonth(year, 2) == 31;
    assert DaysBeforeMonth(year, 3) == 59 + leap;
    assert DaysBeforeMonth(year, 4) == 90 + leap;
    assert DaysBeforeMonth(year, 5) == 120 + leap;
    assert DaysBeforeMonth(year, 6) == 151 + leap;
    assert DaysBeforeMonth(year, 7) == 181 + leap;
    assert DaysBeforeMonth(year, 8) == 212 + leap;
    assert DaysBeforeMonth(year, 9) == 243 + leap;
    assert DaysBeforeMonth(year, 10) == 273 + leap;
    assert DaysBeforeMonth(year, 11) == 304 + leap;
    assert DaysBeforeMonth(year, 12) == 334 + leap;
  }

  /** The year, from `y` on, that holds this day. */
  function YearOf(day: nat, y: nat): (year: nat)
    requires DaysBeforeYear(y) <= day
    ensures DaysBeforeYear(year) <= day < DaysBeforeYear(year + 1)
    decreases day + 1 - DaysBeforeYear(y)
  {
    if day < DaysBeforeYear(y + 1) then y else YearOf(day, y + 1)
  }

  /** The month, from `m` on, that holds this day of the year. */
  function MonthOf(year: nat, day: nat, m: nat): (month: nat)
    requires 1 <= m <= 12 && DaysBeforeMonth(year, m) <= day < DaysInYear(year)
    ensures 1 <= month <= 12
    ensures DaysBeforeMonth(year, month) <= day < DaysBeforeMonth(year, month + 1)
    decreases 12 - m
  {
    MonthsFillTheYear(year);
    if day < DaysBeforeMonth(year, m + 1) then m else MonthOf(year, day, m + 1)
  }

  function DateOf(days: nat): (c: Civil)
    ensures c.Valid() && c.DayNumber() == days && c.hour == c.minute == c.second == 0
  {
    var year := YearOf(days, 0);
    var month := MonthOf(year, days - DaysBeforeYear(year), 1);
    Civil(year, month, days - DaysBeforeYear(year) - DaysBeforeMonth(year, month) + 1, 0, 0, 0)
  }

  function CivilOf(seconds: nat): (c: Civil)
    ensures c.Valid() && c.Seconds() == seconds
  {
    var minutes := seconds / 60;
    var hours := minutes / 60;
    DateOf(hours / 24).(hour := hours % 24, minute := minutes % 60, second := seconds % 60)
  }

  // ---------- dates compare field by field ----------

  predicate Earlier(a: Civil, b: Civil) {
    a.year < b.year || (a.year == b.year && (
      a.month < b.month || (a.month == b.month && (
        a.day < b.day || (a.day == b.day && (
          a.hour < b.hour || (a.hour == b.hour && (
            a.minute < b.minute || (a.minute == b.minute && a.second < b.second)))))))))
  }

  lemma {:induction false} YearsInOrder(y: nat, z: nat)
    requires y < z
    ensures DaysBeforeYear(y) + DaysInYear(y) <= DaysBeforeYear(z)
    decreases z
  {
    if y < z - 1 {
      YearsInOrder(y, z - 1);
    }
  }

  lemma {:induction false} MonthsInOrder(year: nat, m: nat, n: nat)
    requires 1 <= m < n <= 13
    ensures DaysBeforeMonth(year, m) + DaysInMonth(year, m) <= DaysBeforeMonth(year, n)
    decreases n
  {
    if m < n - 1 {
      MonthsInOrder(year, m, n - 1);
    }
  }

  lemma DayWithinYear(c: Civil)
    requires c.Valid()
    ensures DaysBeforeYear(c.year) <= c.DayNumber() < DaysBeforeYear(c.year) + DaysInYear(c.year)
  {
    MonthsFillTheYear(c.year);
    MonthsInOrder(c.year, c.month, 13);
  }

  lemma EarlierDay(a: Civil, b: Civil)
    requires a.Valid() && b.Valid()
    requires a.year < b.year || (a.year == b.year && (a.month < b.month || (a.month == b.month && a.day < b.day)))
    ensures a.DayNumber() < b.DayNumber()
  {
    if a.year < b.year {
      YearsInOrder(a.year, b.year);
      DayWithinYear(a);
      DayWithinYear(b);
    } else if a.month < b.month {
      MonthsInOrder(a.year, a.month, b.month);
    }
  }

  lemma EarlierMeansFewerSeconds(a: Civil, b: Civil)
    requires a.Valid() && b.Valid() && Earlier(a, b)
    ensures a.Seconds() < b.Seconds()
  {
    if (a.year, a.month, a.day) != (b.year, b.month, b.day) {
      EarlierDay(a, b);
    }
  }

  // ---------- the text ----------

  /** A year past 9999 is written with a sign and as many digits as it needs. */
  function YearText(year: nat): string {
    if year <= 9999 then Digits(year, 4) else "+" + Digits(year, DigitCount(year))
  }

  function DigitCount(n: nat): nat {
    if n < 10 then 1 else 1 + DigitCount(n / 10)
  }

  /** Date and time to the second, and what follows. */
  function DateTime(c: Civil, rest: string): string {
    YearText(c.year) + ("-" + (Digits(c.month, 2) + ("-" + (Digits(c.day, 2) + ("T" + (Digits(c.hour, 2) + (":"
    + (Digits(c.minute, 2) + (":" + (Digits(c.second, 2) + rest))))))))))
  }

  function Rfc3339(seconds: nat): string {
    DateTime(CivilOf(seconds), "Z")
  }

  /** One zero-padded field and what follows it. */
  lemma FieldDecides(m: nat, n: nat, width: nat, mark: string, b: string, d: string)
    requires m < Pow10(width) && n < Pow10(width)
    ensures TextLess(Digits(m, width) + (mark + b), Digits(n, width) + (mark + d))
            <==> m < n || (m == n && TextLess(b, d))
  {
    DigitsSortAsNumbers(m, n, width);
    FrontDecides(Digits(m, width), mark + b, Digits(n, width), mark + d);
    FrontDecides(mark, b, mark, d);
    TextLessIsTotal(mark, mark);
  }

  lemma TimeOfDaySorts(a: Civil, b: Civil, u: string, v: string, x: string, y: string)
    requires a.Valid() && b.Valid()
    requires x == Digits(a.hour, 2) + (":" + (Digits(a.minute, 2) + (":" + (Digits(a.second, 2) + u))))
    requires y == Digits(b.hour, 2) + (":" + (Digits(b.minute, 2) + (":" + (Digits(b.second, 2) + v))))
    ensures TextLess(x, y) <==>
            a.hour < b.hour || (a.hour == b.hour && (
              a.minute < b.minute || (a.minute == b.minute && (
                a.second < b.second || (a.second == b.second && TextLess(u, v))))))
  {
    var a2, b2 := Digits(a.second, 2) + u, Digits(b.second, 2) + v;
    var a1, b1 := Digits(a.minute, 2) + (":" + a2), Digits(b.minute, 2) + (":" + b2);
    assert Pow10(2) == 100;
    FieldDecides(a.hour, b.hour, 2, ":", a1, b1);
    FieldDecides(a.minute, b.minute, 2, ":", a2, b2);
    DigitsSortAsNumbers(a.second, b.second, 2);
    FrontDecides(Digits(a.second, 2), u, Digits(b.second, 2), v);
  }

  lemma TextsSortAsDates(a: Civil, b: Civil, u: string, v: string)
    requires a.Valid() && b.Valid() && a.year <= 9999 && b.year <= 9999
    ensures TextLess(DateTime(a, u), DateTime(b, v)) <==> Earlier(a, b) || (a == b && TextLess(u, v))
  {
    var x := Digits(a.hour, 2) + (":" + (Digits(a.minute, 2) + (":" + (Digits(a.second, 2) + u))));
    var y := Digits(b.hour, 2) + (":" + (Digits(b.minute, 2) + (":" + (Digits(b.second, 2) + v))));
    TimeOfDaySorts(a, b, u, v, x, y);
    assert Pow10(2) == 100;
    assert Pow10(4) == 10000;
    var a1, b1 := Digits(a.day, 2) + ("T" + x), Digits(b.day, 2) + ("T" + y);
    var a2, b2 := Digits(a.month, 2) + ("-" + a1), Digits(b.month, 2) + ("-" + b1);
    FieldDecides(a.day, b.day, 2, "T", x, y);
    FieldDecides(a.month, b.month, 2, "-", a1, b1);
    FieldDecides(a.year, b.year, 4, "-", a2, b2);
    assert DateTime(a, u) == Digits(a.year, 4) + ("-" + a2);
    assert DateTime(b, v) == Digits(b.year, 4) + ("-" + b2);
  }

  // ---------- texts sort as instants ----------

  predicate FourDigitYear(seconds: nat) {
    CivilOf(seconds).year <= 9999
  }

  lemma TextsSortAsInstants(s: nat, t: nat)
    requires FourDigitYear(s) && FourDigitYear(t)
    ensures TextLess(Rfc3339(s), Rfc3339(t)) <==> s < t
  {
    var a, b := CivilOf(s), CivilOf(t);
    TextsSortAsDates(a, b, "Z", "Z");
    TextLessIsTotal("Z", "Z");
    if Earlier(a, b) {
      EarlierMeansFewerSeconds(a, b);
    } else if Earlier(b, a) {
      EarlierMeansFewerSeconds(b, a);
    }
  }

  lemma EarlierInstantsHaveFourDigitYears(s: nat, t: nat)
    requires s <= t && FourDigitYear(t)
    ensures FourDigitYear(s)
  {
    if Earlier(CivilOf(t), CivilOf(s)) {
      EarlierMeansFewerSeconds(CivilOf(t), CivilOf(s));
    }
  }

  ghost predicate SortsUpTo(limit: nat) {
    forall s: nat, t: nat :: s < limit && t < limit ==> (TextLess(Rfc3339(s), Rfc3339(t)) <==> s < t)
  }

  /** The texts of the instants up to a limit sort as the instants exactly when none of them has a
      year past 9999. */
  lemma TextsSortExactlyInFourDigitYears(limit: nat)
    ensures SortsUpTo(limit) <==> forall s: nat :: s < limit ==> FourDigitYear(s)
  {
    if forall s: nat :: s < limit ==> FourDigitYear(s) {
      forall s: nat, t: nat | s < limit && t < limit
        ensures TextLess(Rfc3339(s), Rfc3339(t)) <==> s < t
      {
        TextsSortAsInstants(s, t);
      }
    } else {
      var t: nat :| t < limit && !FourDigitYear(t);
      var s: nat :| s < 86400;
      FirstDayIsInYearZero(s);
      FirstDayIsEarlier(s, t);
      FiveDigitTextSortsFirst(s, t);
    }
  }

  lemma {:induction false} YearsTakeDays(year: nat)
    ensures DaysBeforeYear(year) >= year
  {
    if year > 0 {
      YearsTakeDays(year - 1);
    }
  }

  lemma FirstDayIsInYearZero(s: nat)
    requires s < 86400
    ensures FourDigitYear(s)
  {
    var c := CivilOf(s);
    YearsTakeDays(c.year);
    DayWithinYear(c);
  }

  lemma FirstDayIsEarlier(s: nat, t: nat)
    requires s < 86400 && !FourDigitYear(t)
    ensures s < t
  {
    if t < 86400 {
      FirstDayIsInYearZero(t);
    }
  }

  lemma FiveDigitTextSortsFirst(s: nat, t: nat)
    requires FourDigitYear(s) && !FourDigitYear(t)
    ensures TextLess(Rfc3339(t), Rfc3339(s))
  {
    StartsWithADigit(CivilOf(s).year, 4);
    FirstCharacter(CivilOf(s));
    FirstCharacter(CivilOf(t));
  }

  lemma FirstCharacter(c: Civil)
    requires YearText(c.year) != ""
    ensures DateTime(c, "Z") != "" && DateTime(c, "Z")[0] == YearText(c.year)[0]
  {
  }

  lemma {:induction false} StartsWithADigit(n: nat, width: nat)
    requires width > 0
    ensures Digits(n, width)[0] >= '0'
  {
    if width > 1 {
      StartsWithADigit(n / 10, width - 1);
    }
  }

  // ---------- texts with a fraction ----------

  /** The settlement table's stamps carry a fraction of no, three, six or nine digits, as few as say the
      nanosecond, and the offset written out. */
  const OFFSET := "+00:00"

  function ThirdGroup(r: nat): string {
    if r == 0 then OFFSET else Digits(r, 3) + OFFSET
  }

  function SecondGroup(q: nat, r: nat): string {
    if q == 0 && r == 0 then OFFSET else Digits(q, 3) + ThirdGroup(r)
  }

  function FirstGroup(p: nat, q: nat, r: nat): string {
    if p == 0 && q == 0 && r == 0 then OFFSET else "." + (Digits(p, 3) + SecondGroup(q, r))
  }

  function Fraction(nanos: nat): string {
    FirstGroup(nanos / 1000 / 1000, nanos / 1000 % 1000, nanos % 1000)
  }

  function StampText(nanos: nat): string {
    DateTime(CivilOf(nanos / NANOS), Fraction(nanos % NANOS))
  }

  /** The offset sorts before any digit. */
  lemma OffsetSortsFirst(n: nat, rest: string)
    ensures TextLess(OFFSET, Digits(n, 3) + rest) && !TextLess(Digits(n, 3) + rest, OFFSET)
  {
    StartsWithADigit(n, 3);
    assert (Digits(n, 3) + rest)[0] == Digits(n, 3)[0];
  }

  lemma ThirdGroupsSort(r: nat, s: nat)
    requires r < 1000 && s < 1000
    ensures TextLess(ThirdGroup(r), ThirdGroup(s)) <==> r < s
  {
    OffsetSortsFirst(r, OFFSET);
    OffsetSortsFirst(s, OFFSET);
    TextLessIsTotal(OFFSET, OFFSET);
    assert Pow10(3) == 1000;
    DigitsSortAsNumbers(r, s, 3);
    FrontDecides(Digits(r, 3), OFFSET, Digits(s, 3), OFFSET);
  }

  lemma SecondGroupsSort(q: nat, r: nat, p: nat, s: nat)
    requires q < 1000 && r < 1000 && p < 1000 && s < 1000
    ensures TextLess(SecondGroup(q, r), SecondGroup(p, s)) <==> q < p || (q == p && r < s)
  {
    OffsetSortsFirst(q, ThirdGroup(r));
    OffsetSortsFirst(p, ThirdGroup(s));
    TextLessIsTotal(OFFSET, OFFSET);
    ThirdGroupsSort(r, s);
    assert Pow10(3) == 1000;
    DigitsSortAsNumbers(q, p, 3);
    FrontDecides(Digits(q, 3), ThirdGroup(r), Digits(p, 3), ThirdGroup(s));
  }

  predicate GroupsLess(p: nat, q: nat, r: nat, p': nat, q': nat, r': nat) {
    p < p' || (p == p' && (q < q' || (q == q' && r < r')))
  }

  lemma FirstGroupsSort(p: nat, q: nat, r: nat, p': nat, q': nat, r': nat)
    requires p < 1000 && q < 1000 && r < 1000 && p' < 1000 && q' < 1000 && r' < 1000
    ensures TextLess(FirstGroup(p, q, r), FirstGroup(p', q', r')) <==> GroupsLess(p, q, r, p', q', r')
  {
    var x, y := Digits(p, 3) + SecondGroup(q, r), Digits(p', 3) + SecondGroup(q', r');
    SecondGroupsSort(q, r, q', r');
    assert Pow10(3) == 1000;
    DigitsSortAsNumbers(p, p', 3);
    FrontDecides(Digits(p, 3), SecondGroup(q, r), Digits(p', 3), SecondGroup(q', r'));
    assert ("." + x)[1..] == x && ("." + y)[1..] == y;
    TextLessIsTotal(OFFSET, OFFSET);
  }

  lemma GroupsSortAsNumbers(m: nat, n: nat)
    requires m < NANOS && n < NANOS
    ensures m / 1000 / 1000 < 1000 && n / 1000 / 1000 < 1000
    ensures GroupsLess(m / 1000 / 1000, m / 1000 % 1000, m % 1000, n / 1000 / 1000, n / 1000 % 1000, n % 1000) <==> m < n
  {
  }

  lemma FractionsSort(m: nat, n: nat)
    requires m < NANOS && n < NANOS
    ensures TextLess(Fraction(m), Fraction(n)) <==> m < n
  {
    GroupsSortAsNumbers(m, n);
    FirstGroupsSort(m / 1000 / 1000, m / 1000 % 1000, m % 1000, n / 1000 / 1000, n / 1000 % 1000, n % 1000);
  }

  /** They too sort as their instants. */
  lemma StampTextsSortAsInstants(s: nat, t: nat)
    requires FourDigitYear(s / NANOS) && FourDigitYear(t / NANOS)
    ensures TextLess(StampText(s), StampText(t)) <==> s < t
  {
    var a, b := CivilOf(s / NANOS), CivilOf(t / NANOS);
    TextsSortAsDates(a, b, Fraction(s % NANOS), Fraction(t % NANOS));
    FractionsSort(s % NANOS, t % NANOS);
    if Earlier(a, b) {
      EarlierMeansFewerSeconds(a, b);
    } else if Earlier(b, a) {
      EarlierMeansFewerSeconds(b, a);
    }
  }
}
