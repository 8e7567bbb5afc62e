/** The Gregorian conversion in `now_rfc3339`, against counting days one at a time. */
module Calendar {

  datatype Date = Date(year: nat, month: nat, day: nat)

  // ── The naive calendar: appendix C and section 5.7 of RFC 3339 ────────────────

  predicate Leap(year: nat) {
    year % 4 == 0 && (year % 100 != 0 || year % 400 == 0)
  }

  function MonthLength(year: nat, month: nat): nat {
    if month == 2 then (if Leap(year) then 29 else 28)
    else if month == 4 || month == 6 || month == 9 || month == 11 then 30
    else 31
  }

  predicate ValidDate(d: Date) {
    1 <= d.month <= 12 && 1 <= d.day <= MonthLength(d.year, d.month)
  }

  function NextDay(d: Date): Date {
    if d.day < MonthLength(d.year, d.month) then Date(d.year, d.month, d.day + 1)
    else if d.month < 12 then Date(d.year, d.month + 1, 1)
    else Date(d.year + 1, 1, 1)
  }

  /** `n` days after 1970-01-01, by counting. */
  function DateAfter(n: nat): Date {
    if n == 0 then Date(1970, 1, 1) else NextDay(DateAfter(n - 1))
  }

  // ── The closed form ───────────────────────────────────────────────────────────

  /** Year of the 400-year era, from the day of the era. */
  function YearOfEra(doe: nat): nat
    requires doe < 146097
  {
    (doe - doe / 1460 + doe / 36524 - doe / 146096) / 365
  }

  /** The conversion as the source writes it; every intermediate value is a `u64` there and a
      `nat` here, so no subtraction goes below zero. */
  function Civil(days: nat): Date {
    var z := days + 719468;
    var era := z / 146097;
    var doe := z % 146097;
    var yoe := YearOfEra(doe);
    var y := yoe + era * 400;
    YearOfEraExact(doe);
    var doy: nat := doe - (365 * yoe + yoe / 4 - yoe / 100);
    var mp := (5 * doy + 2) / 153;
    MonthBounds(doy);
    var day: nat := doy - (153 * mp + 2) / 5 + 1;
    var month: nat := if mp < 10 then mp + 3 else mp - 9;
    var year := if month <= 2 then y + 1 else y;
    Date(year, month, day)
  }

  // ── Years that start on the first of March ────────────────────────────────────

  /** Days before the March-based year `y`, counted from 0000-03-01. */
  function MarchStart(y: nat): nat {
    if y == 0 then 0 else MarchStart(y - 1) + MarchLength(y - 1)
  }

  function MarchLength(y: nat): nat {
    if Leap(y + 1) then 366 else 365
  }

  /** A year number as its 400-, 100-, 4- and 1-year places. */
  function YearAt(e: nat, c: nat, q: nat, m: nat): nat {
    400 * e + 100 * c + 4 * q + m
  }

  predicate Places(c: nat, q: nat, m: nat) {
    c < 4 && q < 25 && m < 4
  }

  lemma YearPlaces(y: nat) returns (e: nat, c: nat, q: nat, m: nat)
    ensures Places(c, q, m) && y == YearAt(e, c, q, m)
    ensures y < 400 ==> e == 0
  {
    e := y / 400;
    var r := y % 400;
    c := r / 100;
    var s := r % 100;
    q, m := s / 4, s % 4;
  }

  lemma LeapAt(e: nat, c: nat, q: nat, m: nat)
    requires Places(c, q, m)
    ensures Leap(YearAt(e, c, q, m) + 1) <==> LengthAt(c, q, m) == 366
  {
    var next := YearAt(e, c, q, m) + 1;
    assert next == 4 * (100 * e + 25 * c + q) + (m + 1);
    assert next == 100 * (4 * e + c) + (4 * q + m + 1);
    assert next == 400 * e + (100 * c + 4 * q + m + 1);
    By4(next, 100 * e + 25 * c + q, m + 1);
    By100(next, 4 * e + c, 4 * q + m + 1);
    By400(next, e, 100 * c + 4 * q + m + 1);
  }

  lemma By4(x: nat, k: nat, r: nat)
    requires x == 4 * k + r && 1 <= r <= 4
    ensures x % 4 == 0 <==> r == 4
  {}

  lemma By100(x: nat, k: nat, r: nat)
    requires x == 100 * k + r && 1 <= r <= 100
    ensures x % 100 == 0 <==> r == 100
  {}

  lemma By400(x: nat, k: nat, r: nat)
    requires x == 400 * k + r && 1 <= r <= 400
    ensures x % 400 == 0 <==> r == 400
  {}

  function LengthAt(c: nat, q: nat, m: nat): nat {
    if m == 3 && (q < 24 || c == 3) then 366 else 365
  }

  lemma MarchLengthAt(e: nat, c: nat, q: nat, m: nat)
    requires Places(c, q, m)
    ensures MarchLength(YearAt(e, c, q, m)) == LengthAt(c, q, m)
  {
    LeapAt(e, c, q, m);
  }

  lemma {:induction false} MarchStartAt(e: nat, c: nat, q: nat, m: nat)
    requires Places(c, q, m)
    ensures MarchStart(YearAt(e, c, q, m)) == 146097 * e + 36524 * c + 1461 * q + 365 * m
    decreases e, c, q, m
  {
    hide Leap;
    if m > 0 {
      MarchStartAt(e, c, q, m - 1);
      LeapAt(e, c, q, m - 1);
    } else if q > 0 {
      MarchStartAt(e, c, q - 1, 3);
      LeapAt(e, c, q - 1, 3);
    } else if c > 0 {
      MarchStartAt(e, c - 1, 24, 3);
      LeapAt(e, c - 1, 24, 3);
    } else if e > 0 {
      MarchStartAt(e - 1, 3, 24, 3);
      LeapAt(e - 1, 3, 24, 3);
    }
  }

  lemma PlacesOf(e: nat, c: nat, q: nat, m: nat)
    requires Places(c, q, m)
    ensures var y := YearAt(e, c, q, m);
      y / 4 == 100 * e + 25 * c + q && y / 100 == 4 * e + c && y / 400 == e
  {}

  /** The usual closed form of the number of days before a year. */
  lemma MarchStartClosed(y: nat)
    ensures MarchStart(y) == 365 * y + y / 4 - y / 100 + y / 400
  {
    hide MarchStart, Leap;
    var e, c, q, m := YearPlaces(y);
    MarchStartAt(e, c, q, m);
    PlacesOf(e, c, q, m);
  }

  /** Within an era: which year a day belongs to. */
  lemma EraDivision(c: nat, q: nat, m: nat, doy: nat)
    requires Places(c, q, m) && doy < LengthAt(c, q, m)
    ensures var doe := 36524 * c + 1461 * q + 365 * m + doy;
      doe < 146097 && YearOfEra(doe) == 100 * c + 4 * q + m
  {
    var doe := 36524 * c + 1461 * q + 365 * m + doy;
    var rest := 24 * c + q + 365 * m + doy;
    var k := if rest >= 1460 then 1 else 0;
    var n := 100 * c + 4 * q + m;
    assert doe / 1460 == 25 * c + q + k by { Divides1460(25 * c + q + k, rest - 1460 * k); }
    assert doe / 36524 - doe / 146096 == c by { Centuries(c, 1461 * q + 365 * m + doy); }
    assert doe - doe / 1460 + doe / 36524 - doe / 146096 == 365 * n + (doy - k);
    Divides365(n, doy - k);
  }

  lemma Divides1460(k: nat, r: nat)
    requires r < 1460
    ensures (1460 * k + r) / 1460 == k
  {}

  lemma Divides365(k: nat, r: nat)
    requires r < 365
    ensures (365 * k + r) / 365 == k
  {}

  lemma Centuries(c: nat, r: nat)
    requires c < 4 && (r < 36524 || (c == 3 && r == 36524))
    ensures (36524 * c + r) / 36524 - (36524 * c + r) / 146096 == c
  {}

  lemma {:induction false} MarchYearExists(doe: nat, bound: nat) returns (y: nat)
    requires doe < MarchStart(bound)
    ensures y < bound && MarchStart(y) <= doe < MarchStart(y) + MarchLength(y)
    decreases bound
  {
    if bound == 0 || MarchStart(bound - 1) <= doe {
      y := bound - 1;
    } else {
      y := MarchYearExists(doe, bound - 1);
    }
  }

  lemma EraPlaces(doe: nat) returns (c: nat, q: nat, m: nat)
    requires doe < 146097
    ensures Places(c, q, m)
    ensures var y := YearAt(0, c, q, m); y < 400 && MarchStart(y) <= doe < MarchStart(y) + MarchLength(y)
  {
    MarchStartAt(1, 0, 0, 0);
    var y := MarchYearExists(doe, 400);
    var e;
    e, c, q, m := YearPlaces(y);
  }

  lemma EraYearAt(c: nat, q: nat, m: nat, doe: nat)
    requires Places(c, q, m) && var y := YearAt(0, c, q, m); MarchStart(y) <= doe < MarchStart(y) + MarchLength(y)
    ensures doe < 146097 && YearOfEra(doe) == YearAt(0, c, q, m)
  {
    MarchStartAt(0, c, q, m);
    MarchLengthAt(0, c, q, m);
    EraDivision(c, q, m, doe - MarchStart(YearAt(0, c, q, m)));
  }

  lemma EraStart(y: nat)
    requires y < 400
    ensures MarchStart(y) == 365 * y + y / 4 - y / 100
  {
    MarchStartClosed(y);
  }

  lemma YearOfEraExact(doe: nat)
    requires doe < 146097
    ensures YearOfEra(doe) < 400
    ensures var yoe := YearOfEra(doe);
      MarchStart(yoe) == 365 * yoe + yoe / 4 - yoe / 100 <= doe < MarchStart(yoe) + MarchLength(yoe)
  {
    var c, q, m := EraPlaces(doe);
    EraYearAt(c, q, m, doe);
    EraStart(YearAt(0, c, q, m));
  }

  // ── Months of a March-based year ──────────────────────────────────────────────

  function MonthStart(mp: nat): nat {
    (153 * mp + 2) / 5
  }

  lemma MonthBounds(doy: nat)
    requires doy < 366
    ensures var mp := (5 * doy + 2) / 153; mp <= 11 && MonthStart(mp) <= doy < MonthStart(mp + 1)
  {}

  /** Position `doy` of the March-based year `y`, as a date. */
  function MarchDate(y: nat, doy: nat): Date
    requires doy < 366
  {
    MonthBounds(doy);
    var mp := (5 * doy + 2) / 153;
    var month := if mp < 10 then mp + 3 else mp - 9;
    Date(if month <= 2 then y + 1 else y, month, doy - MonthStart(mp) + 1)
  }

  lemma MarchMonths(mp: nat)
    requires mp <= 11
    ensures MonthStart(0) == 0 && MonthStart(11) == 337
    ensures mp < 11 ==> MonthStart(mp + 1) == MonthStart(mp) + (if mp in {1, 3, 6, 8} then 30 else 31)
  {}

  lemma MarchDateNext(y: nat, doy: nat)
    requires doy < MarchLength(y)
    ensures ValidDate(MarchDate(y, doy))
    ensures NextDay(MarchDate(y, doy)) ==
      if doy + 1 < MarchLength(y) then MarchDate(y, doy + 1) else MarchDate(y + 1, 0)
  {
    MonthBounds(doy);
    var mp := (5 * doy + 2) / 153;
    MarchMonths(mp);
    if doy + 1 < MarchLength(y) {
      MonthBounds(doy + 1);
      assert (5 * (doy + 1) + 2) / 153 == if doy + 1 < MonthStart(mp + 1) then mp else mp + 1;
    }
  }

  // ── The two agree ─────────────────────────────────────────────────────────────

  lemma EraQuotient(e: nat, r: nat)
    requires r < 146097
    ensures (146097 * e + r) / 146097 == e && (146097 * e + r) % 146097 == r
  {}

  /** The closed form, given the era and the day of the era. */
  lemma CivilInEra(days: nat, era: nat, doe: nat)
    requires doe < 146097 && days + 719468 == 146097 * era + doe
    ensures YearOfEra(doe) < 400 && 0 <= doe - MarchStart(YearOfEra(doe)) < 366
    ensures Civil(days) == MarchDate(YearOfEra(doe) + era * 400, doe - MarchStart(YearOfEra(doe)))
  {
    hide YearOfEra, Leap, MarchStart;
    YearOfEraExact(doe);
    EraQuotient(era, doe);
  }

  lemma CivilAtPlaces(e: nat, c: nat, q: nat, m: nat, doy: nat, days: nat)
    requires Places(c, q, m) && doy < LengthAt(c, q, m)
    requires days + 719468 == 146097 * e + 36524 * c + 1461 * q + 365 * m + doy
    ensures Civil(days) == MarchDate(YearAt(e, c, q, m), doy)
  {
    hide Civil, MarchDate, MarchStart;
    EraDivision(c, q, m, doy);
    MarchStartAt(0, c, q, m);
    CivilInEra(days, e, 36524 * c + 1461 * q + 365 * m + doy);
  }

  lemma CivilAt(y: nat, doy: nat, days: nat)
    requires doy < MarchLength(y) && days + 719468 == MarchStart(y) + doy
    ensures Civil(days) == MarchDate(y, doy)
  {
    var e, c, q, m := YearPlaces(y);
    MarchStartAt(e, c, q, m);
    MarchLengthAt(e, c, q, m);
    CivilAtPlaces(e, c, q, m, doy, days);
  }

  lemma CivilMarch(days: nat) returns (y: nat, doy: nat)
    ensures doy < MarchLength(y) && days + 719468 == MarchStart(y) + doy
    ensures Civil(days) == MarchDate(y, doy)
  {
    var z := days + 719468;
    MarchStartClosed(z + 1);
    y := MarchYearExists(z, z + 1);
    doy := z - MarchStart(y);
    CivilAt(y, doy, days);
  }

  lemma YearLengthPositive(y: nat)
    ensures 0 < MarchLength(y)
  {}

  lemma CivilNext(n: nat)
    ensures Civil(n + 1) == NextDay(Civil(n)) && ValidDate(Civil(n))
  {
    hide Civil, MarchDate, NextDay, ValidDate, MarchLength;
    var y, doy := CivilMarch(n);
    MarchDateNext(y, doy);
    YearLengthPositive(y + 1);
    if doy + 1 < MarchLength(y) {
      CivilAt(y, doy + 1, n + 1);
    } else {
      CivilAt(y + 1, 0, n + 1);
    }
  }

  lemma CivilEpoch()
    ensures Civil(0) == Date(1970, 1, 1)
  {
    MarchStartAt(4, 3, 17, 1);
    LeapAt(4, 3, 17, 1);
    CivilAt(1969, 306, 0);
  }

  /** For every day number, the closed form is that many next-days after 1970-01-01, and the
      date it yields is a real one. */
  lemma {:induction false} CivilCountsDays(n: nat)
    ensures Civil(n) == DateAfter(n)
    ensures ValidDate(Civil(n))
  {
    CivilNext(n);
    if n == 0 {
      CivilEpoch();
    } else {
      CivilCountsDays(n - 1);
      CivilNext(n - 1);
    }
  }

  // ── From a date back to its day number ────────────────────────────────────────

  function YearLength(year: nat): nat {
    if Leap(year) then 366 else 365
  }

  /** Days from 1970-01-01 to the first of January of `year`, a year at a time. */
  function DaysBeforeYear(year: nat): nat {
    if year <= 1970 then 0 else DaysBeforeYear(year - 1) + YearLength(year - 1)
  }

  function DaysBeforeMonth(year: nat, month: nat): nat {
    if month <= 1 then 0 else DaysBeforeMonth(year, month - 1) + MonthLength(year, month - 1)
  }

  function DayNumber(d: Date): int {
    DaysBeforeYear(d.year) + DaysBeforeMonth(d.year, d.month) + d.day - 1
  }

  lemma YearIsItsMonths(year: nat)
    ensures DaysBeforeMonth(year, 12) + MonthLength(year, 12) == YearLength(year)
  {
    var feb := MonthLength(year, 2);
    assert DaysBeforeMonth(year, 1) == 0;
    assert DaysBeforeMonth(year, 3) == 31 + feb;
    assert DaysBeforeMonth(year, 5) == 92 + feb;
    assert DaysBeforeMonth(year, 7) == 153 + feb;
    assert DaysBeforeMonth(year, 9) == 215 + feb;
    assert DaysBeforeMonth(year, 11) == 276 + feb;
  }

  lemma DayNumberNext(d: Date)
    requires ValidDate(d) && d.year >= 1970
    ensures DayNumber(NextDay(d)) == DayNumber(d) + 1 && ValidDate(NextDay(d))
  {
    if d.day == MonthLength(d.year, d.month) && d.month == 12 {
      YearIsItsMonths(d.year);
      assert DaysBeforeMonth(d.year + 1, 1) == 0;
    }
  }

  /** Adding up whole years and months recovers the day count: no two days share a date. */
  lemma {:induction false} DayNumberRecovers(n: nat)
    ensures DayNumber(DateAfter(n)) == n
    ensures ValidDate(DateAfter(n)) && DateAfter(n).year >= 1970
  {
    if n > 0 {
      DayNumberRecovers(n - 1);
      DayNumberNext(DateAfter(n - 1));
    }
  }

  predicate Before(a: Date, b: Date) {
    a.year < b.year || (a.year == b.year && (a.month < b.month || (a.month == b.month && a.day < b.day)))
  }

  lemma {:induction false} LaterDayLaterDate(m: nat, n: nat)
    requires m < n
    ensures Before(DateAfter(m), DateAfter(n))
  {
    if m < n - 1 { LaterDayLaterDate(m, n - 1); }
  }
}
