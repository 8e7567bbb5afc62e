/** The timestamp string of `now_rfc3339`: it orders like time (section 5.1 of RFC 3339) and
    keeps all of it. */
module Timestamp {
  import opened Text
  import opened StringOrder
  import opened Recipe
  import opened RecipeSpec
  import opened RecipeCanon
  import opened Calendar

  /** Seconds since the epoch, split as the source splits them. */
  datatype Clock = Clock(date: Date, hour: nat, minute: nat, second: nat)

  function ClockOf(secs: nat): Clock {
    Clock(Civil(secs / 86400), secs / 3600 % 24, secs / 60 % 60, secs % 60)
  }

  // ── Zero-padded decimals ──────────────────────────────────────────────────────

  function Zeros(n: nat): string {
    seq(n, _ => '0')
  }

  /** `{n:0width}`: at least `width` characters, padded with zeros on the left. */
  function Padded(n: nat, width: nat): string {
    var s := Decimal(n);
    if |s| < width then Zeros(width - |s|) + s else s
  }

  function Pow10(k: nat): nat {
    if k == 0 then 1 else 10 * Pow10(k - 1)
  }

  /** `n` in exactly `width` digits. */
  function Fixed(n: nat, width: nat): string
    requires n < Pow10(width)
  {
    if width == 0 then "" else Fixed(n / 10, width - 1) + [Digit(n % 10)]
  }

  lemma {:induction false} FixedLength(n: nat, width: nat)
    requires n < Pow10(width)
    ensures |Fixed(n, width)| == width
  {
    if width > 0 { FixedLength(n / 10, width - 1); }
  }

  lemma {:induction false} FixedZero(width: nat)
    ensures 0 < Pow10(width) && Fixed(0, width) == Zeros(width)
  {
    if width > 0 { FixedZero(width - 1); }
  }

  lemma {:induction false} PaddedIsFixed(n: nat, width: nat)
    requires n < Pow10(width) && width > 0
    ensures Padded(n, width) == Fixed(n, width)
  {
    if n < 10 {
      FixedZero(width - 1);
      assert n / 10 == 0 && n % 10 == n;
    } else {
      assert width > 1;
      PaddedIsFixed(n / 10, width - 1);
      var s, t := Decimal(n), Decimal(n / 10);
      assert s == t + [Digit(n % 10)];
      if |t| < width - 1 {
        assert Zeros(width - |s|) + s == Zeros(width - 1 - |t|) + t + [Digit(n % 10)];
      }
    }
  }

  // ── Strictly smaller strings ──────────────────────────────────────────────────

  /** `a` comes first because of a character, not because it is shorter: appending anything to
      either keeps the order. */
  predicate Ahead(a: string, b: string) {
    a != "" && b != "" && (a[0] < b[0] || (a[0] == b[0] && Ahead(a[1..], b[1..])))
  }

  lemma {:induction false} AheadExtends(a: string, b: string, s: string, t: string)
    requires Ahead(a, b)
    ensures Ahead(a + s, b + t)
  {
    assert (a + s)[1..] == a[1..] + s && (b + t)[1..] == b[1..] + t;
    if a[0] == b[0] { AheadExtends(a[1..], b[1..], s, t); }
  }

  lemma {:induction false} AheadAfter(p: string, a: string, b: string)
    requires Ahead(a, b)
    ensures Ahead(p + a, p + b)
  {
    if p == "" {
      assert p + a == a && p + b == b;
    } else {
      AheadAfter(p[1..], a, b);
      assert (p + a)[1..] == p[1..] + a && (p + b)[1..] == p[1..] + b;
    }
  }

  lemma {:induction false} AheadIsLess(a: string, b: string)
    requires Ahead(a, b)
    ensures LexLe(a, b) && a != b
  {
    if a[0] == b[0] { AheadIsLess(a[1..], b[1..]); }
  }

  lemma {:induction false} FixedOrdered(m: nat, n: nat, width: nat)
    requires m < n < Pow10(width)
    ensures Ahead(Fixed(m, width), Fixed(n, width))
  {
    if width > 0 {
      FixedLength(m / 10, width - 1);
      FixedLength(n / 10, width - 1);
      if m / 10 < n / 10 {
        FixedOrdered(m / 10, n / 10, width - 1);
        AheadExtends(Fixed(m / 10, width - 1), Fixed(n / 10, width - 1), [Digit(m % 10)], [Digit(n % 10)]);
      } else {
        assert m / 10 == n / 10 && m % 10 < n % 10;
        AheadAfter(Fixed(m / 10, width - 1), [Digit(m % 10)], [Digit(n % 10)]);
      }
    }
  }

  // ── The formatted string ──────────────────────────────────────────────────────

  /** A field of the timestamp: its value, its width, and the text that follows it. */
  datatype Field = Field(value: nat, width: nat, after: string)

  function Fields(secs: nat, micros: nat): seq<Field> {
    var c := ClockOf(secs);
    [Field(c.date.year, 4, "-"), Field(c.date.month, 2, "-"), Field(c.date.day, 2, "T"),
     Field(c.hour, 2, ":"), Field(c.minute, 2, ":"), Field(c.second, 2, "."), Field(micros, 6, "Z")]
  }

  function Write(fields: seq<Field>): string {
    if fields == [] then ""
    else Padded(fields[0].value, fields[0].width) + fields[0].after + Write(fields[1..])
  }

  function Rfc3339(secs: nat, micros: nat): string {
    Write(Fields(secs, micros))
  }

  predicate Fits(f: Field) {
    f.width > 0 && f.value < Pow10(f.width)
  }

  /** Field `k` is the first that differs, and it is smaller in `a`. */
  predicate FirstSmaller(a: seq<Field>, b: seq<Field>, k: nat) {
    k < |a| == |b| && a[k].value < b[k].value && forall j :: 0 <= j < k ==> a[j].value == b[j].value
  }

  lemma {:induction false} WriteOrdered(a: seq<Field>, b: seq<Field>, k: nat)
    requires FirstSmaller(a, b, k)
    requires forall i :: 0 <= i < |a| ==>
      Fits(a[i]) && Fits(b[i]) && a[i].width == b[i].width && a[i].after == b[i].after
    ensures Ahead(Write(a), Write(b))
  {
    var x, y := a[0], b[0];
    PaddedIsFixed(x.value, x.width);
    PaddedIsFixed(y.value, y.width);
    if k == 0 {
      FixedOrdered(x.value, y.value, x.width);
      AheadExtends(Padded(x.value, x.width), Padded(y.value, y.width), x.after, y.after);
      AheadExtends(Padded(x.value, x.width) + x.after, Padded(y.value, y.width) + y.after,
                   Write(a[1..]), Write(b[1..]));
    } else {
      WriteOrdered(a[1..], b[1..], k - 1);
      AheadAfter(Padded(x.value, x.width) + x.after, Write(a[1..]), Write(b[1..]));
    }
  }

  lemma Widths()
    ensures Pow10(2) == 100 && Pow10(4) == 10000 && Pow10(6) == 1_000_000
  {
    assert Pow10(3) == 1000;
    assert Pow10(5) == 100000;
  }

  lemma FieldsFit(secs: nat, micros: nat)
    requires micros < 1_000_000 && Civil(secs / 86400).year <= 9999
    ensures forall i :: 0 <= i < 7 ==> Fits(Fields(secs, micros)[i])
  {
    Widths();
    CivilCountsDays(secs / 86400);
  }

  // ── Time of day ───────────────────────────────────────────────────────────────

  lemma Quotients(k: nat, r: nat)
    ensures r < 86400 ==> (86400 * k + r) / 86400 == k
    ensures r < 3600 ==> (3600 * k + r) / 3600 == k
    ensures r < 60 ==> (60 * k + r) / 60 == k && (60 * k + r) % 60 == r
    ensures r < 24 ==> (24 * k + r) % 24 == r
  {}

  lemma TimeOfDayAt(days: nat, h: nat, m: nat, s: nat)
    requires h < 24 && m < 60 && s < 60
    ensures var secs := 86400 * days + 3600 * h + 60 * m + s;
      && secs / 86400 == days && secs / 3600 % 24 == h && secs / 60 % 60 == m && secs % 60 == s
  {
    Quotients(days, 3600 * h + 60 * m + s);
    Quotients(24 * days + h, 60 * m + s);
    Quotients(days, h);
    Quotients(60 * (24 * days + h) + m, s);
    Quotients(24 * days + h, m);
  }

  lemma TimeOfDay(secs: nat)
    ensures var c := ClockOf(secs);
      c.hour < 24 && c.minute < 60 && c.second < 60
      && secs == 86400 * (secs / 86400) + 3600 * c.hour + 60 * c.minute + c.second
  {
    hide Civil;
    var d, r := secs / 86400, secs % 86400;
    var h, rest := r / 3600, r % 3600;
    var m, s := rest / 60, rest % 60;
    assert secs == 86400 * d + (3600 * h + (60 * m + s));
    TimeOfDayAt(d, h, m, s);
  }

  /** The date and the time of day give back the exact second. */
  lemma SecondsRecovered(secs: nat)
    ensures var c := ClockOf(secs);
      secs == 86400 * DayNumber(c.date) + 3600 * c.hour + 60 * c.minute + c.second
  {
    TimeOfDay(secs);
    CivilCountsDays(secs / 86400);
    DayNumberRecovers(secs / 86400);
  }

  lemma LaterFields(s1: nat, u1: nat, s2: nat, u2: nat) returns (k: nat)
    requires s1 < s2 || (s1 == s2 && u1 < u2)
    ensures FirstSmaller(Fields(s1, u1), Fields(s2, u2), k)
  {
    hide Civil;
    TimeOfDay(s1);
    TimeOfDay(s2);
    var d1, d2 := s1 / 86400, s2 / 86400;
    CivilCountsDays(d1);
    CivilCountsDays(d2);
    if d1 < d2 { LaterDayLaterDate(d1, d2); }
    var a, b := ClockOf(s1), ClockOf(s2);
    k := if a.date.year < b.date.year then 0
      else if a.date.month < b.date.month then 1
      else if a.date.day < b.date.day then 2
      else if a.hour < b.hour then 3
      else if a.minute < b.minute then 4
      else if a.second < b.second then 5
      else 6;
  }

  lemma LaterYear(s1: nat, s2: nat)
    requires s1 <= s2
    ensures Civil(s1 / 86400).year <= Civil(s2 / 86400).year
  {
    hide Civil;
    var d1, d2 := s1 / 86400, s2 / 86400;
    CivilCountsDays(d1);
    CivilCountsDays(d2);
    if d1 < d2 { LaterDayLaterDate(d1, d2); }
  }

  /** A later instant always formats to a lexicographically larger string, as long as its year
      has four digits. */
  lemma TimestampsOrdered(s1: nat, u1: nat, s2: nat, u2: nat)
    requires s1 < s2 || (s1 == s2 && u1 < u2)
    requires u1 < 1_000_000 && u2 < 1_000_000 && Civil(s2 / 86400).year <= 9999
    ensures LexLe(Rfc3339(s1, u1), Rfc3339(s2, u2)) && Rfc3339(s1, u1) != Rfc3339(s2, u2)
  {
    hide Civil;
    var k := LaterFields(s1, u1, s2, u2);
    LaterYear(s1, s2);
    FieldsFit(s1, u1);
    FieldsFit(s2, u2);
    WriteOrdered(Fields(s1, u1), Fields(s2, u2), k);
    AheadIsLess(Rfc3339(s1, u1), Rfc3339(s2, u2));
  }

  lemma StartsWithYear(secs: nat, micros: nat)
    ensures Decimal(Civil(secs / 86400).year) != ""
    ensures Civil(secs / 86400).year >= 1000 ==>
      Rfc3339(secs, micros) != "" && Rfc3339(secs, micros)[0] == Decimal(Civil(secs / 86400).year)[0]
  {
    hide Civil;
    var year := Civil(secs / 86400).year;
    if year >= 1000 {
      assert |Decimal(year / 10)| >= 3 by { assert |Decimal(year / 100)| >= 2; }
    }
  }

  lemma YearTenThousand()
    ensures Civil(2932897) == Date(10000, 1, 1) && Civil(2932896) == Date(9999, 12, 31)
  {
    CivilAtPlaces(24, 3, 24, 3, 306, 2932897);
    CivilAtPlaces(24, 3, 24, 3, 305, 2932896);
  }

  lemma FirstDigits()
    ensures Decimal(10000)[0] == '1' && Decimal(9999)[0] == '9'
  {
    assert Decimal(1000) == Decimal(100) + ['0'];
    assert Decimal(999) == Decimal(99) + ['9'];
  }

  /** The four digits matter: the first second of the year 10000 formats to a smaller string
      than the last second of 9999. */
  lemma FiveDigitYearsSortFirst()
    ensures Ahead(Rfc3339(86400 * 2932897, 0), Rfc3339(86400 * 2932897 - 1, 0))
  {
    hide Civil, Rfc3339;
    var s := 86400 * 2932897;
    assert s / 86400 == 2932897 && (s - 1) / 86400 == 2932896;
    YearTenThousand();
    FirstDigits();
    StartsWithYear(s, 0);
    StartsWithYear(s - 1, 0);
  }

  // ── Exactly when the text order is that of time ───────────────────────────────

  predicate Earlier(s1: nat, u1: nat, s2: nat, u2: nat) {
    u1 < 1_000_000 && u2 < 1_000_000 && (s1 < s2 || (s1 == s2 && u1 < u2))
  }

  predicate TextBefore(a: string, b: string) {
    LexLe(a, b) && a != b
  }

  function YearOf(secs: nat): nat {
    Civil(secs / 86400).year
  }

  lemma {:induction false} NumeralOfZeros(k: nat, s: string)
    requires s == "" || AllDigits(s)
    ensures forall i :: 0 <= i < |Zeros(k) + s| ==> IsDigit((Zeros(k) + s)[i])
    ensures Numeral(Zeros(k) + s) == Numeral(s)
    decreases k + |s|
  {
    if s != "" {
      NumeralOfZeros(k, s[..|s| - 1]);
      assert (Zeros(k) + s)[..k + |s| - 1] == Zeros(k) + s[..|s| - 1];
    } else if k > 0 {
      NumeralOfZeros(k - 1, "");
      assert (Zeros(k) + "")[..k - 1] == Zeros(k - 1) + "";
    }
  }

  /** A padded number is made of digits and can be read back. */
  lemma PaddedReads(n: nat, width: nat)
    ensures AllDigits(Padded(n, width)) && Numeral(Padded(n, width)) == n
  {
    DecimalReads(n);
    var s := Decimal(n);
    if |s| < width { NumeralOfZeros(width - |s|, s); }
  }

  /** Digits with a `-` after them compare like the digits alone: `-` sorts before every digit,
      so the shorter of two that agree comes first either way. */
  lemma {:induction false} DashedCompare(a: string, b: string, s: string, t: string)
    requires a != b
    requires forall i :: 0 <= i < |a| ==> IsDigit(a[i])
    requires forall i :: 0 <= i < |b| ==> IsDigit(b[i])
    ensures if LexLe(a, b) then Ahead(a + "-" + s, b + "-" + t) else Ahead(b + "-" + t, a + "-" + s)
  {
    if a != "" && b != "" && a[0] == b[0] {
      assert a == [a[0]] + a[1..] && b == [b[0]] + b[1..];
      DashedCompare(a[1..], b[1..], s, t);
      assert (a + "-" + s)[1..] == a[1..] + "-" + s && (b + "-" + t)[1..] == b[1..] + "-" + t;
    }
  }

  lemma AheadIsBefore(a: string, b: string)
    requires Ahead(a, b)
    ensures TextBefore(a, b) && !TextBefore(b, a)
  {
    AheadIsLess(a, b);
    if LexLe(b, a) { LexAntisymmetric(a, b); }
  }

  /** The fields after the year always fit. */
  lemma TailFits(secs: nat, micros: nat)
    requires micros < 1_000_000
    ensures forall i :: 0 <= i < 6 ==> Fits(Fields(secs, micros)[1..][i])
  {
    hide Civil;
    Widths();
    CivilCountsDays(secs / 86400);
  }

  /** In the same year only fields of fixed width differ. */
  lemma SameYearOrdered(s1: nat, u1: nat, s2: nat, u2: nat)
    requires Earlier(s1, u1, s2, u2) && YearOf(s1) == YearOf(s2)
    ensures Ahead(Rfc3339(s1, u1), Rfc3339(s2, u2))
  {
    hide Civil, Padded, Fits;
    var k := LaterFields(s1, u1, s2, u2);
    var a, b := Fields(s1, u1), Fields(s2, u2);
    TailFits(s1, u1);
    TailFits(s2, u2);
    WriteOrdered(a[1..], b[1..], k - 1);
    AheadAfter(Padded(YearOf(s1), 4) + "-", Write(a[1..]), Write(b[1..]));
  }

  /** Exactly when a later instant has a larger text: when the text of its year is not smaller
      than that of the earlier one. */
  lemma TextOrderIsYearOrder(s1: nat, u1: nat, s2: nat, u2: nat)
    requires Earlier(s1, u1, s2, u2)
    ensures TextBefore(Rfc3339(s1, u1), Rfc3339(s2, u2)) <==> LexLe(Padded(YearOf(s1), 4), Padded(YearOf(s2), 4))
  {
    hide Civil, Padded;
    var p1, p2 := Padded(YearOf(s1), 4), Padded(YearOf(s2), 4);
    if YearOf(s1) == YearOf(s2) {
      SameYearOrdered(s1, u1, s2, u2);
      AheadIsBefore(Rfc3339(s1, u1), Rfc3339(s2, u2));
      LexReflexive(p1);
    } else {
      PaddedReads(YearOf(s1), 4);
      PaddedReads(YearOf(s2), 4);
      DashedCompare(p1, p2, Write(Fields(s1, u1)[1..]), Write(Fields(s2, u2)[1..]));
      if LexLe(p1, p2) {
        AheadIsBefore(Rfc3339(s1, u1), Rfc3339(s2, u2));
      } else {
        AheadIsBefore(Rfc3339(s2, u2), Rfc3339(s1, u1));
      }
    }
  }

  /** Up to second `limit` the texts sort like the instants. */
  ghost predicate SortsUpTo(limit: nat) {
    forall s1: nat, u1: nat, s2: nat, u2: nat ::
      Earlier(s1, u1, s2, u2) && s2 <= limit ==> TextBefore(Rfc3339(s1, u1), Rfc3339(s2, u2))
  }

  /** The texts sort like the instants exactly until the end of the year 9999. */
  lemma SortsExactlyTo9999(limit: nat)
    ensures SortsUpTo(limit) <==> YearOf(limit) <= 9999
  {
    hide Civil, Rfc3339, TextBefore;
    var first := 86400 * 2932897;
    assert first / 86400 == 2932897 && (first - 1) / 86400 == 2932896;
    YearTenThousand();
    if YearOf(limit) <= 9999 {
      forall s1: nat, u1: nat, s2: nat, u2: nat | Earlier(s1, u1, s2, u2) && s2 <= limit
        ensures TextBefore(Rfc3339(s1, u1), Rfc3339(s2, u2))
      {
        LaterYear(s2, limit);
        TimestampsOrdered(s1, u1, s2, u2);
        assert TextBefore(Rfc3339(s1, u1), Rfc3339(s2, u2)) by { BeforeIs(Rfc3339(s1, u1), Rfc3339(s2, u2)); }
      }
    } else {
      if limit < first { LaterYear(limit, first - 1); }
      FiveDigitYearsSortFirst();
      AheadIsBefore(Rfc3339(first, 0), Rfc3339(first - 1, 0));
      assert Earlier(first - 1, 0, first, 0);
    }
  }

  lemma BeforeIs(a: string, b: string)
    requires LexLe(a, b) && a != b
    ensures TextBefore(a, b)
  {}

  // ── Reading a timestamp ───────────────────────────────────────────────────────

  /** The number written at these places. */
  function Number(text: string, from: nat, to: nat): nat
    requires from <= to <= |text| && forall i :: from <= i < to ==> IsDigit(text[i])
  {
    Numeral(text[from..to])
  }

  /** The shape of section 5.6 of RFC 3339, with six digits for the fraction and `Z` for the
      offset: `YYYY-MM-DDTHH:MM:SS.ffffffZ`. */
  predicate IsDateTime(text: string) {
    && |text| == 27
    && text[4] == '-' && text[7] == '-' && text[10] == 'T' && text[13] == ':' && text[16] == ':'
    && text[19] == '.' && text[26] == 'Z'
    && forall i :: 0 <= i < 27 && i !in {4, 7, 10, 13, 16, 19, 26} ==> IsDigit(text[i])
  }

  /** What a text of that shape says, number by number. */
  predicate Says(text: string, c: Clock, micros: nat) {
    && IsDateTime(text)
    && Number(text, 0, 4) == c.date.year && Number(text, 5, 7) == c.date.month && Number(text, 8, 10) == c.date.day
    && Number(text, 11, 13) == c.hour && Number(text, 14, 16) == c.minute && Number(text, 17, 19) == c.second
    && Number(text, 20, 26) == micros
  }

  /** Seconds and microseconds since the epoch, by counting days, or none if the text is no
      such date and time. */
  function Instant(text: string): Option<(int, nat)> {
    if !IsDateTime(text) then None
    else
      var day := DayNumber(Date(Number(text, 0, 4), Number(text, 5, 7), Number(text, 8, 10)));
      var time := 3600 * Number(text, 11, 13) + 60 * Number(text, 14, 16) + Number(text, 17, 19);
      Some((86400 * day + time, Number(text, 20, 26)))
  }

  /** A field of fixed width: its digits, and its number. */
  lemma FieldIs(n: nat, width: nat)
    requires 0 < width && n < Pow10(width)
    ensures |Padded(n, width)| == width && AllDigits(Padded(n, width)) && Numeral(Padded(n, width)) == n
  {
    PaddedIsFixed(n, width);
    FixedLength(n, width);
    PaddedReads(n, width);
  }

  function Assembled(y: string, mo: string, d: string, h: string, mi: string, s: string, u: string): string {
    y + "-" + (mo + "-" + (d + "T" + (h + ":" + (mi + ":" + (s + "." + (u + "Z" + ""))))))
  }

  /** Seven fields put together read back one by one. */
  lemma PartsRead(y: string, mo: string, d: string, h: string, mi: string, s: string, u: string)
    requires AllDigits(y) && AllDigits(mo) && AllDigits(d)
    requires AllDigits(h) && AllDigits(mi) && AllDigits(s) && AllDigits(u)
    requires |y| == 4 && |mo| == |d| == |h| == |mi| == |s| == 2 && |u| == 6
    ensures var text := Assembled(y, mo, d, h, mi, s, u);
      && IsDateTime(text)
      && text[0..4] == y && text[5..7] == mo && text[8..10] == d && text[11..13] == h && text[14..16] == mi
      && text[17..19] == s && text[20..26] == u
  {
    var text := Assembled(y, mo, d, h, mi, s, u);
    assert text[0..4] == y && text[5..7] == mo && text[8..10] == d;
    assert text[11..13] == h && text[14..16] == mi && text[17..19] == s && text[20..26] == u;
  }

  lemma WriteFirst(f: Field, rest: seq<Field>)
    ensures Write([f] + rest) == Padded(f.value, f.width) + (f.after + Write(rest))
    ensures Write([]) == ""
  {
    hide Padded;
    assert ([f] + rest)[1..] == rest;
  }

  lemma Written(secs: nat, micros: nat)
    ensures var c := ClockOf(secs);
      Rfc3339(secs, micros) ==
        Assembled(Padded(c.date.year, 4), Padded(c.date.month, 2), Padded(c.date.day, 2), Padded(c.hour, 2),
                  Padded(c.minute, 2), Padded(c.second, 2), Padded(micros, 6))
  {
    hide Padded, Civil, Write;
    var c := ClockOf(secs);
    var w := [Field(micros, 6, "Z")];
    WriteFirst(w[0], []);
    WriteFirst(Field(c.second, 2, "."), w);
    w := [Field(c.second, 2, ".")] + w;
    WriteFirst(Field(c.minute, 2, ":"), w);
    w := [Field(c.minute, 2, ":")] + w;
    WriteFirst(Field(c.hour, 2, ":"), w);
    w := [Field(c.hour, 2, ":")] + w;
    WriteFirst(Field(c.date.day, 2, "T"), w);
    w := [Field(c.date.day, 2, "T")] + w;
    WriteFirst(Field(c.date.month, 2, "-"), w);
    w := [Field(c.date.month, 2, "-")] + w;
    WriteFirst(Field(c.date.year, 4, "-"), w);
    assert Fields(secs, micros) == [Field(c.date.year, 4, "-")] + w;
    assert [Field(micros, 6, "Z")] + [] == [Field(micros, 6, "Z")];
  }

  lemma FieldBounds(secs: nat)
    requires YearOf(secs) <= 9999
    ensures var c := ClockOf(secs);
      && c.date.year < 10000 && c.date.month < 100 && c.date.day < 100
      && c.hour < 100 && c.minute < 100 && c.second < 100
  {
    hide Civil;
    CivilCountsDays(secs / 86400);
    TimeOfDay(secs);
  }

  /** The text says the date, the time of day and the microseconds. */
  lemma TimestampSays(secs: nat, micros: nat)
    requires micros < 1_000_000 && YearOf(secs) <= 9999
    ensures Says(Rfc3339(secs, micros), ClockOf(secs), micros)
  {
    hide Civil, Padded, Numeral, Rfc3339, IsDateTime, AllDigits;
    var c := ClockOf(secs);
    Widths();
    FieldBounds(secs);
    FieldIs(c.date.year, 4);
    FieldIs(c.date.month, 2);
    FieldIs(c.date.day, 2);
    FieldIs(c.hour, 2);
    FieldIs(c.minute, 2);
    FieldIs(c.second, 2);
    FieldIs(micros, 6);
    Written(secs, micros);
    PartsRead(Padded(c.date.year, 4), Padded(c.date.month, 2), Padded(c.date.day, 2), Padded(c.hour, 2),
              Padded(c.minute, 2), Padded(c.second, 2), Padded(micros, 6));
  }

  /** So reading is the inverse of writing: the text determines the instant. */
  lemma TimestampReads(secs: nat, micros: nat)
    requires micros < 1_000_000 && YearOf(secs) <= 9999
    ensures Instant(Rfc3339(secs, micros)) == Some((secs, micros))
  {
    hide Civil, Rfc3339, Numeral, DayNumber;
    TimestampSays(secs, micros);
    SecondsRecovered(secs);
  }
}
