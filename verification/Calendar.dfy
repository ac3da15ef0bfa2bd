/** iso_from_ms (src-tauri/src/detail.rs): milliseconds since 1970 as an ISO 8601 string, by a closed-form calendar. */
module Calendar {

  // ---------- The calendar, one day at a time ----------

  datatype Date = Date(year: nat, month: nat, day: nat)

  /** The leap rule of Appendix C of RFC 3339. */
  predicate Leap(year: nat)
  {
    year % 4 == 0 && (year % 100 != 0 || year % 400 == 0)
  }

  function DaysIn(year: nat, month: nat): nat
  {
    if month == 2 then if Leap(year) then 29 else 28
    else if month == 4 || month == 6 || month == 9 || month == 11 then 30
    else 31
  }

  predicate Valid(date: Date)
  {
    1 <= date.month <= 12 && 1 <= date.day <= DaysIn(date.year, date.month)
  }

  function NextDay(date: Date): Date
  {
    if date.day < DaysIn(date.year, date.month) then date.(day := date.day + 1)
    else if date.month < 12 then Date(date.year, date.month + 1, 1)
    else Date(date.year + 1, 1, 1)
  }

  // ---------- The closed form ----------

  const ERA_DAYS: nat := 146_097

  /** The year of the era, counted from March, of a day of the era. */
  function YearOfEra(doe: nat): int
  {
    (doe - doe / 1460 + doe / 36_524 - doe / 146_096) / 365
  }

  /** How many months after March a day of the year is. */
  function MonthAt(doy: int): int
  {
    (5 * doy + 2) / 153
  }

  function FirstDay(mp: int): int
  {
    (153 * mp + 2) / 5
  }

  function DateInEra(era: int, yoe: int, doy: int): (int, int, int)
  {
    var y := yoe + era * 400;
    var mp := MonthAt(doy);
    var d := doy - FirstDay(mp) + 1;
    var m := if mp < 10 then mp + 3 else mp - 9;
    (if m <= 2 then y + 1 else y, m, d)
  }

  function CivilFromDays(days: nat): (int, int, int)
  {
    var z: int := days + 719_468;
    var era := (if z >= 0 then z else z - 146_096) / ERA_DAYS;
    var doe := z - era * ERA_DAYS;
    var yoe := YearOfEra(doe);
    DateInEra(era, yoe, doe - (365 * yoe + yoe / 4 - yoe / 100))
  }

  // ---------- It is that calendar ----------

  /** The first day, within an era, of its k-th year counted from March. */
  function YearStart(k: nat): int
  {
    if k == 400 then ERA_DAYS else 365 * k + k / 4 - k / 100
  }

  lemma {:induction false} YearLength(k: nat)
    requires k < 400
    ensures YearStart(k + 1) - YearStart(k) == if Leap(k + 1) then 366 else 365
  {
    FoursRise(k);
    HundredsRise(k);
    assert (k + 1) % 400 == 0 <==> k + 1 == 400;
    assert (k + 1) % 100 == 0 ==> (k + 1) % 4 == 0;
  }

  lemma {:induction false} FoursRise(k: nat)
    ensures (k + 1) / 4 == k / 4 + if (k + 1) % 4 == 0 then 1 else 0
  {
  }

  lemma {:induction false} HundredsRise(k: nat)
    ensures (k + 1) / 100 == k / 100 + if (k + 1) % 100 == 0 then 1 else 0
  {
  }

  /** A day of the era as centuries, four-year spans, years and days: only the last day of a leap year has t == 365. */
  ghost predicate Spans(doe: nat, c: nat, q: nat, b: nat, t: nat)
  {
    c < 4 && q < 25 && b < 4 && t <= 365 && doe == 36_524 * c + 1461 * q + 365 * b + t
    && (t == 365 ==> b == 3 && (q < 24 || c == 3))
  }

  lemma {:induction false} SpansOf(doe: nat) returns (c: nat, q: nat, b: nat, t: nat)
    requires doe < ERA_DAYS
    ensures Spans(doe, c, q, b, t)
  {
    c := if doe / 36_524 < 4 then doe / 36_524 else 3;
    var r := doe - 36_524 * c;
    q := r / 1461;
    var r2 := r - 1461 * q;
    b := if r2 / 365 < 4 then r2 / 365 else 3;
    t := r2 - 365 * b;
  }

  lemma {:induction false} SpanYear(c: nat, q: nat, b: nat)
    requires c < 4 && q < 25 && b < 4
    ensures var k := 100 * c + 4 * q + b;
            && k < 400 && YearStart(k) == 36_524 * c + 1461 * q + 365 * b
            && (Leap(k + 1) <==> b == 3 && (q < 24 || c == 3))
  {
    var k := 100 * c + 4 * q + b;
    assert k / 4 == 25 * c + q && k / 100 == c;
  }

  lemma {:induction false} SpanFormula(doe: nat, c: nat, q: nat, b: nat, t: nat)
    requires Spans(doe, c, q, b, t)
    ensures YearOfEra(doe) == 100 * c + 4 * q + b
  {
    var r := 24 * c + q + 365 * b + t;
    var e := r / 1460;
    assert doe == 1460 * (25 * c + q) + r;
    assert doe / 1460 == 25 * c + q + e;
    SpanCentury(doe, c, q, b, t);
    SpanRest(c, q, b, t);
    var k := 100 * c + 4 * q + b;
    assert doe - doe / 1460 + doe / 36_524 - doe / 146_096 == 365 * k + (t - e);
    assert (365 * k + (t - e)) / 365 == k;
  }

  lemma {:induction false} SpanCentury(doe: nat, c: nat, q: nat, b: nat, t: nat)
    requires Spans(doe, c, q, b, t)
    ensures doe / 36_524 - doe / 146_096 == c
  {
  }

  /** The days the formula takes off for leap days never reach into the year. */
  lemma {:induction false} SpanRest(c: nat, q: nat, b: nat, t: nat)
    requires Spans(36_524 * c + 1461 * q + 365 * b + t, c, q, b, t)
    ensures 0 <= t - (24 * c + q + 365 * b + t) / 1460 < 365
  {
  }

  /** The division formula finds the year a day of the era falls in. */
  lemma {:induction false} YearOfEraBounds(doe: nat)
    requires doe < ERA_DAYS
    ensures 0 <= YearOfEra(doe) < 400
    ensures YearStart(YearOfEra(doe)) <= doe < YearStart(YearOfEra(doe) + 1)
  {
    var c, q, b, t := SpansOf(doe);
    SpanFormula(doe, c, q, b, t);
    SpanYear(c, q, b);
    YearLength(100 * c + 4 * q + b);
  }

  lemma {:induction false} YearStartsRise(j: nat, k: nat)
    requires j < k <= 400
    ensures YearStart(j + 1) <= YearStart(k)
    decreases k - j
  {
    if j + 1 < k {
      YearLength(j + 1);
      YearStartsRise(j + 1, k);
    }
  }

  lemma {:induction false} YearOfEraIs(doe: nat, k: nat)
    requires k < 400 && YearStart(k) <= doe < YearStart(k + 1) && doe < ERA_DAYS
    ensures YearOfEra(doe) == k
  {
    YearOfEraBounds(doe);
    if YearOfEra(doe) < k { YearStartsRise(YearOfEra(doe), k); }
    if k < YearOfEra(doe) { YearStartsRise(k, YearOfEra(doe)); }
  }

  // ---------- Dates ----------

  ghost predicate InYear(yoe: int, doy: int)
  {
    0 <= yoe < 400 && 0 <= doy < YearStart(yoe + 1) - YearStart(yoe)
  }

  /** The date of the doy-th day of a year counted from March. */
  function DateOf(era: nat, yoe: nat, doy: nat): (date: Date)
    requires InYear(yoe, doy)
  {
    YearLength(yoe);
    var (y, m, d) := DateInEra(era, yoe, doy);
    Date(y, m, d)
  }

  lemma {:induction false} AddMultiple(k: nat, m: nat, q: nat)
    requires m == 4 || m == 100 || m == 400
    ensures (k + m * q) % m == k % m
  {
    if m == 4 {
      Remainder4(k + 4 * q, k / 4 + q, k % 4);
    } else if m == 100 {
      Remainder100(k + 100 * q, k / 100 + q, k % 100);
    } else {
      Remainder400(k + 400 * q, k / 400 + q, k % 400);
    }
  }

  lemma {:induction false} Remainder4(n: nat, q: nat, r: nat)
    requires n == 4 * q + r && r < 4
    ensures n % 4 == r
  {
  }

  lemma {:induction false} Remainder100(n: nat, q: nat, r: nat)
    requires n == 100 * q + r && r < 100
    ensures n % 100 == r
  {
  }

  lemma {:induction false} Remainder400(n: nat, q: nat, r: nat)
    requires n == 400 * q + r && r < 400
    ensures n % 400 == r
  {
  }

  lemma {:induction false} LeapInEra(era: nat, k: nat)
    ensures Leap(k + 400 * era) == Leap(k)
  {
    AddMultiple(k, 400, era);
    AddMultiple(k, 100, 4 * era);
    AddMultiple(k, 4, 100 * era);
  }

  /** The months from March on begin on these days. */
  lemma {:induction false} Months(doy: int)
    requires 0 <= doy < 366
    ensures var mp := MonthAt(doy);
            && 0 <= mp <= 11 && FirstDay(mp) <= doy
            && (mp == 0 ==> doy < 31 && FirstDay(0) == 0) && (mp == 1 ==> doy < 61 && FirstDay(1) == 31)
            && (mp == 2 ==> doy < 92 && FirstDay(2) == 61) && (mp == 3 ==> doy < 122 && FirstDay(3) == 92)
            && (mp == 4 ==> doy < 153 && FirstDay(4) == 122) && (mp == 5 ==> doy < 184 && FirstDay(5) == 153)
            && (mp == 6 ==> doy < 214 && FirstDay(6) == 184) && (mp == 7 ==> doy < 245 && FirstDay(7) == 214)
            && (mp == 8 ==> doy < 275 && FirstDay(8) == 245) && (mp == 9 ==> doy < 306 && FirstDay(9) == 275)
            && (mp == 10 ==> doy < 337 && FirstDay(10) == 306) && (mp == 11 ==> FirstDay(11) == 337)
  {
  }

  /** Days in a year counted from March, and whether the February at its end has a 29th. */
  lemma {:induction false} YearShape(era: nat, yoe: nat, doy: nat)
    requires InYear(yoe, doy)
    ensures Leap(yoe + era * 400 + 1) == Leap(yoe + 1) && doy < if Leap(yoe + 1) then 366 else 365
    ensures YearStart(yoe + 1) - YearStart(yoe) == if Leap(yoe + 1) then 366 else 365
  {
    YearLength(yoe);
    LeapInEra(era, yoe + 1);
  }

  lemma {:induction false} DateOfIsValid(era: nat, yoe: nat, doy: nat)
    requires InYear(yoe, doy)
    ensures Valid(DateOf(era, yoe, doy))
  {
    YearShape(era, yoe, doy);
    hide Leap, MonthAt, FirstDay, YearStart;
    Months(doy);
  }

  /** Within a year the next day of the year is the next date. */
  lemma {:induction false} NextInYear(era: nat, yoe: nat, doy: nat)
    requires InYear(yoe, doy) && InYear(yoe, doy + 1)
    ensures DateOf(era, yoe, doy + 1) == NextDay(DateOf(era, yoe, doy))
  {
    hide Leap, MonthAt, FirstDay, YearStart;
    YearShape(era, yoe, doy);
    YearShape(era, yoe, doy + 1);
    Months(doy);
    Months(doy + 1);
  }

  // ---------- The main results ----------

  /** Where a day since 1970 falls. */
  function Placed(days: nat): (p: (nat, nat, nat))
    ensures p.1 < 400 && InYear(p.1, p.2) && CivilFromDays(days) == DateInEra(p.0, p.1, p.2)
    ensures days + 719_468 == p.0 * ERA_DAYS + YearStart(p.1) + p.2
  {
    var z := days + 719_468;
    var doe := z % ERA_DAYS;
    YearOfEraBounds(doe);
    (z / ERA_DAYS, YearOfEra(doe), doe - YearStart(YearOfEra(doe)))
  }

  function Civil(days: nat): (date: Date)
    ensures (date.year, date.month, date.day) == CivilFromDays(days)
  {
    var (era, yoe, doy) := Placed(days);
    DateOf(era, yoe, doy)
  }

  lemma {:induction false} Epoch()
    ensures Civil(0) == Date(1970, 1, 1)
  {
    assert YearOfEra(135_080) == 369;
    assert CivilFromDays(0) == DateInEra(4, 369, 306);
  }

  /** Day zero is the first of January 1970, and every next day is the calendar's next day: the closed form is the
      Gregorian calendar. */
  lemma {:induction false} CivilIsTheCalendar(days: nat)
    ensures Civil(0) == Date(1970, 1, 1)
    ensures Valid(Civil(days)) && Civil(days + 1) == NextDay(Civil(days))
  {
    hide YearOfEra, DateInEra, NextDay, DateOf, CivilFromDays;
    Epoch();
    var (era, yoe, doy) := Placed(days);
    DateOfIsValid(era, yoe, doy);
    if InYear(yoe, doy + 1) {
      Follows(days, era, yoe, doy + 1);
      NextInYear(era, yoe, doy);
    } else if yoe < 399 {
      YearLength(yoe + 1);
      Follows(days, era, yoe + 1, 0);
      NextYear(era, yoe, doy);
    } else {
      Follows(days, era + 1, 0, 0);
      NextEra(era, doy);
    }
  }

  lemma {:induction false} Follows(days: nat, era: nat, yoe: nat, doy: nat)
    requires yoe < 400 && InYear(yoe, doy) && days + 1 + 719_468 == era * ERA_DAYS + YearStart(yoe) + doy
    ensures Placed(days + 1) == (era, yoe, doy)
  {
    hide YearOfEra, DateInEra, CivilFromDays, InYear, YearStart;
    InsideTheEra(yoe, doy);
    var doe := YearStart(yoe) + doy;
    YearOfEraIs(doe, yoe);
    EraOf(days + 1 + 719_468, era, doe);
  }

  lemma {:induction false} InsideTheEra(yoe: nat, doy: nat)
    requires yoe < 400 && InYear(yoe, doy)
    ensures 0 <= YearStart(yoe) <= YearStart(yoe) + doy < ERA_DAYS && YearStart(yoe) + doy < YearStart(yoe + 1)
  {
    if yoe < 399 { YearStartsRise(yoe, 400); }
  }

  lemma {:induction false} EraOf(z: nat, era: nat, doe: nat)
    requires z == era * ERA_DAYS + doe && doe < ERA_DAYS
    ensures z / ERA_DAYS == era && z % ERA_DAYS == doe
  {
  }

  /** The last of February is followed by the first of March. */
  lemma {:induction false} NextYear(era: nat, yoe: nat, doy: nat)
    requires yoe < 399 && InYear(yoe, doy) && !InYear(yoe, doy + 1) && InYear(yoe + 1, 0)
    ensures DateOf(era, yoe + 1, 0) == NextDay(DateOf(era, yoe, doy))
  {
    YearLength(yoe);
    LeapInEra(era, yoe + 1);
  }

  lemma {:induction false} NextEra(era: nat, doy: nat)
    requires InYear(399, doy) && !InYear(399, doy + 1) && InYear(0, 0)
    ensures DateOf(era + 1, 0, 0) == NextDay(DateOf(era, 399, doy))
  {
    YearLength(399);
    LeapInEra(era, 400);
  }

  // ---------- The string ----------

  function Digit(n: nat): char
    requires n < 10
  {
    ('0' as int + n) as char
  }

  /** Decimal with at least width digits. */
  function Padded(n: nat, width: nat): string
    decreases n, width
  {
    if n == 0 && width == 0 then ""
    else Padded(n / 10, if width > 0 then width - 1 else 0) + [Digit(n % 10)]
  }

  function IsoFromMs(ms: nat): string
  {
    var secs := ms / 1000;
    var rem := secs % 86_400;
    var date := Civil(secs / 86_400);
    Padded(date.year, 4) + ("-" + (Padded(date.month, 2) + ("-" + (Padded(date.day, 2) + ("T"
    + (Padded(rem / 3600, 2) + (":" + (Padded(rem % 3600 / 60, 2) + (":" + (Padded(rem % 60, 2) + ("."
    + (Padded(ms % 1000, 3) + "Z"))))))))))))
  }

  predicate DigitChar(c: char)
  {
    '0' <= c <= '9'
  }

  /** The exact timestamp shape that root_session (src-tauri/src/codex_identity.rs) accepts. */
  predicate StampShape(s: string)
  {
    |s| == 24 && forall k :: 0 <= k < 24 ==>
      if k == 4 || k == 7 then s[k] == '-'
      else if k == 10 then s[k] == 'T'
      else if k == 13 || k == 16 then s[k] == ':'
      else if k == 19 then s[k] == '.'
      else if k == 23 then s[k] == 'Z'
      else DigitChar(s[k])
  }

  /** String order. */
  predicate Less(a: string, b: string)
  {
    b != "" && (a == "" || a[0] < b[0] || (a[0] == b[0] && Less(a[1..], b[1..])))
  }

  function Pow10(width: nat): (p: nat)
    ensures p > 0
  {
    if width == 0 then 1 else 10 * Pow10(width - 1)
  }

  lemma {:induction false} PaddedShape(n: nat, width: nat)
    requires n < Pow10(width)
    ensures |Padded(n, width)| == width && forall k :: 0 <= k < width ==> DigitChar(Padded(n, width)[k])
  {
    if width > 0 {
      PaddedShape(n / 10, width - 1);
    }
  }

  lemma {:induction false} LessAfter(p: string, a: string, b: string)
    ensures Less(p + a, p + b) <==> Less(a, b)
  {
    if p == "" {
      assert p + a == a && p + b == b;
    } else {
      assert (p + a)[1..] == p[1..] + a && (p + b)[1..] == p[1..] + b;
      LessAfter(p[1..], a, b);
    }
  }

  lemma {:induction false} LessBefore(p: string, q: string, a: string, b: string)
    requires |p| == |q|
    ensures Less(p + a, q + b) <==> Less(p, q) || (p == q && Less(a, b))
  {
    if p == q {
      LessAfter(p, a, b);
      LessAfter(p, "", "");
      assert p + "" == p;
    } else {
      assert (p + a)[1..] == p[1..] + a && (q + b)[1..] == q[1..] + b;
      assert p == [p[0]] + p[1..] && q == [q[0]] + q[1..];
      LessBefore(p[1..], q[1..], a, b);
    }
  }

  /** Digit strings of one width compare as their numbers. */
  lemma {:induction false} PaddedOrder(m: nat, n: nat, width: nat)
    requires m < Pow10(width) && n < Pow10(width)
    ensures Less(Padded(m, width), Padded(n, width)) <==> m < n
    ensures Padded(m, width) == Padded(n, width) <==> m == n
  {
    if width > 0 {
      PaddedShape(m / 10, width - 1);
      PaddedShape(n / 10, width - 1);
      PaddedOrder(m / 10, n / 10, width - 1);
      var p, q, a, b := Padded(m / 10, width - 1), Padded(n / 10, width - 1), [Digit(m % 10)], [Digit(n % 10)];
      LessBefore(p, q, a, b);
      assert Less(a, b) <==> m % 10 < n % 10;
      assert m == 10 * (m / 10) + m % 10 && n == 10 * (n / 10) + n % 10;
      assert (p + a)[..|p|] == p && (q + b)[..|q|] == q;
    }
  }

  /** A field, its separator and the rest compare field first. */
  lemma {:induction false} FieldOrder(m: nat, n: nat, width: nat, sep: string, a: string, b: string)
    requires m < Pow10(width) && n < Pow10(width)
    ensures Less(Padded(m, width) + (sep + a), Padded(n, width) + (sep + b)) <==> m < n || (m == n && Less(a, b))
  {
    PaddedShape(m, width);
    PaddedShape(n, width);
    PaddedOrder(m, n, width);
    LessBefore(Padded(m, width), Padded(n, width), sep + a, sep + b);
    LessAfter(sep, a, b);
  }

  /** String order is a strict total order. */
  lemma {:induction false} LessIsTotal(a: string, b: string)
    ensures Less(a, b) || Less(b, a) || a == b
    ensures !(Less(a, b) && Less(b, a)) && !Less(a, a)
  {
    if a != "" {
      LessIsTotal(a[1..], if b != "" then b[1..] else "");
      assert b != "" && a[0] == b[0] && a[1..] == b[1..] ==> [a[0]] + a[1..] == a && [b[0]] + b[1..] == b;
    }
  }

  lemma {:induction false} LessThen(a: string, b: string, c: string)
    requires Less(a, b) && Less(b, c)
    ensures Less(a, c)
  {
    if a != "" && a[0] == b[0] == c[0] {
      LessThen(a[1..], b[1..], c[1..]);
    }
  }

  ghost predicate Before(a: Date, b: Date)
  {
    a.year < b.year || (a.year == b.year && (a.month < b.month || (a.month == b.month && a.day < b.day)))
  }

  lemma {:induction false} NextDayIsLater(date: Date)
    requires Valid(date)
    ensures Before(date, NextDay(date))
  {
  }

  lemma {:induction false} BeforeThen(a: Date, b: Date, c: Date)
    requires Before(a, b) && Before(b, c)
    ensures Before(a, c)
  {
  }

  lemma {:induction false} DatesRise(d: nat, e: nat)
    requires d < e
    ensures Before(Civil(d), Civil(e))
    decreases e
  {
    hide *;
    CivilIsTheCalendar(e - 1);
    NextDayIsLater(Civil(e - 1));
    assert Before(Civil(e - 1), Civil(e)) by {
      assert Civil(e - 1 + 1) == NextDay(Civil(e - 1));
      assert e - 1 + 1 == e;
    }
    if d < e - 1 {
      DatesRise(d, e - 1);
      BeforeThen(Civil(d), Civil(e - 1), Civil(e));
    }
  }

  function Clock(h: nat, min: nat, s: nat, ms: nat): string
  {
    Padded(h, 2) + (":" + (Padded(min, 2) + (":" + (Padded(s, 2) + ("." + (Padded(ms, 3) + "Z"))))))
  }

  /** The time of day, as the string has it. */
  function ClockPart(ms: nat): string
  {
    var rem := ms / 1000 % 86_400;
    Clock(rem / 3600, rem % 3600 / 60, rem % 60, ms % 1000)
  }

  function DatePart(date: Date, rest: string): string
  {
    Padded(date.year, 4) + ("-" + (Padded(date.month, 2) + ("-" + (Padded(date.day, 2) + ("T" + rest)))))
  }

  const DAY_MS: nat := 86_400_000

  /** Clocks compare hour first. */
  lemma {:induction false} FieldsOrder(h: nat, min: nat, s: nat, ms: nat, h': nat, min': nat, s': nat, ms': nat)
    requires h < 100 && min < 60 && s < 60 && ms < 1000 && h' < 100 && min' < 60 && s' < 60 && ms' < 1000
    ensures Less(Clock(h, min, s, ms), Clock(h', min', s', ms')) <==>
            h < h' || (h == h' && (min < min' || (min == min' && (s < s' || (s == s' && ms < ms')))))
  {
    hide Padded, Less;
    Powers();
    var x, x' := Padded(ms, 3) + ("Z" + ""), Padded(ms', 3) + ("Z" + "");
    assert Padded(ms, 3) + "Z" == x && Padded(ms', 3) + "Z" == x';
    LessIsTotal("", "");
    FieldOrder(ms, ms', 3, "Z", "", "");
    FieldOrder(s, s', 2, ".", x, x');
    var y, y' := Padded(s, 2) + ("." + x), Padded(s', 2) + ("." + x');
    FieldOrder(min, min', 2, ":", y, y');
    FieldOrder(h, h', 2, ":", Padded(min, 2) + (":" + y), Padded(min', 2) + (":" + y'));
  }

  lemma {:induction false} Powers()
    ensures Pow10(2) == 100 && Pow10(3) == 1000 && Pow10(4) == 10_000
  {
    assert Pow10(3) == 1000;
  }

  lemma {:induction false} ClockOrder(a: nat, b: nat)
    ensures Less(ClockPart(a), ClockPart(b)) <==> a % DAY_MS < b % DAY_MS
  {
    hide Less, Clock;
    var r, q := a / 1000 % 86_400, b / 1000 % 86_400;
    ClockNumber(a, r);
    ClockNumber(b, q);
    FieldsOrder(r / 3600, r % 3600 / 60, r % 60, a % 1000, q / 3600, q % 3600 / 60, q % 60, b % 1000);
    LeadingFields(r / 3600, r % 3600 / 60, r % 60, a % 1000, q / 3600, q % 3600 / 60, q % 60, b % 1000);
  }

  lemma {:induction false} LeadingFields(h: nat, min: nat, s: nat, ms: nat, h': nat, min': nat, s': nat, ms': nat)
    requires min < 60 && s < 60 && ms < 1000 && min' < 60 && s' < 60 && ms' < 1000
    ensures 1000 * (3600 * h + 60 * min + s) + ms < 1000 * (3600 * h' + 60 * min' + s') + ms' <==>
            h < h' || (h == h' && (min < min' || (min == min' && (s < s' || (s == s' && ms < ms')))))
  {
  }

  lemma {:induction false} ClockNumber(ms: nat, rem: nat)
    requires rem == ms / 1000 % 86_400
    ensures ms % DAY_MS == 1000 * rem + ms % 1000
    ensures rem == 3600 * (rem / 3600) + 60 * (rem % 3600 / 60) + rem % 60
    ensures 0 <= rem % 60 < 60 && 0 <= rem % 3600 / 60 < 60 && rem / 3600 < 24
  {
    assert rem % 3600 == 60 * (rem % 3600 / 60) + rem % 3600 % 60;
    assert rem % 3600 % 60 == rem % 60;
  }

  lemma {:induction false} DateOrder(a: Date, b: Date, s: string, t: string)
    requires Valid(a) && Valid(b) && a.year < 10_000 && b.year < 10_000
    ensures Less(DatePart(a, s), DatePart(b, t)) <==> Before(a, b) || (a == b && Less(s, t))
  {
    FieldOrder(a.day, b.day, 2, "T", s, t);
    var s2, t2 := Padded(a.day, 2) + ("T" + s), Padded(b.day, 2) + ("T" + t);
    FieldOrder(a.month, b.month, 2, "-", s2, t2);
    var s3, t3 := Padded(a.month, 2) + ("-" + s2), Padded(b.month, 2) + ("-" + t2);
    FieldOrder(a.year, b.year, 4, "-", s3, t3);
  }

  /** Through year 9999, later times are greater strings, and the other way round. */
  lemma {:induction false} StringOrderIsTimeOrder(a: nat, b: nat)
    requires Civil(a / DAY_MS).year < 10_000 && Civil(b / DAY_MS).year < 10_000
    ensures Less(IsoFromMs(a), IsoFromMs(b)) <==> a < b
  {
    hide Padded, ClockPart, DatePart, IsoFromMs, Less, Civil, NextDay, Valid, Placed, CivilFromDays, DateInEra, YearOfEra, DateOf,
      Leap, DaysIn, Pow10;
    var d, e := a / DAY_MS, b / DAY_MS;
    assert a / 1000 / 86_400 == d && b / 1000 / 86_400 == e;
    IsoParts(a);
    IsoParts(b);
    CivilIsTheCalendar(d);
    CivilIsTheCalendar(e);
    DateOrder(Civil(d), Civil(e), ClockPart(a), ClockPart(b));
    ClockOrder(a, b);
    if d < e { DatesRise(d, e); }
    if e < d { DatesRise(e, d); }
  }

  lemma {:induction false} IsoParts(ms: nat)
    ensures ms / 1000 / 86_400 == ms / DAY_MS
    ensures IsoFromMs(ms) == DatePart(Civil(ms / DAY_MS), ClockPart(ms))
  {
  }

  ghost predicate Digits(s: string, n: nat)
  {
    |s| == n && forall k :: 0 <= k < n ==> DigitChar(s[k])
  }

  lemma {:induction false} ShapeOfParts(y: string, mo: string, d: string, h: string, mi: string, se: string, ms: string)
    requires Digits(y, 4) && Digits(mo, 2) && Digits(d, 2) && Digits(h, 2) && Digits(mi, 2) && Digits(se, 2) && Digits(ms, 3)
    ensures StampShape(y + ("-" + (mo + ("-" + (d + ("T" + (h + (":" + (mi + (":" + (se + ("." + (ms + "Z")))))))))))))
  {
  }

  /** Through year 9999 the string has the shape a rollout's creation stamp must have. */
  lemma {:induction false} IsoHasStampShape(ms: nat)
    requires Civil(ms / DAY_MS).year < 10_000
    ensures StampShape(IsoFromMs(ms))
  {
    hide Padded, StampShape, Civil, NextDay;
    var date := Civil(ms / DAY_MS);
    CivilIsTheCalendar(ms / DAY_MS);
    IsoParts(ms);
    var rem := ms / 1000 % 86_400;
    PaddedShape(date.year, 4);
    PaddedShape(date.month, 2);
    PaddedShape(date.day, 2);
    PaddedShape(rem / 3600, 2);
    PaddedShape(rem % 3600 / 60, 2);
    PaddedShape(rem % 60, 2);
    PaddedShape(ms % 1000, 3);
    ShapeOfParts(Padded(date.year, 4), Padded(date.month, 2), Padded(date.day, 2), Padded(rem / 3600, 2),
                 Padded(rem % 3600 / 60, 2), Padded(rem % 60, 2), Padded(ms % 1000, 3));
  }

  lemma {:induction false} PaddedLong(n: nat, width: nat)
    requires n >= Pow10(width)
    ensures |Padded(n, width)| > width && forall k :: 0 <= k < |Padded(n, width)| ==> DigitChar(Padded(n, width)[k])
    decreases n
  {
    var w := if width > 0 then width - 1 else 0;
    if n / 10 >= Pow10(w) {
      PaddedLong(n / 10, w);
    } else {
      PaddedShape(n / 10, w);
    }
  }

  /** Past year 9999 the year takes five digits and the shape is lost, so the bound is exact. */
  lemma {:induction false} LongYearsBreakTheShape(ms: nat)
    requires Civil(ms / DAY_MS).year >= 10_000
    ensures !StampShape(IsoFromMs(ms))
  {
    hide Padded, Civil, ClockPart;
    IsoParts(ms);
    var year := Padded(Civil(ms / DAY_MS).year, 4);
    PaddedLong(Civil(ms / DAY_MS).year, 4);
    assert IsoFromMs(ms)[..|year|] == year;
    assert DigitChar(IsoFromMs(ms)[4]);
  }

  // ---------- What the string says ----------

  /** The number a digit string spells. */
  function Number(s: string): int
  {
    if s == "" then 0 else 10 * Number(s[..|s| - 1]) + (s[|s| - 1] as int - '0' as int)
  }

  lemma {:induction false} PaddedNumber(n: nat, width: nat)
    requires n < Pow10(width)
    ensures |Padded(n, width)| == width && Number(Padded(n, width)) == n
  {
    if width > 0 {
      PaddedNumber(n / 10, width - 1);
      var s := Padded(n, width);
      assert s[..|s| - 1] == Padded(n / 10, width - 1);
    }
  }

  lemma {:induction false} PartsAt(y: string, mo: string, d: string, h: string, min: string, sec: string, ms: string)
    requires |y| == 4 && |mo| == 2 && |d| == 2 && |h| == 2 && |min| == 2 && |sec| == 2 && |ms| == 3
    ensures var s := y + ("-" + (mo + ("-" + (d + ("T" + (h + (":" + (min + (":" + (sec + ("." + (ms + "Z"))))))))))));
            && |s| == 24 && s[0..4] == y && s[5..7] == mo && s[8..10] == d && s[11..13] == h && s[14..16] == min
            && s[17..19] == sec && s[20..23] == ms
  {
    var r6 := ms + "Z";
    var r5 := sec + ("." + r6);
    var r4 := min + (":" + r5);
    var r3 := h + (":" + r4);
    var r2 := d + ("T" + r3);
    var r1 := mo + ("-" + r2);
    var s := y + ("-" + r1);
    Cut(s, 0, s, y, "-", r1);
    Cut(s, 5, r1, mo, "-", r2);
    Cut(s, 8, r2, d, "T", r3);
    Cut(s, 11, r3, h, ":", r4);
    Cut(s, 14, r4, min, ":", r5);
    Cut(s, 17, r5, sec, ".", r6);
    Cut(s, 20, r6, ms, "Z", "");
  }

  lemma {:induction false} Cut(s: string, at: nat, tail: string, part: string, sep: string, rest: string)
    requires at <= |s| && s[at..] == tail == part + (sep + rest) && |sep| == 1
    ensures |s| == at + |part| + 1 + |rest|
    ensures s[at..at + |part|] == part && s[at + |part| + 1..] == rest
  {
    assert tail[..|part|] == part && tail[|part| + 1..] == rest;
  }

  ghost predicate SaysDate(s: string, date: Date)
  {
    |s| == 24 && Number(s[0..4]) == date.year && Number(s[5..7]) == date.month && Number(s[8..10]) == date.day
  }

  ghost predicate SaysTime(s: string, h: int, min: int, sec: int, ms: int)
  {
    |s| == 24 && Number(s[11..13]) == h && Number(s[14..16]) == min && Number(s[17..19]) == sec && Number(s[20..23]) == ms
  }

  /** Through year 9999 the string's digits spell the date and the time of day, which together are the moment. */
  lemma {:induction false} IsoSpellsTheMoment(ms: nat) returns (h: nat, min: nat, sec: nat)
    requires Civil(ms / DAY_MS).year < 10_000
    ensures SaysDate(IsoFromMs(ms), Civil(ms / DAY_MS)) && SaysTime(IsoFromMs(ms), h, min, sec, ms % 1000)
    ensures h < 24 && min < 60 && sec < 60 && ms % DAY_MS == ((h * 60 + min) * 60 + sec) * 1000 + ms % 1000
  {
    hide Padded, Number, Civil, NextDay, Pow10, StampShape, CivilFromDays;
    var date, rem := Civil(ms / DAY_MS), ms / 1000 % 86_400;
    CivilIsTheCalendar(ms / DAY_MS);
    IsoParts(ms);
    ClockNumber(ms, rem);
    Powers();
    h, min, sec := rem / 3600, rem % 3600 / 60, rem % 60;
    PaddedNumber(date.year, 4);
    PaddedNumber(date.month, 2);
    PaddedNumber(date.day, 2);
    PaddedNumber(h, 2);
    PaddedNumber(min, 2);
    PaddedNumber(sec, 2);
    PaddedNumber(ms % 1000, 3);
    PartsAt(Padded(date.year, 4), Padded(date.month, 2), Padded(date.day, 2), Padded(h, 2), Padded(min, 2), Padded(sec, 2),
            Padded(ms % 1000, 3));
  }
}
