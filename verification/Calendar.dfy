/**
 The proleptic Gregorian calendar in integer arithmetic. Days and Civil are the source's closed forms; both agree with
 counting one day at a time from the first of January 1970, so each undoes the other.
 */
module Calendar {
  datatype Date = Date(year: int, month: int, day: int)

  // ----- Counting

  predicate IsLeap(year: int) {
    year % 4 == 0 && (year % 100 != 0 || year % 400 == 0)
  }

  function MonthLength(year: int, month: int): int {
    if month == 2 then if IsLeap(year) then 29 else 28
    else if month == 4 || month == 6 || month == 9 || month == 11 then 30
    else 31
  }

  predicate IsValid(d: Date) {
    1 <= d.month <= 12 && 1 <= d.day <= MonthLength(d.year, d.month)
  }

  function Next(d: Date): (next: Date)
    requires IsValid(d)
    ensures IsValid(next)
  {
    if d.day < MonthLength(d.year, d.month) then Date(d.year, d.month, d.day + 1)
    else if d.month < 12 then Date(d.year, d.month + 1, 1)
    else Date(d.year + 1, 1, 1)
  }

  function Previous(d: Date): (previous: Date)
    requires IsValid(d)
    ensures IsValid(previous) && Next(previous) == d
  {
    if d.day > 1 then Date(d.year, d.month, d.day - 1)
    else if d.month > 1 then Date(d.year, d.month - 1, MonthLength(d.year, d.month - 1))
    else Date(d.year - 1, 12, 31)
  }

  const EPOCH := Date(1970, 1, 1)

  /** The date so many days after, or before, the epoch. */
  function DateOf(days: int): (d: Date)
    ensures IsValid(d)
    decreases if days < 0 then -days else days
  {
    if days == 0 then EPOCH
    else if days > 0 then Next(DateOf(days - 1))
    else Previous(DateOf(days + 1))
  }

  // ----- The closed forms

  /** Integer division as the source's language has it. */
  function Quotient(value: int, divisor: int): int
    requires divisor > 0
  {
    if value >= 0 then value / divisor else -((-value) / divisor)
  }

  function Floor(value: int, divisor: int): int
    requires divisor > 0
  {
    if value >= 0 then Quotient(value, divisor) else Quotient(value - divisor + 1, divisor)
  }

  lemma {:induction false} TruncatesToFloor(n: int, d: int)
    requires n > 0 && d > 0
    ensures -((n + d - 1) / d) == (-n) / d
  {
    var q, r := (n + d - 1) / d, (n + d - 1) % d;
    assert n + d - 1 == q * d + r;
    assert -n == (-q) * d + (d - 1 - r);
    Unique(-n, d, -q, d - 1 - r);
  }

  lemma {:induction false} Unique(n: int, d: int, q: int, r: int)
    requires d > 0 && n == q * d + r && 0 <= r < d
    ensures n / d == q && n % d == r
  {
    var k := n / d - q;
    assert n == (n / d) * d + n % d;
    assert k * d == r - n % d;
    if k != 0 {
      Multiple(k, d);
    }
  }

  lemma {:induction false} Multiple(k: int, d: int)
    requires k != 0 && d > 0
    ensures k * d >= d || k * d <= -d
  {
    assert k > 0 ==> (k - 1) * d >= 0;
    assert k < 0 ==> (-k - 1) * d >= 0;
  }

  lemma {:induction false} FloorIsFloor(value: int, divisor: int)
    requires divisor > 0
    ensures Floor(value, divisor) == value / divisor
  {
    if value < 0 {
      TruncatesToFloor(-value, divisor);
    }
  }

  function Days(year: int, month: int, day: int): int {
    var y := year - if month <= 2 then 1 else 0;
    var era := Floor(y, 400);
    var within := y - era * 400;
    var ordinal := Quotient(153 * (month + if month > 2 then -3 else 9) + 2, 5) + day - 1;
    era * 146097 + within * 365 + Quotient(within, 4) - Quotient(within, 100) + ordinal - 719468
  }

  /** The year that starts in March and the day in it. */
  function YearAndDay(days: int): (int, int) {
    var shifted := days + 719468;
    var era := Floor(shifted, 146097);
    var dayOfEra := shifted - era * 146097;
    var yearOfEra :=
      Quotient(dayOfEra - Quotient(dayOfEra, 1460) + Quotient(dayOfEra, 36524) - Quotient(dayOfEra, 146096), 365);
    (yearOfEra + era * 400, dayOfEra - (365 * yearOfEra + Quotient(yearOfEra, 4) - Quotient(yearOfEra, 100)))
  }

  function MonthAndDay(year: int, dayOfYear: int): Date {
    var monthPrime := Quotient(5 * dayOfYear + 2, 153);
    var day := dayOfYear - Quotient(153 * monthPrime + 2, 5) + 1;
    var month := monthPrime + if monthPrime < 10 then 3 else -9;
    Date(year + if month <= 2 then 1 else 0, month, day)
  }

  function Civil(days: int): Date {
    var (year, dayOfYear) := YearAndDay(days);
    MonthAndDay(year, dayOfYear)
  }

  // ----- Days counts days

  /** The days before a year that starts in March. */
  function YearStart(y: int): int {
    365 * y + y / 4 - y / 100 + y / 400
  }

  /** The days before a month in such a year, from March as 0. */
  function MonthStart(m: int): int {
    (153 * m + 2) / 5
  }

  lemma {:induction false} EraStart(y: int)
    ensures var era, w := y / 400, y % 400; YearStart(y) == era * 146097 + w * 365 + w / 4 - w / 100
  {
    var era, w := y / 400, y % 400;
    Unique(y, 4, 100 * era + w / 4, w % 4);
    Unique(y, 100, 4 * era + w / 100, w % 100);
  }

  lemma {:induction false} DaysFromStarts(year: int, month: int, day: int)
    requires 0 <= month
    ensures var y := year - if month <= 2 then 1 else 0;
      Days(year, month, day) == YearStart(y) + MonthStart(month + if month > 2 then -3 else 9) + day - 1 - 719468
  {
    var y := year - if month <= 2 then 1 else 0;
    FloorIsFloor(y, 400);
    EraStart(y);
  }

  lemma {:induction false} YearLength(y: int)
    ensures YearStart(y + 1) == YearStart(y) + if IsLeap(y + 1) then 366 else 365
  {
    Step(y, 4);
    Step(y, 100);
    Step(y, 400);
    LeapDivides(y + 1);
  }

  lemma {:induction false} LeapDivides(y: int)
    ensures y % 400 == 0 ==> y % 100 == 0
    ensures y % 100 == 0 ==> y % 4 == 0
  {
    if y % 400 == 0 {
      Unique(y, 100, 4 * (y / 400), 0);
    }
    if y % 100 == 0 {
      Unique(y, 4, 25 * (y / 100), 0);
    }
  }

  lemma {:induction false} Step(y: int, d: int)
    requires d > 1
    ensures (y + 1) / d == y / d + if (y + 1) % d == 0 then 1 else 0
  {
    assert y == y / d * d + y % d;
    if y % d == d - 1 {
      assert (y / d + 1) * d == y / d * d + d;
      Unique(y + 1, d, y / d + 1, 0);
    } else {
      Unique(y + 1, d, y / d, y % d + 1);
    }
  }

  lemma {:induction false} MonthStarts()
    ensures MonthStart(0) == 0 && MonthStart(1) == 31 && MonthStart(2) == 61 && MonthStart(3) == 92
    ensures MonthStart(4) == 122 && MonthStart(5) == 153 && MonthStart(6) == 184 && MonthStart(7) == 214
    ensures MonthStart(8) == 245 && MonthStart(9) == 275 && MonthStart(10) == 306 && MonthStart(11) == 337
  {
  }

  /** From a month's start to the next one's. */
  lemma {:induction false} MonthStep(year: int, month: int)
    requires 1 <= month <= 12
    ensures var y, m := year - (if month <= 2 then 1 else 0), month + if month > 2 then -3 else 9;
      (if m < 11 then YearStart(y) + MonthStart(m + 1) else YearStart(y + 1)) ==
        YearStart(y) + MonthStart(m) + MonthLength(year, month)
  {
    MonthStarts();
    if month == 2 {
      YearLength(year - 1);
    }
  }

  lemma {:induction false} NextMonth(year: int, month: int)
    requires 1 <= month <= 12
    ensures var first := if month < 12 then Date(year, month + 1, 1) else Date(year + 1, 1, 1);
      Days(first.year, first.month, 1) == Days(year, month, 1) + MonthLength(year, month)
  {
    assert MonthStart(0) == 0;
    MonthStep(year, month);
    DaysFromStarts(year, month, 1);
    if month < 12 {
      DaysFromStarts(year, month + 1, 1);
    } else {
      DaysFromStarts(year + 1, 1, 1);
    }
  }

  /** The next date's number is one more. */
  lemma {:induction false} DaysOfNext(d: Date)
    requires IsValid(d)
    ensures var next := Next(d); Days(next.year, next.month, next.day) == Days(d.year, d.month, d.day) + 1
  {
    DayOfMonth(d.year, d.month, d.day);
    if d.day < MonthLength(d.year, d.month) {
      DayOfMonth(d.year, d.month, d.day + 1);
    } else {
      NextMonth(d.year, d.month);
    }
  }

  lemma {:induction false} DayOfMonth(year: int, month: int, day: int)
    ensures Days(year, month, day) == Days(year, month, 1) + day - 1
  {
  }

  lemma {:induction false} DaysOfEpoch()
    ensures Days(1970, 1, 1) == 0
  {
  }

  /** Days agrees with counting from the epoch. */
  lemma {:induction false} DaysCounts(n: int)
    ensures var d := DateOf(n); Days(d.year, d.month, d.day) == n
    decreases if n < 0 then -n else n
  {
    if n == 0 {
      DaysOfEpoch();
    } else if n > 0 {
      DaysCounts(n - 1);
      DaysOfNext(DateOf(n - 1));
    } else {
      DaysCounts(n + 1);
      DaysOfNext(DateOf(n));
    }
  }

  // ----- Civil undoes Days

  /** The year of an era from its day. `c`, `q` and `s` are the centuries, the four-year cycles and the years in them. */
  lemma {:induction false} YearFromDay(c: int, q: int, s: int, dayOfYear: int)
    requires 0 <= c <= 3 && 0 <= q <= 24 && 0 <= s <= 3 && 0 <= dayOfYear <= 365
    requires dayOfYear == 365 ==> s == 3 && (q < 24 || c == 3)
    ensures var e := 36524 * c + 1461 * q + 365 * s + dayOfYear;
      0 <= e < 146097 && (e - e / 1460 + e / 36524 - e / 146096) / 365 == 100 * c + 4 * q + s
  {
    var e, w := 36524 * c + 1461 * q + 365 * s + dayOfYear, 100 * c + 4 * q + s;
    var carry := LeapDays(c, q, s, dayOfYear);
    Centuries(c, q, s, dayOfYear);
    assert e - e / 1460 + e / 36524 - e / 146096 == 365 * w + (dayOfYear - carry);
    Unique(365 * w + (dayOfYear - carry), 365, w, dayOfYear - carry);
  }

  lemma {:induction false} LeapDays(c: int, q: int, s: int, dayOfYear: int) returns (carry: int)
    requires 0 <= c <= 3 && 0 <= q <= 24 && 0 <= s <= 3 && 0 <= dayOfYear <= 365
    requires dayOfYear == 365 ==> s == 3
    ensures (36524 * c + 1461 * q + 365 * s + dayOfYear) / 1460 == 25 * c + q + carry && 0 <= dayOfYear - carry < 365
  {
    var over := 24 * c + q + 365 * s + dayOfYear;
    carry := if over >= 1460 then 1 else 0;
    Unique(36524 * c + 1461 * q + 365 * s + dayOfYear, 1460, 25 * c + q + carry, over - 1460 * carry);
  }

  /** Only the last day of an era is one too many for its century. */
  lemma {:induction false} Centuries(c: int, q: int, s: int, dayOfYear: int)
    requires 0 <= c <= 3 && 0 <= q <= 24 && 0 <= s <= 3 && 0 <= dayOfYear <= 365
    requires dayOfYear == 365 ==> s == 3 && (q < 24 || c == 3)
    ensures var e := 36524 * c + 1461 * q + 365 * s + dayOfYear; 0 <= e < 146097 && e / 36524 - e / 146096 == c
  {
    var e, last := 36524 * c + 1461 * q + 365 * s + dayOfYear, 1461 * q + 365 * s + dayOfYear;
    if last < 36524 {
      Unique(e, 36524, c, last);
      assert e < 146096;
    } else {
      assert c == 3 && q == 24 && s == 3 && dayOfYear == 365;
    }
  }

  lemma {:induction false} YearParts(w: int)
    requires 0 <= w < 400
    ensures var c, q, s := w / 100, w % 100 / 4, w % 4;
      && 0 <= c <= 3 && 0 <= q <= 24 && w == 100 * c + 4 * q + s
      && w / 4 == 25 * c + q
      && w * 365 + w / 4 - w / 100 == 36524 * c + 1461 * q + 365 * s
  {
    var c, r := w / 100, w % 100;
    Unique(w, 4, 25 * c + r / 4, r % 4);
  }

  /** A leap day ends only the last year of a four-year cycle, and of a century only every fourth time. */
  lemma {:induction false} LeapYearParts(y: int)
    requires IsLeap(y + 1)
    ensures var w := y % 400; w % 4 == 3 && (w % 100 / 4 < 24 || w / 100 == 3)
  {
    var era, w := y / 400, y % 400;
    var v := w + 1;
    assert y + 1 == 400 * era + v;
    Unique(y + 1, 4, 100 * era + v / 4, v % 4);
    Unique(y + 1, 100, 4 * era + v / 100, v % 100);
    if v < 400 {
      Unique(y + 1, 400, era, v);
    }
  }

  /** The month and the day in it from the day of a year that starts in March. */
  lemma {:induction false} MonthFromDay(m: int, day: int)
    requires 0 <= m <= 11 && 1 <= day && MonthStart(m) + day <= (if m < 11 then MonthStart(m + 1) else 366)
    ensures (5 * (MonthStart(m) + day - 1) + 2) / 153 == m
  {
    MonthStarts();
    var n := 5 * (MonthStart(m) + day - 1) + 2;
    Unique(n, 153, m, n - 153 * m);
  }

  /** A date by its year and month counted from March. */
  function FromMarch(y: int, m: int, day: int): Date {
    Date(y + if m < 10 then 0 else 1, m + if m < 10 then 3 else -9, day)
  }

  predicate FitsMarch(y: int, m: int, day: int) {
    && 0 <= m <= 11 && 1 <= day && 0 <= MonthStart(m) + day - 1 <= 365
    && MonthStart(m) + day <= (if m < 11 then MonthStart(m + 1) else 366)
    && (MonthStart(m) + day - 1 == 365 ==> IsLeap(y + 1))
  }

  lemma {:induction false} MarchParts(d: Date) returns (y: int, m: int)
    requires IsValid(d)
    ensures FitsMarch(y, m, d.day) && FromMarch(y, m, d.day) == d
    ensures y == d.year - (if d.month <= 2 then 1 else 0) && m == d.month + if d.month > 2 then -3 else 9
  {
    y, m := d.year - (if d.month <= 2 then 1 else 0), d.month + if d.month > 2 then -3 else 9;
    MonthStarts();
  }

  lemma {:induction false} EraOfDay(y: int, dayOfYear: int)
    requires 0 <= dayOfYear <= 365 && (dayOfYear == 365 ==> IsLeap(y + 1))
    ensures var shifted := YearStart(y) + dayOfYear; var e := shifted % 146097;
      && shifted / 146097 == y / 400
      && (e - e / 1460 + e / 36524 - e / 146096) / 365 == y % 400
      && e == 365 * (y % 400) + y % 400 / 4 - y % 400 / 100 + dayOfYear
  {
    var era, w := y / 400, y % 400;
    EraStart(y);
    YearParts(w);
    if dayOfYear == 365 {
      LeapYearParts(y);
    }
    YearFromDay(w / 100, w % 100 / 4, w % 4, dayOfYear);
    var e := w * 365 + w / 4 - w / 100 + dayOfYear;
    Unique(YearStart(y) + dayOfYear, 146097, era, e);
  }

  /** The steps of the conversion, from what its quotients are. */
  lemma {:induction false} YearSteps(shifted: int, era: int, e: int, w: int)
    requires shifted / 146097 == era && e == shifted - era * 146097 && 0 <= e && 0 <= w
    requires (e - e / 1460 + e / 36524 - e / 146096) / 365 == w && 0 <= e - e / 1460 + e / 36524 - e / 146096
    ensures YearAndDay(shifted - 719468) == (w + era * 400, e - (365 * w + w / 4 - w / 100))
  {
    FloorIsFloor(shifted, 146097);
  }

  lemma {:induction false} MonthSteps(y: int, dayOfYear: int, m: int, day: int)
    requires 0 <= dayOfYear && 0 <= m <= 11 && (5 * dayOfYear + 2) / 153 == m && day == dayOfYear - MonthStart(m) + 1
    ensures MonthAndDay(y, dayOfYear) == FromMarch(y, m, day)
  {
  }

  lemma {:induction false} Nonnegative(e: int)
    requires 0 <= e < 146097
    ensures 0 <= e - e / 1460 + e / 36524 - e / 146096
  {
    assert e / 1460 <= e && (e / 146096 == 0 || e == 146096);
  }

  lemma {:induction false} CivilFromParts(y: int, m: int, day: int, n: int)
    requires FitsMarch(y, m, day) && n == YearStart(y) + MonthStart(m) + day - 1 - 719468
    ensures Civil(n) == FromMarch(y, m, day)
  {
    var dayOfYear := MonthStart(m) + day - 1;
    var shifted := n + 719468;
    EraOfDay(y, dayOfYear);
    MonthFromDay(m, day);
    Nonnegative(shifted % 146097);
    YearSteps(shifted, y / 400, shifted % 146097, y % 400);
    MonthSteps(y, dayOfYear, m, day);
  }

  /** The conversion gives back every valid date. */
  lemma {:induction false} CivilOfDays(d: Date)
    requires IsValid(d)
    ensures Civil(Days(d.year, d.month, d.day)) == d
  {
    var days := Days(d.year, d.month, d.day);
    CivilOfNumber(d, days);
  }

  lemma {:induction false} CivilOfNumber(d: Date, days: int)
    requires IsValid(d) && days == Days(d.year, d.month, d.day)
    ensures Civil(days) == d
  {
    var y, m := MarchParts(d);
    DaysFromStarts(d.year, d.month, d.day);
    CivilFromParts(y, m, d.day, days);
  }

  /** And every day's date is valid, is the one counted to, and has that number. */
  lemma {:induction false} DaysOfCivil(n: int)
    ensures var d := Civil(n); d == DateOf(n) && IsValid(d) && Days(d.year, d.month, d.day) == n
  {
    DaysCounts(n);
    CivilOfDays(DateOf(n));
  }

  // ----- The order of dates

  predicate Earlier(a: Date, b: Date) {
    a.year < b.year || (a.year == b.year && (a.month < b.month || (a.month == b.month && a.day < b.day)))
  }

  lemma {:induction false} DateOfNext(n: int)
    ensures DateOf(n + 1) == Next(DateOf(n))
  {
  }

  lemma {:induction false} DatesInOrder(m: int, n: int)
    requires m < n
    ensures Earlier(DateOf(m), DateOf(n))
    decreases n - m
  {
    DateOfNext(n - 1);
    if m < n - 1 {
      DatesInOrder(m, n - 1);
    }
  }

  /** Dates are numbered in order. */
  lemma {:induction false} OrderOfDays(m: int, n: int)
    ensures m < n <==> Earlier(Civil(m), Civil(n))
  {
    DaysOfCivil(m);
    DaysOfCivil(n);
    if m < n {
      DatesInOrder(m, n);
    } else if n < m {
      DatesInOrder(n, m);
    }
  }
}
