/**
 Timestamps as ECMAScript writes them (ECMA-262 section 21.4.1.32, with expanded years), to and from milliseconds since
 the epoch.
 */
module EcmaIso {
  import opened Utf16
  import opened Wrappers
  import opened Calendar
  import opened Decimal

  const DAY := 86_400_000
  const MAX_INT := 0x7FFF_FFFF
  const T: Unit := 0x54
  const Z: Unit := 0x5A

  // ----- Format

  /** The years, months, days, hours, minutes, seconds and milliseconds of an instant. */
  datatype Parts = Parts(date: Date, hour: int, minute: int, second: int, millisecond: int)

  function PartsOf(epoch: int): Parts {
    var days := Floor(epoch, DAY);
    var time := epoch - days * DAY;
    Parts(Civil(days), Quotient(time, 3600000), Quotient(time, 60000) % 60, Quotient(time, 1000) % 60, time % 1000)
  }

  predicate InRange(p: Parts) {
    && IsValid(p.date) && 0 <= p.hour < 24 && 0 <= p.minute < 60 && 0 <= p.second < 60 && 0 <= p.millisecond < 1000
  }

  function Abs(n: int): nat {
    if n < 0 then -n else n
  }

  function YearText(year: int): Text {
    if 0 <= year <= 9999 then Padded(year, 4) else [if year < 0 then MINUS else PLUS] + Padded(Abs(year), 6)
  }

  function TimeText(p: Parts): Text
    requires InRange(p)
  {
    Padded(p.hour, 2) + ([COLON] + (Padded(p.minute, 2) + ([COLON] + (Padded(p.second, 2)
      + ([DOT] + (Padded(p.millisecond, 3) + [Z]))))))
  }

  function PartsText(p: Parts): Text
    requires InRange(p)
  {
    YearText(p.date.year) + ([MINUS] + (Padded(p.date.month, 2) + ([MINUS] + (Padded(p.date.day, 2) + ([T] + TimeText(p))))))
  }

  lemma {:induction false} TimeParts(time: int)
    requires 0 <= time < DAY
    ensures var h, m, s, ms := time / 3600000, time / 60000 % 60, time / 1000 % 60, time % 1000;
      && 0 <= h < 24 && 0 <= m < 60 && 0 <= s < 60 && 0 <= ms < 1000
      && ((h * 60 + m) * 60 + s) * 1000 + ms == time
  {
    var seconds := time / 1000;
    var minutes := seconds / 60;
    Unique(time, 60000, minutes, seconds % 60 * 1000 + time % 1000);
    Unique(time, 3600000, minutes / 60, minutes % 60 * 60000 + seconds % 60 * 1000 + time % 1000);
  }

  /** The instant its parts stand for. */
  function InstantOf(p: Parts): int {
    Days(p.date.year, p.date.month, p.date.day) * DAY
      + ((p.hour * 60 + p.minute) * 60 + p.second) * 1000 + p.millisecond
  }

  lemma {:induction false} PartsInRange(epoch: int)
    ensures InRange(PartsOf(epoch)) && InstantOf(PartsOf(epoch)) == epoch
    ensures PartsOf(epoch).date == Civil(epoch / DAY)
  {
    FloorIsFloor(epoch, DAY);
    TimeParts(epoch % DAY);
    DaysOfCivil(epoch / DAY);
    assert epoch == epoch / DAY * DAY + epoch % DAY;
  }

  function Format(epoch: int): Text {
    PartsInRange(epoch);
    PartsText(PartsOf(epoch))
  }

  // ----- Epoch

  /** int.Parse of a span; nothing where the source throws. */
  function Number(s: Text, start: int, length: nat): Option<nat> {
    if start < 0 || start + length > |s| then None else TryParse(s[start..start + length], MAX_INT)
  }

  function PadRight(s: Text): (t: Text)
    ensures 3 <= |t|
  {
    s + if |s| >= 3 then [] else if |s| == 2 then [ZERO] else if |s| == 1 then [ZERO, ZERO] else [ZERO, ZERO, ZERO]
  }

  function Milliseconds(s: Text, start: nat, end: int): Option<nat>
    requires end <= |s|
  {
    if start < end && s[start] == DOT then TryParse(PadRight(s[start + 1..end])[..3], MAX_INT) else Some(0)
  }

  /** The minutes that a text's end is ahead of Coordinated Universal Time. */
  function Offset(s: Text): Option<int>
    requires s != []
  {
    if s[|s| - 1] == Z then Some(0)
    else
      var end := |s| - 6;
      if end < 0 then None
      else match (Number(s, end + 1, 2), Number(s, end + 4, 2))
        case (Some(hours), Some(minutes)) =>
          var ahead: int := hours * 60 + minutes;
          Some(if s[end] == PLUS then ahead else -ahead)
        case _ => None
  }

  predicate IsSigned(s: Text) {
    s != [] && (s[0] == PLUS || s[0] == MINUS)
  }

  function YearOf(s: Text): Option<int>
    requires s != []
  {
    if !IsSigned(s) then
      match Number(s, 0, 4) case Some(n) => Some(n) case None => None
    else
      match Number(s, 1, 6) case Some(n) => Some(n * if s[0] == MINUS then -1 else 1) case None => None
  }

  /** A month, day, hour, minute and second. */
  type Fields = (nat, nat, nat, nat, nat)

  /** The fields after a year of `k` units. */
  function FieldsOf(s: Text, k: nat): Option<Fields> {
    match (Number(s, k + 1, 2), Number(s, k + 4, 2), Number(s, k + 7, 2), Number(s, k + 10, 2), Number(s, k + 13, 2))
    case (Some(month), Some(day), Some(hour), Some(minute), Some(second)) => Some((month, day, hour, minute, second))
    case _ => None
  }

  /** The length of a text's year. */
  function YearWidth(s: Text): nat {
    if IsSigned(s) then 7 else 4
  }

  /** Where a text's milliseconds end. */
  function End(s: Text): int
    requires s != []
  {
    if s[|s| - 1] == Z then |s| - 1 else |s| - 6
  }

  /** The instant of a year, its month, day, hour, minute and second, and milliseconds, so many minutes ahead. */
  function InstantAt(year: int, fields: Fields, millisecond: nat, offset: int): int {
    var (month, day, hour, minute, second) := fields;
    Moment(Days(year, month, day), hour, minute, second, millisecond, offset)
  }

  /** The instant of a day and a time of day, so many minutes ahead. */
  function Moment(days: int, hour: nat, minute: nat, second: nat, millisecond: nat, offset: int): int {
    days * DAY + ((hour * 60 + minute - offset) * 60 + second) * 1000 + millisecond
  }

  function Epoch(s: Text): Option<int> {
    if s == [] then None
    else
      match (YearOf(s), FieldsOf(s, YearWidth(s)), Milliseconds(s, YearWidth(s) + 15, End(s)), Offset(s))
      case (Some(year), Some(fields), Some(millisecond), Some(offset)) =>
        Some(InstantAt(year, fields, millisecond, offset))
      case _ => None
  }

  function Normalize(s: Text): Option<Text> {
    match Epoch(s)
    case None => None
    case Some(epoch) => Some(Format(epoch))
  }

  // ----- Epoch undoes Format

  lemma {:induction false} TwoDigits(n: nat)
    requires n < 100
    ensures Padded(n, 2) == [Digit(n / 10), Digit(n % 10)]
  {
    assert Padded(n / 10, 1) == [Digit(n / 10)];
  }

  lemma {:induction false} ThreeDigits(n: nat)
    requires n < 1000
    ensures Padded(n, 3) == [Digit(n / 10 / 10), Digit(n / 10 % 10), Digit(n % 10)]
  {
    TwoDigits(n / 10);
  }

  /** The text after the year, unit by unit. */
  function Layout(month: Text, day: Text, hour: Text, minute: Text, second: Text, ms: Text): Text
    requires |month| == |day| == |hour| == |minute| == |second| == 2 && |ms| == 3
  {
    [MINUS, month[0], month[1], MINUS, day[0], day[1], T, hour[0], hour[1], COLON, minute[0], minute[1], COLON, second[0],
     second[1], DOT, ms[0], ms[1], ms[2], Z]
  }

  lemma {:induction false} TextLayout(month: Text, day: Text, hour: Text, minute: Text, second: Text, ms: Text)
    requires |month| == |day| == |hour| == |minute| == |second| == 2 && |ms| == 3
    ensures [MINUS] + (month + ([MINUS] + (day + ([T] + (hour + ([COLON] + (minute + ([COLON] + (second
              + ([DOT] + (ms + [Z]))))))))))) == Layout(month, day, hour, minute, second, ms)
  {
  }

  lemma {:induction false} PaddedWidths(p: Parts)
    requires InRange(p)
    ensures |Padded(p.date.month, 2)| == |Padded(p.date.day, 2)| == |Padded(p.hour, 2)| == |Padded(p.minute, 2)|
         == |Padded(p.second, 2)| == 2
    ensures |Padded(p.millisecond, 3)| == 3
  {
    TwoDigits(p.date.month);
    TwoDigits(p.date.day);
    TwoDigits(p.hour);
    TwoDigits(p.minute);
    TwoDigits(p.second);
    ThreeDigits(p.millisecond);
  }

  lemma {:induction false} PunctuationIs()
    ensures Units("-") == [MINUS] && Units("+") == [PLUS] && Units(":") == [COLON] && Units(".") == [DOT]
    ensures Units("T") == [T] && Units("Z") == [Z]
  {
  }

  /** Where the punctuation of ECMA-262, section 21.4.1.32, stands in a formatted instant. */
  lemma {:induction false} FormatIs(epoch: int, p: Parts)
    requires p == PartsOf(epoch)
    ensures InRange(p)
    ensures Format(epoch) ==
            YearText(p.date.year) + (Units("-") + (Padded(p.date.month, 2) + (Units("-") + (Padded(p.date.day, 2)
            + (Units("T") + TimeText(p))))))
    ensures TimeText(p) ==
            Padded(p.hour, 2) + (Units(":") + (Padded(p.minute, 2) + (Units(":") + (Padded(p.second, 2)
            + (Units(".") + (Padded(p.millisecond, 3) + Units("Z")))))))
  {
    PartsInRange(epoch);
    PunctuationIs();
  }

  /** The spans that Epoch reads from a laid out text. */
  lemma {:induction false} Spans(year: Text, month: Text, day: Text, hour: Text, minute: Text, second: Text, ms: Text)
    requires |month| == |day| == |hour| == |minute| == |second| == 2 && |ms| == 3
    ensures var s, k := year + Layout(month, day, hour, minute, second, ms), |year|;
      && |s| == k + 20 && s[k + 1..k + 3] == month && s[k + 4..k + 6] == day && s[k + 7..k + 9] == hour
      && s[k + 10..k + 12] == minute && s[k + 13..k + 15] == second && s[k + 15] == DOT && s[k + 16..k + 19] == ms
      && s[k + 19] == Z && s[..k] == year
  {
    var tail := Layout(month, day, hour, minute, second, ms);
    SpanAfter(year, tail, 1, 3);
    SpanAfter(year, tail, 4, 6);
    SpanAfter(year, tail, 7, 9);
    SpanAfter(year, tail, 10, 12);
    SpanAfter(year, tail, 13, 15);
    SpanAfter(year, tail, 16, 19);
    assert tail[1..3] == month && tail[4..6] == day && tail[7..9] == hour && tail[10..12] == minute;
    assert tail[13..15] == second && tail[16..19] == ms;
  }

  lemma {:induction false} SpanAfter(a: Text, b: Text, i: nat, j: nat)
    requires i <= j <= |b|
    ensures (a + b)[|a| + i..|a| + j] == b[i..j]
  {
  }

  /** A year that four digits, or a sign and six, can write. */
  predicate IsWritable(year: int) {
    -999999 <= year <= 999999
  }

  lemma {:induction false} Powers()
    ensures Power(2) == 100 && Power(3) == 1000 && Power(4) == 10_000 && Power(6) == 1_000_000
  {
    assert Power(1) == 10 * Power(0);
    assert Power(3) == 10 * Power(2);
    assert Power(5) == 10 * Power(4);
  }

  lemma {:induction false} YearReadsBack(year: int, rest: Text)
    requires IsWritable(year)
    ensures var s := YearText(year) + rest;
      s != [] && |YearText(year)| == YearWidth(s) && YearOf(s) == Some(year)
  {
    var s := YearText(year) + rest;
    Powers();
    if 0 <= year <= 9999 {
      PaddedLength(year, 4);
      assert s[0] == Padded(year, 4)[0] && Padded(year, 4)[0] in Padded(year, 4);
      assert s[0..4] == Padded(year, 4);
      ParseOfPadded(year, 4, MAX_INT);
    } else {
      PaddedLength(Abs(year), 6);
      assert s[1..7] == Padded(Abs(year), 6);
      ParseOfPadded(Abs(year), 6, MAX_INT);
    }
  }

  lemma {:induction false} NumberReadsBack(s: Text, start: nat, width: nat, n: nat)
    requires start + width <= |s| && s[start..start + width] == Padded(n, width) && n <= MAX_INT
    ensures Number(s, start, width) == Some(n)
  {
    ParseOfPadded(n, width, MAX_INT);
  }

  lemma {:induction false} PartsLaidOut(p: Parts)
    requires InRange(p)
    ensures var month, day, hour := Padded(p.date.month, 2), Padded(p.date.day, 2), Padded(p.hour, 2);
            var minute, second, ms := Padded(p.minute, 2), Padded(p.second, 2), Padded(p.millisecond, 3);
      && |month| == |day| == |hour| == |minute| == |second| == 2 && |ms| == 3
      && PartsText(p) == YearText(p.date.year) + Layout(month, day, hour, minute, second, ms)
  {
    PaddedWidths(p);
    TextLayout(Padded(p.date.month, 2), Padded(p.date.day, 2), Padded(p.hour, 2), Padded(p.minute, 2),
               Padded(p.second, 2), Padded(p.millisecond, 3));
  }

  /** The spans of a part's text. */
  lemma {:induction false} PartsSpans(p: Parts) returns (k: nat)
    requires InRange(p)
    ensures k == |YearText(p.date.year)|
    ensures var s := PartsText(p);
      && |s| == k + 20 && s[..k] == YearText(p.date.year)
      && s[k + 1..k + 3] == Padded(p.date.month, 2) && s[k + 4..k + 6] == Padded(p.date.day, 2)
      && s[k + 7..k + 9] == Padded(p.hour, 2) && s[k + 10..k + 12] == Padded(p.minute, 2)
      && s[k + 13..k + 15] == Padded(p.second, 2) && s[k + 15] == DOT
      && s[k + 16..k + 19] == Padded(p.millisecond, 3) && s[k + 19] == Z
  {
    k := |YearText(p.date.year)|;
    PartsLaidOut(p);
    Spans(YearText(p.date.year), Padded(p.date.month, 2), Padded(p.date.day, 2), Padded(p.hour, 2), Padded(p.minute, 2),
          Padded(p.second, 2), Padded(p.millisecond, 3));
  }

  /** What Epoch reads from a text. */
  predicate Reads(s: Text, year: int, fields: Fields, millisecond: nat, offset: int) {
    && s != [] && YearOf(s) == Some(year) && FieldsOf(s, YearWidth(s)) == Some(fields)
    && Milliseconds(s, YearWidth(s) + 15, End(s)) == Some(millisecond) && Offset(s) == Some(offset)
  }

  lemma {:induction false} EpochReads(s: Text, year: int, fields: Fields, millisecond: nat, offset: int)
    requires Reads(s, year, fields, millisecond, offset)
    ensures Epoch(s) == Some(InstantAt(year, fields, millisecond, offset))
  {
  }

  lemma {:induction false} YearOfParts(p: Parts, s: Text)
    requires InRange(p) && IsWritable(p.date.year) && s == PartsText(p)
    ensures s != [] && YearOf(s) == Some(p.date.year) && YearWidth(s) == |YearText(p.date.year)|
  {
    YearReadsBack(p.date.year,
                  [MINUS] + (Padded(p.date.month, 2) + ([MINUS] + (Padded(p.date.day, 2) + ([T] + TimeText(p))))));
  }

  function FieldsOfParts(p: Parts): Fields
    requires InRange(p)
  {
    (p.date.month, p.date.day, p.hour, p.minute, p.second)
  }

  lemma {:induction false} FieldsReadBack(p: Parts, s: Text)
    requires InRange(p) && s == PartsText(p)
    ensures FieldsOf(s, |YearText(p.date.year)|) == Some(FieldsOfParts(p))
  {
    var k := PartsSpans(p);
    NumberReadsBack(s, k + 1, 2, p.date.month);
    NumberReadsBack(s, k + 4, 2, p.date.day);
    NumberReadsBack(s, k + 7, 2, p.hour);
    NumberReadsBack(s, k + 10, 2, p.minute);
    NumberReadsBack(s, k + 13, 2, p.second);
  }

  lemma {:induction false} MillisecondsReadBack(p: Parts, s: Text)
    requires InRange(p) && s == PartsText(p)
    ensures s != [] && s[|s| - 1] == Z && |s| == |YearText(p.date.year)| + 20
    ensures Milliseconds(s, |YearText(p.date.year)| + 15, |s| - 1) == Some(p.millisecond)
  {
    var k := PartsSpans(p);
    var ms := Padded(p.millisecond, 3);
    assert s[k + 16..|s| - 1] == ms;
    PaddedWidths(p);
    assert PadRight(ms)[..3] == ms;
    ParseOfPadded(p.millisecond, 3, MAX_INT);
  }

  lemma {:induction false} PartsReadBack(p: Parts, s: Text)
    requires InRange(p) && IsWritable(p.date.year) && s == PartsText(p)
    ensures |s| == YearWidth(s) + 20 && s[|s| - 1] == Z
    ensures Reads(s, p.date.year, FieldsOfParts(p), p.millisecond, 0)
  {
    YearOfParts(p, s);
    FieldsReadBack(p, s);
    MillisecondsReadBack(p, s);
  }

  lemma {:induction false} InstantOfFields(p: Parts)
    requires InRange(p)
    ensures InstantAt(p.date.year, FieldsOfParts(p), p.millisecond, 0) == InstantOf(p)
  {
  }

  /** The instant at which a year begins. */
  function StartOf(year: int): int {
    Days(year, 1, 1) * DAY
  }

  /** The instants of some years are those from the beginning of the first to that of the year after the last. */
  lemma {:induction false} InstantsOfYears(epoch: int, first: int, last: int)
    ensures StartOf(first) <= epoch < StartOf(last + 1) <==> first <= PartsOf(epoch).date.year <= last
  {
    PartsInRange(epoch);
    YearBegins(epoch / DAY, first);
    YearBegins(epoch / DAY, last + 1);
  }

  lemma {:induction false} YearBegins(n: int, year: int)
    ensures Days(year, 1, 1) <= n <==> year <= Civil(n).year
  {
    CivilOfDays(Date(year, 1, 1));
    DaysOfCivil(n);
    OrderOfDays(n, Days(year, 1, 1));
  }

  /** The instants of the years that six digits can write. */
  predicate IsWritableInstant(epoch: int) {
    StartOf(-999999) <= epoch < StartOf(1000000)
  }

  /** Reading a formatted instant gives the instant, for every year of up to six digits. */
  lemma {:induction false} EpochOfFormat(epoch: int)
    requires IsWritableInstant(epoch)
    ensures Epoch(Format(epoch)) == Some(epoch)
  {
    InstantsOfYears(epoch, -999999, 999999);
    PartsInRange(epoch);
    PartsReadBack(PartsOf(epoch), Format(epoch));
    EpochReads(Format(epoch), PartsOf(epoch).date.year, FieldsOfParts(PartsOf(epoch)), PartsOf(epoch).millisecond, 0);
    InstantOfFields(PartsOf(epoch));
  }

  lemma {:induction false} YearTextInjective(a: int, b: int)
    requires YearText(a) == YearText(b)
    ensures a == b
  {
    var m, n := Padded(Abs(a), if 0 <= a <= 9999 then 4 else 6), Padded(Abs(b), if 0 <= b <= 9999 then 4 else 6);
    ValueOfPadded(Abs(a), if 0 <= a <= 9999 then 4 else 6);
    ValueOfPadded(Abs(b), if 0 <= b <= 9999 then 4 else 6);
    assert m[0] in m && n[0] in n;
    assert 0 <= a <= 9999 <==> !IsSigned(YearText(a));
    assert 0 <= b <= 9999 <==> !IsSigned(YearText(b));
    if IsSigned(YearText(a)) {
      assert YearText(a)[1..] == m && YearText(b)[1..] == n;
    }
  }

  /** Different instants have different texts, whatever their years. */
  lemma {:induction false} FormatInjective(m: int, n: int)
    requires Format(m) == Format(n)
    ensures m == n
  {
    PartsInRange(m);
    PartsInRange(n);
    var a, b := PartsOf(m), PartsOf(n);
    var k := PartsSpans(a);
    var l := PartsSpans(b);
    YearTextInjective(a.date.year, b.date.year);
    ValuesOfParts(a);
    ValuesOfParts(b);
  }

  lemma {:induction false} ValuesOfParts(p: Parts)
    requires InRange(p)
    ensures Value(Padded(p.date.month, 2)) == p.date.month && Value(Padded(p.date.day, 2)) == p.date.day
    ensures Value(Padded(p.hour, 2)) == p.hour && Value(Padded(p.minute, 2)) == p.minute
    ensures Value(Padded(p.second, 2)) == p.second && Value(Padded(p.millisecond, 3)) == p.millisecond
  {
    ValueOfPadded(p.date.month, 2);
    ValueOfPadded(p.date.day, 2);
    ValueOfPadded(p.hour, 2);
    ValueOfPadded(p.minute, 2);
    ValueOfPadded(p.second, 2);
    ValueOfPadded(p.millisecond, 3);
  }

  /** Texts normalize to the same text exactly when they stand for the same instant. */
  lemma {:induction false} NormalizeIsInstant(s: Text, t: Text)
    ensures Normalize(s) == Normalize(t) <==> Epoch(s) == Epoch(t)
  {
    if Epoch(s).Some? && Epoch(t).Some? && Normalize(s) == Normalize(t) {
      FormatInjective(Epoch(s).value, Epoch(t).value);
    }
  }

  // ----- Normalizing twice

  lemma {:induction false} NumberBelow(s: Text, start: int, length: nat)
    requires Number(s, start, length).Some?
    ensures Number(s, start, length).value < Power(length)
  {
    ParsedBelow(s[start..start + length], MAX_INT);
  }

  lemma {:induction false} FieldsBelow(s: Text, k: nat)
    requires FieldsOf(s, k).Some?
    ensures var (month, day, hour, minute, second) := FieldsOf(s, k).value;
      month < 100 && day < 100 && hour < 100 && minute < 100 && second < 100
  {
    Powers();
    NumberBelow(s, k + 1, 2);
    NumberBelow(s, k + 4, 2);
    NumberBelow(s, k + 7, 2);
    NumberBelow(s, k + 10, 2);
    NumberBelow(s, k + 13, 2);
  }

  lemma {:induction false} YearBelow(s: Text)
    requires s != [] && YearOf(s).Some?
    ensures IsWritable(YearOf(s).value)
  {
    Powers();
    if IsSigned(s) {
      NumberBelow(s, 1, 6);
    } else {
      NumberBelow(s, 0, 4);
    }
  }

  lemma {:induction false} MillisecondsBelow(s: Text, start: nat, end: int)
    requires end <= |s| && Milliseconds(s, start, end).Some?
    ensures Milliseconds(s, start, end).value < 1000
  {
    Powers();
    if start < end && s[start] == DOT {
      ParsedBelow(PadRight(s[start + 1..end])[..3], MAX_INT);
    }
  }

  lemma {:induction false} OffsetBelow(s: Text)
    requires s != [] && Offset(s).Some?
    ensures -6100 < Offset(s).value < 6100
  {
    Powers();
    if s[|s| - 1] != Z {
      NumberBelow(s, |s| - 5, 2);
      NumberBelow(s, |s| - 2, 2);
    }
  }

  lemma {:induction false} DaysBetween(year: int, month: int, day: int)
    requires IsWritable(year) && 0 <= month < 100 && 0 <= day < 100
    ensures -370_000_000 < Days(year, month, day) < 370_000_000
  {
    DaysFromStarts(year, month, day);
  }

  lemma {:induction false} EpochLimits(s: Text)
    requires Epoch(s).Some?
    ensures -370_000_010 * DAY < Epoch(s).value < 370_000_010 * DAY
  {
    var year, fields := YearOf(s).value, FieldsOf(s, YearWidth(s)).value;
    YearBelow(s);
    FieldsBelow(s, YearWidth(s));
    MillisecondsBelow(s, YearWidth(s) + 15, End(s));
    OffsetBelow(s);
    DaysBetween(year, fields.0, fields.1);
    EpochReads(s, year, fields, Milliseconds(s, YearWidth(s) + 15, End(s)).value, Offset(s).value);
  }

  /** The instants that texts stand for lie in years of up to seven digits. */
  lemma {:induction false} EpochBetween(s: Text)
    requires Epoch(s).Some?
    ensures -9_999_999 <= PartsOf(Epoch(s).value).date.year <= 9_999_999
  {
    EpochLimits(s);
    DaysFromStarts(-9_999_999, 1, 1);
    DaysFromStarts(10_000_000, 1, 1);
    InstantsOfYears(Epoch(s).value, -9_999_999, 9_999_999);
  }

  /** A year of seven digits is written, but the digits after the sixth are read as what follows a year. */
  lemma {:induction false} SevenDigitsDoNotRead(p: Parts)
    requires InRange(p) && 1_000_000 <= Abs(p.date.year) <= 9_999_999
    ensures Epoch(PartsText(p)) == None
  {
    var s, year := PartsText(p), Abs(p.date.year);
    Powers();
    assert Power(7) == 10 * Power(6);
    PaddedLength(year, 7);
    PaddedWider(year, 6);
    var k := PartsSpans(p);
    PartsLaidOut(p);
    assert k == 8 && s[8] == MINUS && IsSigned(s);
    assert s[8..10][0] == MINUS;
    SignDoesNotParse(s[8..10], MAX_INT);
  }

  lemma {:induction false} PaddedWider(n: nat, width: nat)
    requires Power(width) <= n
    ensures Padded(n, width) == Padded(n, width + 1)
    decreases n
  {
    PowerGrows(0, width);
    if width > 0 && n >= 10 {
      PaddedWider(n / 10, width - 1);
    }
  }

  lemma {:induction false} SignDoesNotParse(s: Text, maximum: nat)
    requires s != [] && s[0] == MINUS
    ensures TryParse(s, maximum) == None
  {
    UnpaddedKeepsFirst(s);
    assert MINUS in Unpadded(s);
  }

  lemma {:induction false} UnpaddedKeepsFirst(s: Text)
    requires s != [] && s[0] != NUL
    ensures Unpadded(s) != [] && Unpadded(s)[0] == s[0]
  {
    if s[|s| - 1] == NUL {
      UnpaddedKeepsFirst(s[..|s| - 1]);
    }
  }

  lemma {:induction false} UnwritableDoesNotRead(epoch: int)
    requires !IsWritableInstant(epoch) && -9_999_999 <= PartsOf(epoch).date.year <= 9_999_999
    ensures Epoch(Format(epoch)) == None
  {
    InstantsOfYears(epoch, -999999, 999999);
    PartsInRange(epoch);
    SevenDigitsDoNotRead(PartsOf(epoch));
  }

  /** Normalizing twice is normalizing once exactly when six digits can write the year; otherwise the second time fails. */
  lemma {:induction false} NormalizeIdempotent(s: Text)
    requires Epoch(s).Some?
    ensures Normalize(Normalize(s).value) == Normalize(s) <==> IsWritableInstant(Epoch(s).value)
    ensures !IsWritableInstant(Epoch(s).value) ==> Normalize(Normalize(s).value) == None
  {
    var epoch := Epoch(s).value;
    NormalizeAgain(s, epoch, Format(epoch));
    if IsWritableInstant(epoch) {
      EpochOfFormat(epoch);
    } else {
      EpochBetween(s);
      UnwritableDoesNotRead(epoch);
    }
  }

  lemma {:induction false} NormalizeAgain(s: Text, epoch: int, t: Text)
    requires Epoch(s) == Some(epoch) && t == Format(epoch)
    ensures Normalize(s) == Some(t) && Normalize(t) == match Epoch(t) case None => None case Some(e) => Some(Format(e))
  {
  }

  /** An unsigned year has four digits, so its text stands for an instant that six digits can write. */
  lemma {:induction false} UnsignedIsWritable(s: Text)
    requires Epoch(s).Some? && !IsSigned(s)
    ensures IsWritableInstant(Epoch(s).value)
  {
    UnsignedLimits(s);
    DaysFromStarts(-999999, 1, 1);
    DaysFromStarts(1000000, 1, 1);
  }

  lemma {:induction false} UnsignedLimits(s: Text)
    requires Epoch(s).Some? && !IsSigned(s)
    ensures -5_000_000 * DAY < Epoch(s).value < 5_000_000 * DAY
  {
    var year, fields := YearOf(s).value, FieldsOf(s, 4).value;
    Powers();
    NumberBelow(s, 0, 4);
    FieldsBelow(s, 4);
    MillisecondsBelow(s, 19, End(s));
    OffsetBelow(s);
    ShortYearDays(year, fields.0, fields.1);
    EpochReads(s, year, fields, Milliseconds(s, 19, End(s)).value, Offset(s).value);
  }

  lemma {:induction false} ShortYearDays(year: int, month: int, day: int)
    requires 0 <= year < 10_000 && 0 <= month < 100 && 0 <= day < 100
    ensures -4_000_000 < Days(year, month, day) < 4_000_000
  {
    DaysFromStarts(year, month, day);
  }

  /** So every text with an unsigned year that is read normalizes to a text that normalizes to itself. */
  lemma {:induction false} UnsignedNormalizesOnce(s: Text)
    requires Epoch(s).Some? && !IsSigned(s)
    ensures Normalize(Normalize(s).value) == Normalize(s)
  {
    UnsignedIsWritable(s);
    NormalizeIdempotent(s);
  }

  /** Two texts begin with the same `n` units. */
  predicate Agree(s: Text, t: Text, n: nat) {
    n <= |s| && n <= |t| && forall i :: 0 <= i < n ==> s[i] == t[i]
  }

  lemma {:induction false} NumberAlike(s: Text, t: Text, n: nat, start: nat, length: nat)
    requires Agree(s, t, n) && start + length <= n
    ensures Number(s, start, length) == Number(t, start, length)
  {
    assert s[start..start + length] == t[start..start + length];
  }

  lemma {:induction false} SpansAlike(s: Text, t: Text, n: nat, k: nat)
    requires Agree(s, t, n) && k + 15 <= n
    ensures s[k + 1..k + 3] == t[k + 1..k + 3] && s[k + 4..k + 6] == t[k + 4..k + 6]
    ensures s[k + 7..k + 9] == t[k + 7..k + 9] && s[k + 10..k + 12] == t[k + 10..k + 12]
    ensures s[k + 13..k + 15] == t[k + 13..k + 15]
  {
  }

  lemma {:induction false} FieldsAlike(s: Text, t: Text, k: nat)
    requires k + 15 <= |s| && k + 15 <= |t|
    requires s[k + 1..k + 3] == t[k + 1..k + 3] && s[k + 4..k + 6] == t[k + 4..k + 6]
    requires s[k + 7..k + 9] == t[k + 7..k + 9] && s[k + 10..k + 12] == t[k + 10..k + 12]
    requires s[k + 13..k + 15] == t[k + 13..k + 15]
    ensures FieldsOf(s, k) == FieldsOf(t, k)
  {
  }

  lemma {:induction false} YearAlike(s: Text, t: Text, n: nat)
    requires Agree(s, t, n) && 7 <= n
    ensures IsSigned(s) == IsSigned(t) && YearOf(s) == YearOf(t)
  {
    NumberAlike(s, t, n, if IsSigned(t) then 1 else 0, if IsSigned(t) then 6 else 4);
  }

  lemma {:induction false} MillisecondsAlike(s: Text, t: Text, n: nat, start: nat)
    requires Agree(s, t, n)
    ensures Milliseconds(s, start, n) == Milliseconds(t, start, n)
  {
    if start < n {
      assert s[start + 1..n] == t[start + 1..n];
    }
  }

  /** A text with an offset for its Z. */
  function WithOffset(t: Text, offset: Text): Text
    requires t != []
  {
    t[..|t| - 1] + offset
  }

  lemma {:induction false} OffsetAlike(s: Text, body: Text, offset: Text)
    requires |offset| == 6 && offset[5] != Z && s == body + offset
    ensures s[|s| - 1] == offset[5] && Offset(s) == Offset(offset)
  {
    var n := |body|;
    assert s[n] == offset[0];
    SpanAfter(body, offset, 1, 3);
    SpanAfter(body, offset, 4, 6);
  }

  lemma {:induction false} ReadsAlike(s: Text, t: Text, year: int, fields: Fields, millisecond: nat, offset: int)
    requires |t| > YearWidth(t) + 15 && t[|t| - 1] == Z && Reads(t, year, fields, millisecond, 0)
    requires Agree(s, t, |t| - 1) && End(s) == |t| - 1 && Offset(s) == Some(offset)
    ensures Reads(s, year, fields, millisecond, offset)
  {
    var n := |t| - 1;
    YearAlike(s, t, n);
    SpansAlike(s, t, n, YearWidth(t));
    FieldsAlike(s, t, YearWidth(t));
    MillisecondsAlike(s, t, n, YearWidth(t) + 15);
  }

  lemma {:induction false} OffsetMoves(days: int, hour: nat, minute: nat, second: nat, millisecond: nat, offset: int)
    ensures Moment(days, hour, minute, second, millisecond, offset)
         == Moment(days, hour, minute, second, millisecond, 0) - offset * 60000
  {
  }

  lemma {:induction false} ReadsOf(t: Text) returns (year: int, fields: Fields, millisecond: nat)
    requires t != [] && t[|t| - 1] == Z && Epoch(t).Some?
    ensures Reads(t, year, fields, millisecond, 0) && Epoch(t) == Some(InstantAt(year, fields, millisecond, 0))
  {
    year, fields := YearOf(t).value, FieldsOf(t, YearWidth(t)).value;
    millisecond := Milliseconds(t, YearWidth(t) + 15, End(t)).value;
    EpochReads(t, year, fields, millisecond, 0);
  }

  lemma {:induction false} EpochOfAlike(s: Text, t: Text, offset: Text, year: int, fields: Fields, millisecond: nat,
                                        minutes: int)
    requires |t| > YearWidth(t) + 15 && t[|t| - 1] == Z && Reads(t, year, fields, millisecond, 0)
    requires |offset| == 6 && offset[5] != Z && Offset(offset) == Some(minutes) && s == WithOffset(t, offset)
    ensures Epoch(s) == Some(InstantAt(year, fields, millisecond, minutes))
  {
    OffsetAlike(s, t[..|t| - 1], offset);
    ReadsAlike(s, t, year, fields, millisecond, minutes);
    EpochReads(s, year, fields, millisecond, minutes);
  }

  lemma {:induction false} Takes(before: Option<int>, after: Option<int>, days: int, fields: Fields, millisecond: nat,
                                 minutes: int)
    requires before == Some(Moment(days, fields.2, fields.3, fields.4, millisecond, 0))
    requires after == Some(Moment(days, fields.2, fields.3, fields.4, millisecond, minutes))
    ensures after == Some(before.value - minutes * 60000)
  {
    OffsetMoves(days, fields.2, fields.3, fields.4, millisecond, minutes);
  }

  /** An offset in the place of a text's Z takes its minutes off the instant. */
  lemma {:induction false} EpochOfShifted(t: Text, s: Text, offset: Text, minutes: int)
    requires |t| > YearWidth(t) + 15 && t[|t| - 1] == Z && Epoch(t).Some?
    requires |offset| == 6 && offset[5] != Z && Offset(offset) == Some(minutes) && s == WithOffset(t, offset)
    ensures Epoch(s) == Some(Epoch(t).value - minutes * 60000)
  {
    var year, fields, ms := ReadsOf(t);
    EpochOfAlike(s, t, offset, year, fields, ms, minutes);
    Takes(Epoch(t), Epoch(s), Days(year, fields.0, fields.1), fields, ms, minutes);
  }

  lemma {:induction false} FormatEndsInZ(epoch: int)
    requires IsWritableInstant(epoch)
    ensures var t := Format(epoch); |t| == YearWidth(t) + 20 && t[|t| - 1] == Z
  {
    InstantsOfYears(epoch, -999999, 999999);
    PartsInRange(epoch);
    PartsReadBack(PartsOf(epoch), Format(epoch));
  }

  const MINUTE_BEHIND: Text := [MINUS, ZERO, ZERO, COLON, ZERO, 0x31]

  lemma {:induction false} MinuteBehind()
    ensures Offset(MINUTE_BEHIND) == Some(-1)
  {
    NumberReadsBack(MINUTE_BEHIND, 1, 2, 0);
    NumberReadsBack(MINUTE_BEHIND, 4, 2, 1);
  }

  lemma {:induction false} YearsAscend(a: int, b: int)
    requires a < b
    ensures StartOf(a) < StartOf(b)
  {
    YearBegins(Days(a, 1, 1), b);
    CivilOfDays(Date(a, 1, 1));
  }

  lemma {:induction false} FailsTwice(t: Text, last: int)
    requires |t| > YearWidth(t) + 15 && t[|t| - 1] == Z && Epoch(t) == Some(last)
    requires last + 1 == StartOf(1000000) && Offset(MINUTE_BEHIND) == Some(-1)
    ensures var s := WithOffset(t, MINUTE_BEHIND); Epoch(s).Some? && Normalize(Normalize(s).value) == None
  {
    EpochOfShifted(t, WithOffset(t, MINUTE_BEHIND), MINUTE_BEHIND, -1);
    NormalizeIdempotent(WithOffset(t, MINUTE_BEHIND));
  }

  /** The last millisecond that six digits can write, with the offset -00:01 for its Z, +999999-12-31T23:59:59.999-00:01,
      stands for an instant of the year 1000000, whose text stands for none. */
  lemma {:induction false} NormalizeFailsTwice(last: int)
    requires last + 1 == StartOf(1000000)
    ensures var t := Format(last); t != [] && var s := WithOffset(t, MINUTE_BEHIND);
      Epoch(s).Some? && Normalize(Normalize(s).value) == None
  {
    YearsAscend(-999999, 1000000);
    EpochOfFormat(last);
    FormatEndsInZ(last);
    MinuteBehind();
    FailsTwice(Format(last), last);
  }

  // ----- The order of texts

  predicate EarlierTime(a: Parts, b: Parts) {
    || a.hour < b.hour
    || (a.hour == b.hour
        && (a.minute < b.minute
            || (a.minute == b.minute
                && (a.second < b.second || (a.second == b.second && a.millisecond < b.millisecond)))))
  }

  lemma {:induction false} SeparatedInOrder(m: nat, n: nat, width: nat, separator: Unit, x: Text, y: Text)
    requires 0 < width && m < Power(width) && n < Power(width)
    ensures Below(Padded(m, width) + ([separator] + x), Padded(n, width) + ([separator] + y)) <==>
            m < n || (m == n && Below(x, y))
  {
    PaddedInOrder(m, n, width);
    PaddedLength(m, width);
    PaddedLength(n, width);
    BelowJoined(Padded(m, width), Padded(n, width), [separator] + x, [separator] + y);
    BelowJoined([separator], [separator], x, y);
    BelowOne(separator, separator);
  }

  lemma {:induction false} TimesInOrder(a: Parts, b: Parts)
    requires InRange(a) && InRange(b)
    ensures Below(TimeText(a), TimeText(b)) <==> EarlierTime(a, b)
  {
    Powers();
    var a1, b1 := Padded(a.millisecond, 3) + [Z], Padded(b.millisecond, 3) + [Z];
    var a2, b2 := Padded(a.second, 2) + ([DOT] + a1), Padded(b.second, 2) + ([DOT] + b1);
    var a3, b3 := Padded(a.minute, 2) + ([COLON] + a2), Padded(b.minute, 2) + ([COLON] + b2);
    assert [Z] + [] == [Z];
    SeparatedInOrder(a.millisecond, b.millisecond, 3, Z, [], []);
    SeparatedInOrder(a.second, b.second, 2, DOT, a1, b1);
    SeparatedInOrder(a.minute, b.minute, 2, COLON, a2, b2);
    SeparatedInOrder(a.hour, b.hour, 2, COLON, a3, b3);
  }

  lemma {:induction false} PartsInOrder(a: Parts, b: Parts)
    requires InRange(a) && InRange(b) && 0 <= a.date.year <= 9999 && 0 <= b.date.year <= 9999
    ensures Below(PartsText(a), PartsText(b)) <==> Earlier(a.date, b.date) || (a.date == b.date && EarlierTime(a, b))
  {
    Powers();
    TimesInOrder(a, b);
    var a1, b1 := Padded(a.date.day, 2) + ([T] + TimeText(a)), Padded(b.date.day, 2) + ([T] + TimeText(b));
    var a2, b2 := Padded(a.date.month, 2) + ([MINUS] + a1), Padded(b.date.month, 2) + ([MINUS] + b1);
    SeparatedInOrder(a.date.day, b.date.day, 2, T, TimeText(a), TimeText(b));
    SeparatedInOrder(a.date.month, b.date.month, 2, MINUS, a1, b1);
    SeparatedInOrder(a.date.year, b.date.year, 4, MINUS, a2, b2);
  }

  function TimeOf(p: Parts): int {
    ((p.hour * 60 + p.minute) * 60 + p.second) * 1000 + p.millisecond
  }

  lemma {:induction false} TimeOrder(a: Parts, b: Parts)
    requires InRange(a) && InRange(b)
    ensures TimeOf(a) < TimeOf(b) <==> EarlierTime(a, b)
    ensures 0 <= TimeOf(a) < DAY
  {
  }

  /** In the years 0 to 9999, the ordinal order of formatted timestamps is the order of their instants. */
  lemma {:induction false} OrderOfTexts(a: int, b: int)
    requires StartOf(0) <= a < StartOf(10000) && StartOf(0) <= b < StartOf(10000)
    ensures Below(Format(a), Format(b)) <==> a < b
  {
    InstantsOfYears(a, 0, 9999);
    InstantsOfYears(b, 0, 9999);
    var p, q := PartsOf(a), PartsOf(b);
    var m, n := a / DAY, b / DAY;
    PartsInRange(a);
    PartsInRange(b);
    PartsInOrder(p, q);
    OrderOfDays(m, n);
    OrderOfDays(n, m);
    TimeOrder(p, q);
    TimeOrder(q, p);
    DaysOfCivil(m);
    DaysOfCivil(n);
    InstantsInOrder(m, TimeOf(p), n, TimeOf(q));
  }

  lemma {:induction false} InstantsInOrder(m: int, s: int, n: int, t: int)
    requires 0 <= s < DAY && 0 <= t < DAY
    ensures m * DAY + s < n * DAY + t <==> m < n || (m == n && s < t)
  {
  }

  // ----- IsDate

  function IntParse(s: Text): Option<nat> {
    TryParse(s, MAX_INT)
  }

  predicate IsDate(s: Text) {
    && |s| == 10 && s[4] == MINUS && s[7] == MINUS
    && match (IntParse(s[0..4]), IntParse(s[5..7]), IntParse(s[8..10]))
       case (Some(year), Some(month), Some(day)) =>
         var maximum :=
           if month == 2 then if year % 4 == 0 && (year % 100 != 0 || year % 400 == 0) then 29 else 28
           else if month == 4 || month == 6 || month == 9 || month == 11 then 30 else 31;
         1 <= month <= 12 && 1 <= day <= maximum
       case _ => false
  }

  function DateText(d: Date): Text
    requires IsValid(d) && 0 <= d.year
  {
    Padded(d.year, 4) + ([MINUS] + (Padded(d.month, 2) + ([MINUS] + Padded(d.day, 2))))
  }

  predicate IsFourDigit(d: Date) {
    IsValid(d) && 0 <= d.year <= 9999
  }

  lemma {:induction false} DateSpans(year: Text, month: Text, day: Text)
    requires |year| == 4 && |month| == 2 && |day| == 2
    ensures var s := year + ([MINUS] + (month + ([MINUS] + day)));
      |s| == 10 && s[4] == MINUS && s[7] == MINUS && s[0..4] == year && s[5..7] == month && s[8..10] == day
  {
  }

  lemma {:induction false} DateTextIsDate(d: Date)
    requires IsFourDigit(d)
    ensures IsDate(DateText(d)) && NUL !in DateText(d)
  {
    Powers();
    PaddedLength(d.year, 4);
    PaddedLength(d.month, 2);
    PaddedLength(d.day, 2);
    DateSpans(Padded(d.year, 4), Padded(d.month, 2), Padded(d.day, 2));
    ParseOfPadded(d.year, 4, MAX_INT);
    ParseOfPadded(d.month, 2, MAX_INT);
    ParseOfPadded(d.day, 2, MAX_INT);
  }

  lemma {:induction false} SpanIsPadded(s: Text, i: nat, j: nat)
    requires i < j <= |s| && NUL !in s && IntParse(s[i..j]).Some?
    ensures IntParse(s[i..j]).value < Power(j - i) && s[i..j] == Padded(IntParse(s[i..j]).value, j - i)
  {
    assert NUL !in s[i..j];
    PaddedOfValue(s[i..j]);
  }

  lemma {:induction false} DateParts(s: Text)
    requires |s| == 10
    ensures s == s[0..4] + ([s[4]] + (s[5..7] + ([s[7]] + s[8..10])))
  {
  }

  lemma {:induction false} DateOfText(s: Text) returns (d: Date)
    requires IsDate(s)
    ensures IsValid(d) && 0 <= d.year && 0 <= d.month && 0 <= d.day
    ensures IntParse(s[0..4]) == Some(d.year) && IntParse(s[5..7]) == Some(d.month) && IntParse(s[8..10]) == Some(d.day)
  {
    d := Date(IntParse(s[0..4]).value, IntParse(s[5..7]).value, IntParse(s[8..10]).value);
  }

  lemma {:induction false} DateIsText(s: Text) returns (d: Date)
    requires IsDate(s) && NUL !in s
    ensures IsFourDigit(d) && s == DateText(d)
  {
    d := DateOfText(s);
    Powers();
    SpanIsPadded(s, 0, 4);
    SpanIsPadded(s, 5, 7);
    SpanIsPadded(s, 8, 10);
    DateParts(s);
  }

  /** Without NUL characters, exactly the texts of valid dates of four-digit years are dates. */
  lemma {:induction false} IsDateIsDate(s: Text)
    ensures IsDate(s) && NUL !in s <==> exists d :: IsFourDigit(d) && s == DateText(d)
  {
    if IsDate(s) && NUL !in s {
      var d := DateIsText(s);
    }
    forall d | IsFourDigit(d) && s == DateText(d)
      ensures IsDate(s) && NUL !in s
    {
      DateTextIsDate(d);
    }
  }

  /** The year 2024, the month "1" and a NUL character, the day 01. */
  const PADDED_DATE: Text := [0x32, 0x30, 0x32, 0x34, MINUS, 0x31, NUL, MINUS, 0x30, 0x31]

  lemma {:induction false} PaddedDateSpans()
    ensures PADDED_DATE[0..4] == [0x32, 0x30, 0x32, 0x34] && PADDED_DATE[5..7] == [0x31, NUL]
    ensures PADDED_DATE[8..10] == [0x30, 0x31] && PADDED_DATE[6] == NUL
  {
  }

  lemma {:induction false} PaddedDigits()
    ensures Padded(2024, 4) == [0x32, 0x30, 0x32, 0x34] && Padded(1, 2) == [0x30, 0x31] && Padded(1, 1) == [0x31]
  {
    ThreeDigits(202);
    TwoDigits(1);
    assert Padded(2024, 4) == Padded(202, 3) + [Digit(4)];
  }

  lemma {:induction false} UnpaddedMonth()
    ensures Unpadded([0x31, NUL]) == [0x31] == Unpadded([0x31])
  {
    assert [0x31, NUL][..1] == [0x31];
  }

  /** With a NUL character, a text that is no date passes. */
  lemma {:induction false} PaddedDatePasses()
    ensures IsDate(PADDED_DATE) && NUL in PADDED_DATE
  {
    PaddedDateSpans();
    PaddedDigits();
    UnpaddedMonth();
    ParseOfPadded(2024, 4, MAX_INT);
    ParseOfPadded(1, 2, MAX_INT);
    ParseOfPadded(1, 1, MAX_INT);
    assert TryParse([0x31, NUL], MAX_INT) == TryParse([0x31], MAX_INT);
  }
}
