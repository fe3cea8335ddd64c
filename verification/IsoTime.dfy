/** Microsecond ISO-8601 timestamps: reading, printing and shifting them (RFC 3339, sections 5.6 and 5.7). */
module IsoTime {
  import opened Wrappers
  import opened Text
  import opened Calendar

  datatype Zone = Utc | Offset(ahead: bool, hours: nat, minutes: nat)

  /** The fields of a timestamp as written; an empty fraction means that no fraction is written. */
  datatype IsoParts = IsoParts(year: nat, month: nat, day: nat, hour: nat, minute: nat, second: nat,
                               fraction: string, zone: Zone)

  /** Each field fits the number of digits that it is written with. */
  predicate Shaped(p: IsoParts) {
    && p.year < 10000 && p.month < 100 && p.day < 100
    && p.hour < 100 && p.minute < 100 && p.second < 100
    && AllDigits(p.fraction)
    && (p.zone.Offset? ==> p.zone.hours < 100 && p.zone.minutes < 100)
  }

  function PrintZone(z: Zone): string {
    match z
    case Utc => "Z"
    case Offset(ahead, h, m) => [if ahead then '+' else '-'] + FixedWidth(h, 2) + [':'] + FixedWidth(m, 2)
  }

  function PrintHead(p: IsoParts): (s: string)
    ensures |s| == 19
  {
    FixedWidth(p.year, 4) + ['-'] + FixedWidth(p.month, 2) + ['-'] + FixedWidth(p.day, 2) + ['T']
    + FixedWidth(p.hour, 2) + [':'] + FixedWidth(p.minute, 2) + [':'] + FixedWidth(p.second, 2)
  }

  function PrintFraction(fraction: string): string {
    if fraction == "" then "" else ['.'] + fraction
  }

  function Print(p: IsoParts): string {
    PrintHead(p) + (PrintFraction(p.fraction) + PrintZone(p.zone))
  }

  predicate DigitsAt(s: string, i: nat, j: nat)
    requires i <= j <= |s|
  {
    AllDigits(s[i..j])
  }

  /** The length of the longest digit prefix of `s`. */
  function DigitRun(s: string): (k: nat)
    ensures k <= |s| && AllDigits(s[..k]) && (k < |s| ==> !IsDigit(s[k]))
  {
    if s == [] || !IsDigit(s[0]) then 0 else
      var k := DigitRun(s[1..]);
      assert s[..k + 1] == [s[0]] + s[1..][..k];
      k + 1
  }

  function ParseZone(t: string): Option<Zone> {
    if t == "Z" then Some(Utc)
    else if |t| == 6 && t[0] in {'+', '-'} && DigitsAt(t, 1, 3) && t[3] == ':' && DigitsAt(t, 4, 6) then
      Some(Offset(t[0] == '+', NumberOf(t[1..3]), NumberOf(t[4..6])))
    else None
  }

  predicate HeadShape(s: string)
    requires |s| >= 19
  {
    && DigitsAt(s, 0, 4) && s[4] == '-' && DigitsAt(s, 5, 7) && s[7] == '-' && DigitsAt(s, 8, 10)
    && s[10] == 'T' && DigitsAt(s, 11, 13) && s[13] == ':' && DigitsAt(s, 14, 16) && s[16] == ':'
    && DigitsAt(s, 17, 19)
  }

  /** What follows the seconds: an optional fraction and the zone. */
  function ParseTail(tail: string): (r: Option<(string, Zone)>)
    ensures r.Some? ==> AllDigits(r.value.0)
  {
    if tail == "" then None
    else if tail[0] == '.' then
      var k := DigitRun(tail[1..]);
      var zone := ParseZone(tail[1..][k..]);
      if k == 0 || zone == None then None else Some((tail[1..][..k], zone.value))
    else
      var zone := ParseZone(tail);
      if zone == None then None else Some(("", zone.value))
  }

  /** The pattern that an accepted timestamp matches, with its six numeric groups, fraction and zone. */
  function ParseShape(s: string): Option<IsoParts> {
    if |s| < 19 || !HeadShape(s) then None else
      match ParseTail(s[19..])
      case None => None
      case Some((fraction, zone)) =>
        Some(IsoParts(NumberOf(s[0..4]), NumberOf(s[5..7]), NumberOf(s[8..10]), NumberOf(s[11..13]),
                      NumberOf(s[14..16]), NumberOf(s[17..19]), fraction, zone))
  }

  lemma ParseHead(p: IsoParts, tail: string)
    requires Shaped(p)
    ensures HeadShape(PrintHead(p) + tail)
    ensures var s := PrintHead(p) + tail;
            && NumberOf(s[0..4]) == p.year && NumberOf(s[5..7]) == p.month && NumberOf(s[8..10]) == p.day
            && NumberOf(s[11..13]) == p.hour && NumberOf(s[14..16]) == p.minute
            && NumberOf(s[17..19]) == p.second
  {
    var s := PrintHead(p) + tail;
    assert s[0..4] == FixedWidth(p.year, 4);
    assert s[5..7] == FixedWidth(p.month, 2);
    assert s[8..10] == FixedWidth(p.day, 2);
    assert s[11..13] == FixedWidth(p.hour, 2);
    assert s[14..16] == FixedWidth(p.minute, 2);
    assert s[17..19] == FixedWidth(p.second, 2);
    assert Pow10(2) == 100 && Pow10(4) == 10000 by { assert Pow10(2) == 10 * Pow10(1); }
    NumberOfFixedWidth(p.year, 4);
    NumberOfFixedWidth(p.month, 2);
    NumberOfFixedWidth(p.day, 2);
    NumberOfFixedWidth(p.hour, 2);
    NumberOfFixedWidth(p.minute, 2);
    NumberOfFixedWidth(p.second, 2);
  }

  lemma TwoDigits(n: nat)
    requires n < 100
    ensures NumberOf(FixedWidth(n, 2)) == n
  {
    assert Pow10(2) == 10 * Pow10(1) == 100;
    NumberOfFixedWidth(n, 2);
  }

  lemma ParsePrintedZone(z: Zone)
    requires z.Offset? ==> z.hours < 100 && z.minutes < 100
    ensures ParseZone(PrintZone(z)) == Some(z)
    ensures var t := PrintZone(z); |t| > 0 && !IsDigit(t[0]) && t[0] != '.'
  {
    hide FixedWidth, NumberOf;
    if z.Offset? {
      var t := PrintZone(z);
      assert t[1..3] == FixedWidth(z.hours, 2);
      assert t[4..6] == FixedWidth(z.minutes, 2);
      TwoDigits(z.hours);
      TwoDigits(z.minutes);
    }
  }

  lemma {:induction false} DigitRunStops(digits: string, rest: string)
    requires AllDigits(digits) && |rest| > 0 && !IsDigit(rest[0])
    ensures DigitRun(digits + rest) == |digits|
  {
    if digits == [] {
      assert digits + rest == rest;
    } else {
      assert (digits + rest)[1..] == digits[1..] + rest;
      DigitRunStops(digits[1..], rest);
    }
  }

  lemma ParsePrintedTail(fraction: string, z: Zone)
    requires AllDigits(fraction) && (z.Offset? ==> z.hours < 100 && z.minutes < 100)
    ensures ParseTail(PrintFraction(fraction) + PrintZone(z)) == Some((fraction, z))
  {
    var zone := PrintZone(z);
    var tail := PrintFraction(fraction) + zone;
    ParsePrintedZone(z);
    if fraction != "" {
      assert tail[1..] == fraction + zone;
      DigitRunStops(fraction, zone);
      assert tail[1..][..|fraction|] == fraction;
      assert tail[1..][|fraction|..] == zone;
    } else {
      assert tail == zone;
    }
  }

  /** Reading a printed timestamp gives back its fields. */
  lemma ParsePrint(p: IsoParts)
    requires Shaped(p)
    ensures ParseShape(Print(p)) == Some(p)
  {
    var tail := PrintFraction(p.fraction) + PrintZone(p.zone);
    ParseHead(p, tail);
    ParsePrintedTail(p.fraction, p.zone);
    assert Print(p)[19..] == tail;
  }

  lemma PrintParsedZone(t: string)
    requires ParseZone(t).Some?
    ensures PrintZone(ParseZone(t).value) == t
    ensures var z := ParseZone(t).value; z.Offset? ==> z.hours < 100 && z.minutes < 100
  {
    if t != "Z" {
      assert Pow10(2) == 10 * Pow10(1) == 100;
      FixedWidthOfNumber(t[1..3]);
      FixedWidthOfNumber(t[4..6]);
      assert t == [t[0]] + t[1..3] + [t[3]] + t[4..6];
    }
  }

  lemma PrintParsedHead(s: string, p: IsoParts)
    requires |s| >= 19 && HeadShape(s)
    requires p.year == NumberOf(s[0..4]) && p.month == NumberOf(s[5..7]) && p.day == NumberOf(s[8..10])
    requires p.hour == NumberOf(s[11..13]) && p.minute == NumberOf(s[14..16]) && p.second == NumberOf(s[17..19])
    ensures PrintHead(p) == s[..19]
    ensures p.year < 10000 && p.month < 100 && p.day < 100 && p.hour < 100 && p.minute < 100 && p.second < 100
  {
    assert Pow10(2) == 100 && Pow10(4) == 10000 by { assert Pow10(2) == 10 * Pow10(1); }
    FixedWidthOfNumber(s[0..4]);
    FixedWidthOfNumber(s[5..7]);
    FixedWidthOfNumber(s[8..10]);
    FixedWidthOfNumber(s[11..13]);
    FixedWidthOfNumber(s[14..16]);
    FixedWidthOfNumber(s[17..19]);
    assert s[..19] == s[0..4] + [s[4]] + s[5..7] + [s[7]] + s[8..10] + [s[10]]
                      + s[11..13] + [s[13]] + s[14..16] + [s[16]] + s[17..19];
  }

  lemma PrintParsedTail(tail: string)
    requires ParseTail(tail).Some?
    ensures var (fraction, z) := ParseTail(tail).value;
            && PrintFraction(fraction) + PrintZone(z) == tail
            && (z.Offset? ==> z.hours < 100 && z.minutes < 100)
  {
    if tail[0] == '.' {
      var k := DigitRun(tail[1..]);
      PrintParsedZone(tail[1..][k..]);
      assert tail == ['.'] + tail[1..][..k] + tail[1..][k..];
    } else {
      PrintParsedZone(tail);
      assert PrintFraction("") + tail == tail;
    }
  }

  /** An accepted timestamp is exactly the print of its fields. */
  lemma PrintParse(s: string)
    requires ParseShape(s).Some?
    ensures Shaped(ParseShape(s).value) && Print(ParseShape(s).value) == s
  {
    PrintParsedHead(s, ParseShape(s).value);
    PrintParsedTail(s[19..]);
    assert s == s[..19] + s[19..];
  }

  // ----- Date.parse, strictIso and the microsecond clock

  function ZoneSeconds(z: Zone): int {
    match z
    case Utc => 0
    case Offset(ahead, h, m) => (if ahead then 1 else -1) * (3600 * h + 60 * m)
  }

  /** Whole seconds since the epoch. */
  function SecondsOf(p: IsoParts): int
    requires 1 <= p.month <= 12
  {
    86400 * DayNumber(p.year, p.month, p.day) + 3600 * p.hour + 60 * p.minute + p.second - ZoneSeconds(p.zone)
  }

  lemma PadEndDigits(f: string, w: nat)
    requires AllDigits(f)
    ensures AllDigits(PadEnd(f, w, '0'))
  {
  }

  /** The first `w` fraction digits, as a number of units of 10 to the power -w seconds. */
  function FractionUnits(f: string, w: nat): nat
    requires AllDigits(f)
  {
    PadEndDigits(f, w);
    NumberOf(PadEnd(f, w, '0')[..w])
  }

  /** Where Date.parse does not answer NaN: every field in range, days up to 31 in every month. */
  predicate DateFields(p: IsoParts)
    requires AllDigits(p.fraction)
  {
    && 1 <= p.month <= 12 && 1 <= p.day <= 31
    && p.minute <= 59 && p.second <= 59
    && (p.hour <= 23 || (p.hour == 24 && p.minute == 0 && p.second == 0 && FractionUnits(p.fraction, 3) == 0))
    && (p.zone.Offset? ==> p.zone.hours <= 23 && p.zone.minutes <= 59)
  }

  /** Date.parse: milliseconds since the epoch, further fraction digits dropped; None stands for NaN. */
  function DateParse(s: string): Option<int> {
    match ParseShape(s)
    case None => None
    case Some(p) =>
      PrintParse(s);
      if DateFields(p) then Some(1000 * SecondsOf(p) + FractionUnits(p.fraction, 3)) else None
  }

  /** The export parser's timestamp check, on the string it returns unchanged. */
  predicate StrictIso(s: string) {
    match ParseShape(s)
    case None => false
    case Some(p) =>
      && DateParse(s).Some?
      && 1 <= p.month <= 12 && 1 <= p.day <= DaysInMonth(p.year, p.month)
      && p.hour <= 23 && p.minute <= 59 && p.second <= 59
  }

  /** The date-time fields that RFC 3339 section 5.7 allows, leap seconds excepted. */
  predicate ValidParts(p: IsoParts) {
    && Shaped(p)
    && CalendarDate(p.year, p.month, p.day)
    && p.hour <= 23 && p.minute <= 59 && p.second <= 59
    && (p.zone.Offset? ==> p.zone.hours <= 23 && p.zone.minutes <= 59)
  }

  /** The check accepts exactly the printed forms of calendar-valid date-times. */
  lemma StrictIsoExact(s: string)
    ensures StrictIso(s) <==> exists p :: ValidParts(p) && s == Print(p)
  {
    hide CalendarDate, DaysInMonth, Print, ParseShape;
    if StrictIso(s) {
      var p := ParseShape(s).value;
      PrintParse(s);
      ValidDateExact(p.year, p.month, p.day);
      assert ValidParts(p);
    }
    if p :| ValidParts(p) && s == Print(p) {
      ParsePrint(p);
      ValidDateExact(p.year, p.month, p.day);
    }
  }

  /** Microseconds since the epoch; None stands for the error thrown on an unparseable string. */
  function EpochMicroseconds(iso: string): Option<int> {
    match DateParse(iso)
    case None => None
    case Some(ms) =>
      PrintParse(iso);
      var fraction := ParseShape(iso).value.fraction;
      PadEndDigits(fraction, 6);
      var microseconds := PadEnd(fraction, 6, '0')[..6];
      var subMillisecond := PadEnd(microseconds[3..6], 3, '0');
      Some(ms * 1000 + NumberOf(subMillisecond))
  }

  lemma FractionSplit(f: string)
    requires AllDigits(f)
    ensures AllDigits(PadEnd(f, 6, '0'))
    ensures FractionUnits(f, 6)
            == 1000 * FractionUnits(f, 3) + NumberOf(PadEnd(PadEnd(f, 6, '0')[..6][3..6], 3, '0'))
  {
    PadEndDigits(f, 6);
    PadEndDigits(f, 3);
    var micro := PadEnd(f, 6, '0')[..6];
    assert micro[..3] == PadEnd(f, 3, '0')[..3];
    assert micro == micro[..3] + micro[3..];
    assert micro[3..6] == micro[3..];
    NumberOfConcat(micro[..3], micro[3..]);
    assert Pow10(3) == 10 * Pow10(2) && Pow10(2) == 10 * Pow10(1);
  }

  /** No microsecond is lost between the millisecond clock and the extra fraction digits. */
  lemma EpochMicrosecondsExact(iso: string)
    requires EpochMicroseconds(iso).Some?
    ensures var p := ParseShape(iso).value;
            && Shaped(p) && 1 <= p.month <= 12
            && EpochMicroseconds(iso).value == 1_000_000 * SecondsOf(p) + FractionUnits(p.fraction, 6)
  {
    PrintParse(iso);
    FractionSplit(ParseShape(iso).value.fraction);
  }

  lemma ReadParts(s: string, p: IsoParts)
    requires ParseShape(s) == Some(p) && ValidParts(p)
    ensures DateParse(s) == Some(1000 * SecondsOf(p) + FractionUnits(p.fraction, 3))
    ensures EpochMicroseconds(s) == Some(1_000_000 * SecondsOf(p) + FractionUnits(p.fraction, 6))
    ensures StrictIso(s)
  {
    hide CalendarDate, DaysInMonth;
    ValidDateExact(p.year, p.month, p.day);
    FractionSplit(p.fraction);
  }

  /** What the readers make of a printed, valid date-time. */
  lemma PrintedParts(p: IsoParts, s: string)
    requires ValidParts(p) && s == Print(p)
    ensures DateParse(s) == Some(1000 * SecondsOf(p) + FractionUnits(p.fraction, 3))
    ensures EpochMicroseconds(s) == Some(1_000_000 * SecondsOf(p) + FractionUnits(p.fraction, 6))
    ensures StrictIso(s)
  {
    ParsePrint(p);
    ReadParts(s, p);
  }

  /** First microsecond of the year 0000 and of the year 10000: the years printed with four digits. */
  const YEAR_0 := DayFromYear(0) * 86_400
  const YEAR_10000 := DayFromYear(10000) * 86_400

  predicate FourDigitYear(seconds: int) {
    YEAR_0 <= seconds < YEAR_10000
  }

  /** The fields of a UTC second. */
  function PartsOfSecond(seconds: int, fraction: string): IsoParts
    requires FourDigitYear(seconds)
  {
    var day := seconds / 86_400;
    var t := seconds % 86_400;
    DateOfDay(day);
    IsoParts(YearOf(day), MonthOf(day), DayOf(day), t / 3600, t / 60 % 60, t % 60, fraction, Utc)
  }

  lemma PartsOfSecondExact(seconds: int, fraction: string)
    requires FourDigitYear(seconds) && AllDigits(fraction)
    ensures ValidParts(PartsOfSecond(seconds, fraction))
    ensures SecondsOf(PartsOfSecond(seconds, fraction)) == seconds
    ensures PartsOfSecond(seconds, fraction).fraction == fraction
  {
    var day := seconds / 86_400;
    DateOfDay(day);
    ValidDateExact(YearOf(day), MonthOf(day), DayOf(day));
    if YearOf(day) >= 10000 { YearsAscend(10000, YearOf(day)); }
    TimeOfDay(seconds % 86_400);
  }

  lemma TimeOfDay(t: int)
    requires 0 <= t < 86_400
    ensures t == 3600 * (t / 3600) + 60 * (t / 60 % 60) + t % 60
    ensures 0 <= t / 3600 <= 23
  {
    assert t / 3600 == t / 60 / 60;
  }

  lemma ReadSecond(seconds: int, fraction: string, s: string)
    requires FourDigitYear(seconds) && AllDigits(fraction)
    requires s == Print(PartsOfSecond(seconds, fraction))
    ensures DateParse(s) == Some(1000 * seconds + FractionUnits(fraction, 3))
    ensures EpochMicroseconds(s) == Some(1_000_000 * seconds + FractionUnits(fraction, 6))
    ensures StrictIso(s)
  {
    hide *;
    PartsOfSecondExact(seconds, fraction);
    PrintedParts(PartsOfSecond(seconds, fraction), s);
  }

  /** Date.prototype.toISOString for a four-digit year. */
  function ToIsoString(ms: int): string
    requires FourDigitYear(ms / 1000)
  {
    Print(PartsOfSecond(ms / 1000, FixedWidth(ms % 1000, 3)))
  }

  /** BigInt division and remainder truncate toward zero. */
  function TruncDiv(a: int, b: int): int
    requires b > 0
  {
    if a < 0 then -((-a) / b) else a / b
  }

  function IsoFromEpochMicroseconds(v: int): string
    requires FourDigitYear(TruncDiv(v, 1_000_000))
  {
    var wholeSeconds := TruncDiv(v, 1_000_000);
    var withinSecond := v - 1_000_000 * wholeSeconds;
    var datePrefix := ToIsoString(wholeSeconds * 1000)[..19];
    datePrefix + (['.'] + PadStart(SignedDecimal(withinSecond), 6, '0') + ['Z'])
  }

  lemma FractionUnitsOfWidth(n: nat, w: nat)
    requires n < Pow10(w)
    ensures FractionUnits(FixedWidth(n, w), w) == n
  {
    var f := FixedWidth(n, w);
    assert f[..w] == f;
    NumberOfFixedWidth(n, w);
  }

  lemma FractionUnitsOfMilli(n: nat)
    requires n < 1000
    ensures FractionUnits(FixedWidth(n, 3), 3) == n && FractionUnits(FixedWidth(n, 3), 6) == 1000 * n
  {
    assert Pow10(3) == 10 * Pow10(2) && Pow10(2) == 10 * Pow10(1);
    var f := FixedWidth(n, 3);
    FractionUnitsOfWidth(n, 3);
    PadEndDigits(f, 6);
    assert PadEnd(f, 6, '0')[..6] == f + Repeat('0', 3);
    FixedWidthZero(3);
    NumberOfFixedWidth(0, 3);
    NumberOfConcat(f, Repeat('0', 3));
    NumberOfFixedWidth(n, 3);
  }

  lemma ToIsoStringPrints(ms: int)
    requires FourDigitYear(ms / 1000)
    ensures ToIsoString(ms) == Print(PartsOfSecond(ms / 1000, FixedWidth(ms % 1000, 3)))
  {
  }

  /** A millisecond clock reading survives printing and parsing, and passes the strict check. */
  lemma ToIsoStringRoundTrip(ms: int)
    requires FourDigitYear(ms / 1000)
    ensures DateParse(ToIsoString(ms)) == Some(ms)
    ensures EpochMicroseconds(ToIsoString(ms)) == Some(1000 * ms)
    ensures StrictIso(ToIsoString(ms))
  {
    hide *;
    ToIsoStringPrints(ms);
    FractionUnitsOfMilli(ms % 1000);
    ReadSecond(ms / 1000, FixedWidth(ms % 1000, 3), ToIsoString(ms));
  }

  /** On and after the epoch, printing a microsecond instant and reading it back is the identity. */
  lemma IsoRoundTripFromEpoch(v: int)
    requires FourDigitYear(TruncDiv(v, 1_000_000)) && v >= 0
    ensures EpochMicroseconds(IsoFromEpochMicroseconds(v)) == Some(v)
    ensures StrictIso(IsoFromEpochMicroseconds(v))
  {
    PrintedInstant(v);
  }

  lemma PrintedInstant(v: int)
    requires FourDigitYear(TruncDiv(v, 1_000_000))
    requires v >= 0 || v % 1_000_000 == 0
    ensures EpochMicroseconds(IsoFromEpochMicroseconds(v)) == Some(v)
    ensures StrictIso(IsoFromEpochMicroseconds(v))
  {
    hide *;
    var seconds := TruncDiv(v, 1_000_000);
    var within := v - 1_000_000 * seconds;
    TruncDivExact(v, 1_000_000);
    MicrosFit(within);
    FractionUnitsOfWidth(within, 6);
    IsoFromEpochPrints(v);
    ReadSecond(seconds, FixedWidth(within, 6), IsoFromEpochMicroseconds(v));
  }

  lemma MicrosFit(within: int)
    requires 0 <= within < 1_000_000
    ensures within < Pow10(6) && PadStart(SignedDecimal(within), 6, '0') == FixedWidth(within, 6)
  {
    assert Pow10(6) == 1_000_000 by {
      assert Pow10(2) == 10 * Pow10(1) && Pow10(4) == 10 * Pow10(3);
    }
    PadStartIsFixedWidth(within, 6);
  }

  lemma IsoFromEpochPrints(v: int)
    requires FourDigitYear(TruncDiv(v, 1_000_000))
    requires v >= 0 || v % 1_000_000 == 0
    ensures var seconds := TruncDiv(v, 1_000_000);
            && 0 <= v - 1_000_000 * seconds
            && IsoFromEpochMicroseconds(v)
               == Print(PartsOfSecond(seconds, FixedWidth(v - 1_000_000 * seconds, 6)))
  {
    var seconds := TruncDiv(v, 1_000_000);
    var within := v - 1_000_000 * seconds;
    hide Print, PrintHead, PartsOfSecond, FourDigitYear, TruncDiv, FixedWidth, PadStart, SignedDecimal, ToIsoString;
    TruncDivExact(v, 1_000_000);
    MicrosFit(within);
    IsoPrefix(seconds, FixedWidth(within, 6));
    FixedWidthNotEmpty(within);
    PrintedSecond(seconds, FixedWidth(within, 6));
  }

  lemma FixedWidthNotEmpty(within: nat)
    ensures FixedWidth(within, 6) != ""
  {
  }

  lemma PrintedSecond(seconds: int, fraction: string)
    requires FourDigitYear(seconds) && fraction != ""
    ensures Print(PartsOfSecond(seconds, fraction))
            == PrintHead(PartsOfSecond(seconds, fraction)) + (['.'] + fraction + ['Z'])
  {
  }

  lemma HeadOfPrint(p: IsoParts)
    ensures Print(p)[..19] == PrintHead(p)
  {
    hide PrintHead, PrintFraction, PrintZone;
  }

  lemma HeadIgnoresFraction(seconds: int, f: string, g: string)
    requires FourDigitYear(seconds)
    ensures PrintHead(PartsOfSecond(seconds, f)) == PrintHead(PartsOfSecond(seconds, g))
  {
    hide FourDigitYear, FixedWidth;
  }

  lemma IsoPrefix(seconds: int, fraction: string)
    requires FourDigitYear(seconds)
    ensures ToIsoString(seconds * 1000)[..19] == PrintHead(PartsOfSecond(seconds, fraction))
  {
    hide Print, PrintHead, PartsOfSecond, FourDigitYear, FixedWidth;
    HeadOfPrint(PartsOfSecond(seconds, FixedWidth(0, 3)));
    HeadIgnoresFraction(seconds, FixedWidth(0, 3), fraction);
  }

  lemma TruncDivExact(v: int, b: int)
    requires b > 0
    ensures var r := v - b * TruncDiv(v, b);
            && -b < r < b && (v >= 0 ==> r >= 0) && (v < 0 ==> r <= 0) && (r == 0 <==> v % b == 0)
  {
    if v < 0 {
      var q := (-v) / b;
      assert -v == b * q + (-v) % b;
      assert v == b * (-q) - (-v) % b;
      if v % b == 0 { RemainderUnique(-v, b, -(v / b), 0); }
      if (-v) % b == 0 { RemainderUnique(v, b, -q, 0); }
    }
  }

  lemma RemainderUnique(a: int, b: int, q: int, r: int)
    requires b > 0 && a == b * q + r && 0 <= r < b
    ensures a / b == q && a % b == r
  {
    var d := a / b - q;
    assert b * d == r - a % b;
    assert d >= 1 ==> b * d >= b;
    assert d <= -1 ==> b * d <= -b;
  }

  /** A minus sign after the point leaves no readable fraction and zone. */
  lemma MinusInFraction(zeros: string, numeral: string)
    requires AllDigits(zeros) && AllDigits(numeral)
    ensures ParseTail(['.'] + zeros + ['-'] + numeral + ['Z']) == None
  {
    var rest := ['-'] + numeral + ['Z'];
    var tail := ['.'] + zeros + ['-'] + numeral + ['Z'];
    assert tail[1..] == zeros + rest;
    DigitRunStops(zeros, rest);
    assert tail[1..][|zeros|..] == rest;
    assert |rest| == 6 ==> rest[3] == numeral[2];
  }

  /** Before the epoch a fractional second prints with a minus sign inside, which nothing reads back. */
  lemma PreEpochFractionUnreadable(v: int)
    requires FourDigitYear(TruncDiv(v, 1_000_000)) && v < 0 && v % 1_000_000 != 0
    ensures EpochMicroseconds(IsoFromEpochMicroseconds(v)) == None
  {
    var within := v - 1_000_000 * TruncDiv(v, 1_000_000);
    TruncDivExact(v, 1_000_000);
    var numeral := Decimal(-within);
    var zeros := Repeat('0', if |numeral| < 5 then 5 - |numeral| else 0);
    assert PadStart(SignedDecimal(within), 6, '0') == zeros + ['-'] + numeral;
    var tail := ['.'] + PadStart(SignedDecimal(within), 6, '0') + ['Z'];
    assert tail == ['.'] + zeros + ['-'] + numeral + ['Z'];
    MinusInFraction(zeros, numeral);
    var s := IsoFromEpochMicroseconds(v);
    assert |s| >= 19 && s[19..] == tail;
    UnreadableTail(s);
  }

  lemma UnreadableTail(s: string)
    requires |s| >= 19 && ParseTail(s[19..]) == None
    ensures EpochMicroseconds(s) == None
  {
  }

  /** The print-then-read round trip holds exactly from the epoch on, or on a whole second. */
  lemma IsoRoundTripExactly(v: int)
    requires FourDigitYear(TruncDiv(v, 1_000_000))
    ensures EpochMicroseconds(IsoFromEpochMicroseconds(v)) == Some(v) <==> v >= 0 || v % 1_000_000 == 0
  {
    if v >= 0 || v % 1_000_000 == 0 {
      PrintedInstant(v);
    } else {
      PreEpochFractionUnreadable(v);
    }
  }

  /** A string moved by an offset; None stands for the error on an unparseable string. */
  function ShiftIso(iso: string, offsetMicroseconds: int): Option<string>
    requires EpochMicroseconds(iso).Some? ==>
               FourDigitYear(TruncDiv(EpochMicroseconds(iso).value + offsetMicroseconds, 1_000_000))
  {
    match EpochMicroseconds(iso)
    case None => None
    case Some(v) => Some(IsoFromEpochMicroseconds(v + offsetMicroseconds))
  }

  /** Every strict timestamp denotes an instant. */
  lemma StrictIsoHasInstant(s: string)
    requires StrictIso(s)
    ensures DateParse(s).Some? && EpochMicroseconds(s).Some?
    ensures EpochMicroseconds(s).value / 1000 == DateParse(s).value
  {
    PrintParse(s);
    var f := ParseShape(s).value.fraction;
    PadEndDigits(f, 6);
    FixedWidthOfNumber(PadEnd(PadEnd(f, 6, '0')[..6][3..6], 3, '0'));
    assert Pow10(3) == 10 * Pow10(2) && Pow10(2) == 10 * Pow10(1);
  }
}
