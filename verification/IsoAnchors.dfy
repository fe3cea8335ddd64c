/** Timestamps read against instants known from elsewhere, and what a fraction and a written zone offset mean. */
module IsoAnchors {
  import opened Wrappers
  import opened Text
  import opened Calendar
  import opened IsoTime

  // ----- Every timestamp

  /** The microseconds that a written fraction stands for; digits after the sixth are dropped. */
  function FractionMicroseconds(f: string): nat
    requires AllDigits(f)
  {
    if |f| <= 6 then NumberOf(f) * Pow10(6 - |f|) else NumberOf(f[..6])
  }

  lemma FractionMeans(f: string)
    requires AllDigits(f)
    ensures FractionUnits(f, 6) == FractionMicroseconds(f)
  {
    PadEndDigits(f, 6);
    if |f| < 6 {
      var zeros := Repeat('0', 6 - |f|);
      FixedWidthZero(6 - |f|);
      assert Pow10(6 - |f|) > 0;
      NumberOfFixedWidth(0, 6 - |f|);
      NumberOfConcat(f, zeros);
      assert PadEnd(f, 6, '0')[..6] == f + zeros;
    } else {
      assert PadEnd(f, 6, '0') == f;
      assert |f| == 6 ==> f[..6] == f;
      assert Pow10(0) == 1;
    }
  }

  /** A UTC timestamp denotes its day number, hour, minute, second and fraction, each in its own unit. */
  lemma UtcInstant(p: IsoParts)
    requires ValidParts(p) && p.zone == Utc
    ensures EpochMicroseconds(Print(p))
            == Some(1_000_000 * (86_400 * DayNumber(p.year, p.month, p.day) + 3_600 * p.hour + 60 * p.minute + p.second)
                    + FractionMicroseconds(p.fraction))
  {
    hide Print, CalendarDate, EpochMicroseconds, FractionUnits, FractionMicroseconds, DayNumber;
    PrintedParts(p, Print(p));
    FractionMeans(p.fraction);
  }

  /** The same wall clock so far ahead of UTC is that much earlier, and so far behind that much later. */
  lemma OffsetMoves(p: IsoParts, hours: nat, minutes: nat)
    requires ValidParts(p) && p.zone == Utc && hours <= 23 && minutes <= 59
    ensures EpochMicroseconds(Print(p)).Some?
    ensures var utc, seconds := EpochMicroseconds(Print(p)).value, 3_600 * hours + 60 * minutes;
            && EpochMicroseconds(Print(p.(zone := Offset(true, hours, minutes)))) == Some(utc - 1_000_000 * seconds)
            && EpochMicroseconds(Print(p.(zone := Offset(false, hours, minutes)))) == Some(utc + 1_000_000 * seconds)
  {
    hide Print, EpochMicroseconds, ValidParts, ZoneSeconds;
    PrintedParts(p, Print(p));
    ZoneMoves(p, Offset(true, hours, minutes));
    ZoneMoves(p, Offset(false, hours, minutes));
    OffsetSeconds(hours, minutes);
  }

  lemma OffsetSeconds(hours: nat, minutes: nat)
    ensures ZoneSeconds(Offset(true, hours, minutes)) == 3_600 * hours + 60 * minutes
    ensures ZoneSeconds(Offset(false, hours, minutes)) == -(3_600 * hours + 60 * minutes)
  {
  }

  lemma ZoneMoves(p: IsoParts, zone: Zone)
    requires ValidParts(p) && p.zone == Utc && zone.Offset? && zone.hours <= 23 && zone.minutes <= 59
    ensures EpochMicroseconds(Print(p)).Some?
    ensures EpochMicroseconds(Print(p.(zone := zone)))
            == Some(EpochMicroseconds(Print(p)).value - 1_000_000 * ZoneSeconds(zone))
  {
    hide Print, CalendarDate, EpochMicroseconds, FractionUnits, DayNumber;
    PrintedParts(p, Print(p));
    var moved := p.(zone := zone);
    PrintedParts(moved, Print(moved));
  }

  // ----- Written timestamps

  lemma LastDigit(n: nat, d: nat, w: nat)
    requires d < 10
    ensures FixedWidth(10 * n + d, w + 1) == FixedWidth(n, w) + [DigitChar(d)]
  {
    assert (10 * n + d) / 10 == n && (10 * n + d) % 10 == d;
  }

  lemma NoDigits(n: nat)
    ensures FixedWidth(n, 0) == ""
  {
  }

  lemma Digits2(a: nat, b: nat)
    requires a < 10 && b < 10
    ensures FixedWidth(10 * a + b, 2) == [DigitChar(a), DigitChar(b)]
  {
    hide FixedWidth, DigitChar;
    NoDigits(0);
    LastDigit(0, a, 0);
    LastDigit(a, b, 1);
  }

  lemma Digits4(a: nat, b: nat, c: nat, d: nat)
    requires a < 10 && b < 10 && c < 10 && d < 10
    ensures FixedWidth(10 * (10 * (10 * a + b) + c) + d, 4)
            == [DigitChar(a), DigitChar(b), DigitChar(c), DigitChar(d)]
  {
    hide FixedWidth, DigitChar;
    Digits2(a, b);
    LastDigit(10 * a + b, c, 2);
    LastDigit(10 * (10 * a + b) + c, d, 3);
  }

  lemma DigitChars()
    ensures DigitChar(0) == '0' && DigitChar(1) == '1' && DigitChar(2) == '2' && DigitChar(3) == '3'
    ensures DigitChar(4) == '4' && DigitChar(5) == '5' && DigitChar(6) == '6' && DigitChar(9) == '9'
  {
  }

  lemma BillionthFields()
    ensures FixedWidth(2001, 4) == "2001" && FixedWidth(9, 2) == "09" && FixedWidth(1, 2) == "01"
    ensures FixedWidth(46, 2) == "46" && FixedWidth(40, 2) == "40" && FixedWidth(3, 2) == "03"
    ensures FixedWidth(2, 2) == "02" && FixedWidth(0, 2) == "00"
  {
    hide FixedWidth, DigitChar;
    DigitChars();
    Digits4(2, 0, 0, 1);
    Digits2(0, 9);
    Digits2(0, 1);
    Digits2(4, 6);
    Digits2(4, 0);
    Digits2(0, 3);
    Digits2(0, 2);
    Digits2(0, 0);
  }

  lemma BillionthHead(hour: nat, fraction: string, zone: Zone)
    ensures PrintHead(IsoParts(2001, 9, 9, hour, 46, 40, fraction, zone))
            == "2001-09-09T" + FixedWidth(hour, 2) + ":46:40"
  {
    hide FixedWidth;
    BillionthFields();
    assert FixedWidth(2001, 4) + ['-'] + FixedWidth(9, 2) + ['-'] + FixedWidth(9, 2) + ['T'] == "2001-09-09T";
    assert [':'] + FixedWidth(46, 2) + [':'] + FixedWidth(40, 2) == ":46:40";
  }

  const BILLIONTH := IsoParts(2001, 9, 9, 1, 46, 40, "", Utc)

  lemma BillionthValid()
    ensures ValidParts(BILLIONTH)
  {
  }

  lemma BillionthTexts()
    ensures Print(BILLIONTH) == "2001-09-09T01:46:40Z"
    ensures Print(BILLIONTH.(hour := 3, zone := Offset(true, 2, 0))) == "2001-09-09T03:46:40+02:00"
  {
    hide PrintHead, FixedWidth;
    BillionthHead(1, "", Utc);
    BillionthHead(3, "", Offset(true, 2, 0));
    BillionthFields();
    assert PrintZone(Offset(true, 2, 0)) == "+02:00";
    assert "2001-09-09T" + "01" + ":46:40" == "2001-09-09T01:46:40";
    assert "2001-09-09T" + "03" + ":46:40" == "2001-09-09T03:46:40";
  }

  lemma BillionthDay()
    ensures DayNumber(2001, 9, 9) == 11574
  {
    assert DaysBeforeMonth(2001, 3) == DaysBeforeMonth(2001, 2) + 28 == 59;
    assert DaysBeforeMonth(2001, 5) == DaysBeforeMonth(2001, 4) + 30 == 120;
    assert DaysBeforeMonth(2001, 7) == DaysBeforeMonth(2001, 6) + 30 == 181;
    assert DaysBeforeMonth(2001, 9) == DaysBeforeMonth(2001, 8) + 31 == 243;
  }

  /** The billionth second of the epoch, as it is widely known, read from UTC and from two hours ahead. */
  lemma BillionthSecond()
    ensures EpochMicroseconds("2001-09-09T01:46:40Z") == Some(1_000_000_000_000_000)
    ensures EpochMicroseconds("2001-09-09T03:46:40+02:00") == Some(1_000_000_000_000_000)
  {
    hide Print, EpochMicroseconds, DayNumber, CalendarDate, FractionMicroseconds;
    BillionthValid();
    BillionthTexts();
    BillionthDay();
    NoFraction();
    UtcInstant(BILLIONTH);
    UtcInstant(BILLIONTH.(hour := 3));
    OffsetMoves(BILLIONTH.(hour := 3), 2, 0);
  }

  lemma NoFraction()
    ensures FractionMicroseconds("") == 0
  {
  }
}
