/**
 * The concrete timestamps the date-time utilities are exercised with,
 * each derived from the general round-trip lemmas.
 */
module DateTimeExamples {

  import opened Wrappers
  import opened Digits
  import opened Temporal
  import opened DateTimeUtils
  import opened DateTimeProperties

  // ---------------------------------------------------------------------
  // Assembling texts from the padded fields
  // ---------------------------------------------------------------------

  /** A literal run of digits parses as the number whose padded form it is. */
  lemma ParsesAs(s: string, n: nat)
    requires 0 < |s| && n < Pow10(|s|) && s == Pad(n, |s|)
    ensures ParseNumber(s) == Some(n)
  {
    ValueOfPad(n, |s|);
  }

  lemma DateTextIs(d: LocalDate, year: string, month: string, day: string)
    requires d.Valid() && 1 <= d.year <= 9999
    requires year == Pad(d.year, 4) && month == Pad(d.month, 2) && day == Pad(d.day, 2)
    ensures ConvertDateToString(d) == year + "-" + month + "-" + day
  {
    assert YearText(d.year) == year;
  }

  lemma ClockTextIs(t: LocalTime, hour: string, minute: string, second: string)
    requires t.Valid()
    requires hour == Pad(t.hour, 2) && minute == Pad(t.minute, 2) && second == Pad(t.second, 2)
    ensures ClockText(t) == hour + ":" + minute + ":" + second
  {
  }

  lemma LocalTimeStringIs(t: LocalTime, clock: string, millis: string)
    requires t.Valid() && clock == ClockText(t) && millis == Pad(t.nano / NanosPerMilli, 3)
    ensures LocalTimeString(t) == clock + "." + millis
  {
  }

  lemma TomcatTextIs(t: LocalDateTime, day: string, year: string, time: string)
    requires t.Valid() && 1 <= t.date.year <= 9999
    requires day == Pad(t.date.day, 2) && year == Pad(t.date.year, 4) && time == LocalTimeString(t.time)
    ensures TomcatText(t) == day + "-" + MonthAbbreviations[t.date.month - 1] + "-" + year + " " + time
  {
    assert YearText(t.date.year) == year;
  }

  lemma DateFieldsAre(s: string, year: nat, month: nat, day: nat)
    requires |s| == 10 && s[4] == '-' && s[7] == '-'
    requires year < 10000 && s[..4] == Pad(year, 4)
    requires month < 100 && s[5..7] == Pad(month, 2)
    requires day < 100 && s[8..] == Pad(day, 2)
    ensures DateFields(s) == Some((year, month, day))
  {
    ParsesAs(s[..4], year);
    ParsesAs(s[5..7], month);
    ParsesAs(s[8..], day);
  }

  lemma DateTextFieldsAre(s: string, yearText: string, monthText: string, dayText: string, year: nat, month: nat, day: nat)
    requires s == yearText + "-" + monthText + "-" + dayText
    requires year < 10000 && yearText == Pad(year, 4)
    requires month < 100 && monthText == Pad(month, 2)
    requires day < 100 && dayText == Pad(day, 2)
    ensures DateFields(s) == Some((year, month, day))
  {
    assert s[..4] == yearText && s[5..7] == monthText && s[8..] == dayText;
    DateFieldsAre(s, year, month, day);
  }

  lemma ClockFieldsAre(s: string, hour: nat, minute: nat, second: nat)
    requires |s| == 8 && s[2] == ':' && s[5] == ':'
    requires hour < 100 && s[..2] == Pad(hour, 2)
    requires minute < 100 && s[3..5] == Pad(minute, 2)
    requires second < 100 && s[6..] == Pad(second, 2)
    ensures ClockFields(s) == Some((hour, minute, second))
  {
    ParsesAs(s[..2], hour);
    ParsesAs(s[3..5], minute);
    ParsesAs(s[6..], second);
  }

  // ---------------------------------------------------------------------
  // Tomcat and ISO log timestamps
  //
  // Each example names its text and its date-time as parameters fixed by
  // the precondition, so that the solver meets them as values to reason
  // about rather than as literals to evaluate eagerly.
  // ---------------------------------------------------------------------

  lemma TomcatSampleTime(t: LocalTime)
    requires t == LocalTime(14, 32, 10, 213_000_000)
    ensures LocalTimeString(t) == "14:32:10.213"
  {
    PadTwo(14); PadTwo(32); PadTwo(10);
    ClockTextIs(t, "14", "32", "10");
    PadThree(213);
    LocalTimeStringIs(t, "14:32:10", "213");
  }

  lemma TomcatSampleText(t: LocalDateTime)
    requires t == LocalDateTime(LocalDate(2025, 5, 15), LocalTime(14, 32, 10, 213_000_000))
    ensures TomcatText(t) == "15-May-2025 14:32:10.213"
  {
    TomcatSampleTime(t.time);
    PadTwo(15); PadFour(2025);
    TomcatTextIs(t, "15", "2025", "14:32:10.213");
  }

  lemma TomcatTimestampExample(s: string, t: LocalDateTime)
    requires s == "15-May-2025 14:32:10.213"
    requires t == LocalDateTime(LocalDate(2025, 5, 15), LocalTime(14, 32, 10, 213_000_000))
    ensures FromTomcatLogTimestamp(s) == Some(t)
  {
    TomcatSampleText(t);
    TomcatRoundTrip(t);
  }

  lemma NewYearSampleTime(t: LocalTime)
    requires t == LocalTime(0, 0, 0, 0)
    ensures LocalTimeString(t) == "00:00:00.000"
  {
    PadTwo(0);
    ClockTextIs(t, "00", "00", "00");
    PadThree(0);
    LocalTimeStringIs(t, "00:00:00", "000");
  }

  lemma NewYearSampleText(t: LocalDateTime)
    requires t == LocalDateTime(LocalDate(2023, 1, 1), LocalTime(0, 0, 0, 0))
    ensures TomcatText(t) == "01-Jan-2023 00:00:00.000"
  {
    NewYearSampleTime(t.time);
    PadTwo(1); PadFour(2023);
    TomcatTextIs(t, "01", "2023", "00:00:00.000");
    NewYearJoin(MonthAbbreviations[t.date.month - 1]);
  }

  /** Proof step: the printed fields of the New Year sample join into its literal text. */
  lemma NewYearJoin(month: string)
    requires month == "Jan"
    ensures "01" + "-" + month + "-" + "2023" + " " + "00:00:00.000" == "01-Jan-2023 00:00:00.000"
  {
  }

  lemma NewYearTimestampExample(s: string, t: LocalDateTime)
    requires s == "01-Jan-2023 00:00:00.000"
    requires t == LocalDateTime(LocalDate(2023, 1, 1), LocalTime(0, 0, 0, 0))
    ensures FromTomcatLogTimestamp(s) == Some(t)
  {
    NewYearSampleText(t);
    TomcatRoundTrip(t);
  }

  lemma IsoSampleTime(t: LocalTime)
    requires t == LocalTime(9, 31, 14, 88_000_000)
    ensures LocalTimeString(t) == "09:31:14.088"
  {
    PadTwo(9); PadTwo(31); PadTwo(14);
    ClockTextIs(t, "09", "31", "14");
    PadThree(88);
    LocalTimeStringIs(t, "09:31:14", "088");
  }

  lemma IsoSampleDate(d: LocalDate)
    requires d == LocalDate(2025, 5, 16)
    ensures ConvertDateToString(d) == "2025-05-16"
  {
    PadFour(2025); PadTwo(5); PadTwo(16);
    DateTextIs(d, "2025", "05", "16");
  }

  lemma IsoSampleText(t: LocalDateTime)
    requires t == LocalDateTime(LocalDate(2025, 5, 16), LocalTime(9, 31, 14, 88_000_000))
    ensures IsoOffsetText(t, "Z") == "2025-05-16T09:31:14.088Z"
  {
    IsoSampleTime(t.time);
    IsoSampleDate(t.date);
  }

  lemma IsoOffsetTimestampExample(s: string, t: LocalDateTime)
    requires s == "2025-05-16T09:31:14.088Z"
    requires t == LocalDateTime(LocalDate(2025, 5, 16), LocalTime(9, 31, 14, 88_000_000))
    ensures FromTomcatLogTimestamp(s) == Some(t)
  {
    IsoSampleText(t);
    IsoOffsetRoundTrip(t, "Z");
  }

  lemma RejectedTimestampExamples()
    ensures FromTomcatLogTimestamp("2025-05-15 14:32:10.213").None?
    ensures FromTomcatLogTimestamp("15-May-2025 14:32").None?
  {
  }

  // ---------------------------------------------------------------------
  // UTC timestamps and dates
  // ---------------------------------------------------------------------

  lemma LocalTimeStringAfternoonExample(t: LocalTime)
    requires t == LocalTime(14, 5, 9, 123_000_000)
    ensures LocalTimeString(t) == "14:05:09.123"
  {
    PadTwo(14); PadTwo(5); PadTwo(9);
    ClockTextIs(t, "14", "05", "09");
    PadThree(123);
    LocalTimeStringIs(t, "14:05:09", "123");
  }

  lemma LocalTimeStringExample(t: LocalTime)
    requires t == LocalTime(3, 4, 5, 7_000_000)
    ensures LocalTimeString(t) == "03:04:05.007"
  {
    PadTwo(3); PadTwo(4); PadTwo(5);
    ClockTextIs(t, "03", "04", "05");
    PadThree(7);
    LocalTimeStringIs(t, "03:04:05", "007");
  }

  lemma UtcSampleDate(d: LocalDate)
    requires d == LocalDate(2023, 11, 22)
    ensures ConvertDateToString(d) == "2023-11-22"
  {
    PadFour(2023); PadTwo(11); PadTwo(22);
    DateTextIs(d, "2023", "11", "22");
  }

  lemma UtcSampleClock(t: LocalTime)
    requires t == LocalTime(5, 30, 12, 0)
    ensures ClockText(t) == "05:30:12"
  {
    PadTwo(5); PadTwo(30); PadTwo(12);
    ClockTextIs(t, "05", "30", "12");
  }

  lemma UtcSampleClockText(t: LocalDateTime)
    requires t == LocalDateTime(LocalDate(2023, 11, 22), LocalTime(5, 30, 12, 0))
    ensures ConvertLocalDateTimeToString(t) == "2023-11-22 05:30:12"
  {
    UtcSampleDate(t.date);
    UtcSampleClock(t.time);
  }

  /** Proof step: the sample date-time text followed by the zone suffix is the literal UTC text. */
  lemma UtcSuffix(text: string)
    requires text == "2023-11-22 05:30:12"
    ensures text + " UTC" == "2023-11-22 05:30:12 UTC"
  {
  }

  lemma UtcSampleText(t: LocalDateTime)
    requires t == LocalDateTime(LocalDate(2023, 11, 22), LocalTime(5, 30, 12, 0))
    ensures LocalDateTimeToUTCTime(t) == "2023-11-22 05:30:12 UTC"
  {
    UtcSampleClockText(t);
    UtcSuffix(ConvertLocalDateTimeToString(t));
  }

  lemma UtcTimestampExamples(s: string, t: LocalDateTime)
    requires s == "2023-11-22 05:30:12 UTC"
    requires t == LocalDateTime(LocalDate(2023, 11, 22), LocalTime(5, 30, 12, 0))
    ensures LocalDateTimeToUTCTime(t) == s
    ensures ConvertZonedUTCTimeStringToLocalDateTime(s) == Some(t)
    ensures IsValidUTCTimestamp(s)
  {
    UtcSampleText(t);
    UtcRoundTrip(t);
    UtcTextValidity(t);
  }

  lemma RejectedUtcTimestampExamples()
    ensures !IsValidUTCTimestamp("2023-11-22 05:30:12")
    ensures !IsValidUTCTimestamp("2023-11-22 05:30:12Z")
  {
  }

  lemma DateExamples(s: string, d: LocalDate)
    requires s == "2001-01-18" && d == LocalDate(2001, 1, 18)
    ensures ConvertDateToString(d) == s
    ensures ConvertStringToLocalDate(s) == Some(d)
  {
    PadFour(2001); PadTwo(1); PadTwo(18);
    DateTextIs(d, "2001", "01", "18");
    DateRoundTrip(d);
  }

  lemma DateOfTextSample(d: LocalDate)
    requires d == LocalDate(2023, 5, 8)
    ensures ConvertDateToString(d) == "2023-05-08"
  {
    PadFour(2023); PadTwo(5); PadTwo(8);
    DateTextIs(d, "2023", "05", "08");
  }

  lemma ClockOfTextSample(t: LocalTime)
    requires t == LocalTime(14, 30, 15, 0)
    ensures ClockText(t) == "14:30:15"
  {
    PadTwo(14); PadTwo(30); PadTwo(15);
    ClockTextIs(t, "14", "30", "15");
  }

  lemma DateTimeTextExample(t: LocalDateTime)
    requires t == LocalDateTime(LocalDate(2023, 5, 8), LocalTime(14, 30, 15, 0))
    ensures ConvertLocalDateTimeToString(t) == "2023-05-08 14:30:15"
  {
    DateOfTextSample(t.date);
    ClockOfTextSample(t.time);
  }

  lemma ParsedDateSample(d: LocalDate)
    requires d == LocalDate(2022, 12, 26)
    ensures ConvertDateToString(d) == "2022-12-26"
  {
    PadFour(2022); PadTwo(12); PadTwo(26);
    DateTextIs(d, "2022", "12", "26");
  }

  lemma ParsedClockSample(t: LocalTime)
    requires t == LocalTime(8, 25, 12, 0)
    ensures ClockText(t) == "08:25:12"
  {
    PadTwo(8); PadTwo(25); PadTwo(12);
    ClockTextIs(t, "08", "25", "12");
  }

  lemma ParsedTextSample(t: LocalDateTime)
    requires t == LocalDateTime(LocalDate(2022, 12, 26), LocalTime(8, 25, 12, 0))
    ensures ConvertLocalDateTimeToString(t) == "2022-12-26 08:25:12"
  {
    ParsedDateSample(t.date);
    ParsedClockSample(t.time);
  }

  lemma DateTimeStringExample(s: string, t: LocalDateTime)
    requires s == "2022-12-26 08:25:12"
    requires t == LocalDateTime(LocalDate(2022, 12, 26), LocalTime(8, 25, 12, 0))
    ensures ConvertDateTimeStringToLocalDateTime(s) == Some(t)
  {
    ParsedTextSample(t);
    DateTimeTextRoundTrip(t);
  }

  lemma DayClampFields(s: string)
    requires s == "2023-02-30"
    ensures DateFields(s) == Some((2023, 2, 30))
  {
    PadFour(2023); PadTwo(2); PadTwo(30);
    DateTextFieldsAre(s, "2023", "02", "30", 2023, 2, 30);
  }

  /** The SMART resolver clamps a day past the end of its month. */
  lemma DayClampExample(s: string)
    requires s == "2023-02-30"
    ensures ConvertStringToLocalDate(s) == Some(LocalDate(2023, 2, 28))
  {
    DayClampFields(s);
    assert DaysInMonth(2023, 2) == 28;
  }

  lemma LeapDayClampFields(s: string)
    requires s == "2024-02-31"
    ensures DateFields(s) == Some((2024, 2, 31))
  {
    PadFour(2024); PadTwo(2); PadTwo(31);
    DateTextFieldsAre(s, "2024", "02", "31", 2024, 2, 31);
  }

  lemma LeapDayClampExample(s: string)
    requires s == "2024-02-31"
    ensures ConvertStringToLocalDate(s) == Some(LocalDate(2024, 2, 29))
  {
    LeapDayClampFields(s);
    assert DaysInMonth(2024, 2) == 29;
  }

  /** Year-of-era zero is rejected. */
  lemma YearZeroRejected(s: string)
    requires s == "0000-01-01"
    ensures ConvertStringToLocalDate(s).None?
  {
    PadFour(0); PadTwo(1);
    DateTextFieldsAre(s, "0000", "01", "01", 0, 1, 1);
  }

  /** A day of month above 31 is rejected rather than clamped. */
  lemma DayOutOfRangeRejected(s: string)
    requires s == "2023-02-32"
    ensures ConvertStringToLocalDate(s).None?
  {
    PadFour(2023); PadTwo(2); PadTwo(32);
    DateTextFieldsAre(s, "2023", "02", "32", 2023, 2, 32);
  }

  lemma EndOfYearDate(date: string)
    requires date == "2023-12-31"
    ensures DateFields(date) == Some((2023, 12, 31))
  {
    PadFour(2023); PadTwo(12); PadTwo(31);
    DateTextFieldsAre(date, "2023", "12", "31", 2023, 12, 31);
  }

  lemma EndOfDayClock(clock: string)
    requires clock == "24:00:00"
    ensures ClockFields(clock) == Some((24, 0, 0))
  {
    PadTwo(24); PadTwo(0);
    ClockFieldsAre(clock, 24, 0, 0);
  }

  lemma EndOfYearResolves()
    ensures Resolve(RawFields(2023, 12, 31, 24, 0, 0, 0)) == Some(LocalDateTime(LocalDate(2024, 1, 1), Midnight))
  {
  }

  /** `24:00:00` resolves to midnight of the next day. */
  lemma EndOfDayExample(s: string)
    requires s == "2023-12-31 24:00:00 UTC"
    ensures ConvertZonedUTCTimeStringToLocalDateTime(s) == Some(LocalDateTime(LocalDate(2024, 1, 1), Midnight))
  {
    assert s[..19][..10] == "2023-12-31" && s[..19][11..] == "24:00:00";
    EndOfYearDate(s[..19][..10]);
    EndOfDayClock(s[..19][11..]);
    EndOfYearResolves();
  }

  lemma SameDayExamples()
    ensures IsSameDay(LocalDate(2000, 11, 10), LocalDate(2000, 11, 10))
    ensures !IsSameDay(LocalDate(1995, 5, 20), LocalDate(2025, 8, 31))
  {
  }
}
