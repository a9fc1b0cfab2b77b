/**
 * What the formats of `DateTimeUtils` promise each other: every formatter
 * is undone by its parser, the UTC text is what the validator accepts,
 * and two date-times share a UTC text exactly when they agree to the
 * second.
 */
module DateTimeProperties {

  import opened Wrappers
  import opened Digits
  import opened Temporal
  import opened DateTimeUtils

  /** Text in the Tomcat pattern `dd-MMM-yyyy HH:mm:ss.SSS`. */
  function TomcatText(t: LocalDateTime): string
    requires t.Valid()
  {
    Pad(t.date.day, 2) + "-" + MonthAbbreviations[t.date.month - 1] + "-" + YearText(t.date.year)
    + " " + LocalTimeString(t.time)
  }

  /** Text in the pattern `yyyy-MM-dd'T'HH:mm:ss.SSSX` with the given offset text. */
  function IsoOffsetText(t: LocalDateTime, offset: string): string
    requires t.Valid()
  {
    ConvertDateToString(t.date) + "T" + LocalTimeString(t.time) + offset
  }

  // ---------------------------------------------------------------------
  // Building blocks
  // ---------------------------------------------------------------------

  lemma ParsePad(n: nat, width: nat)
    requires 0 < width && n < Pow10(width)
    ensures ParseNumber(Pad(n, width)) == Some(n)
  {
    ValueOfPad(n, width);
  }

  lemma DateFieldsOfText(d: LocalDate)
    requires d.Valid() && 1 <= d.year <= 9999
    ensures DateFields(ConvertDateToString(d)) == Some((d.year as nat, d.month as nat, d.day as nat))
  {
    var s := ConvertDateToString(d);
    assert s[..4] == Pad(d.year, 4);
    assert s[5..7] == Pad(d.month, 2);
    assert s[8..] == Pad(d.day, 2);
    ParsePad(d.year, 4);
    ParsePad(d.month, 2);
    ParsePad(d.day, 2);
  }

  lemma ClockFieldsOfText(t: LocalTime)
    requires t.Valid()
    ensures ClockFields(ClockText(t)) == Some((t.hour as nat, t.minute as nat, t.second as nat))
  {
    var s := ClockText(t);
    assert s[..2] == Pad(t.hour, 2);
    assert s[3..5] == Pad(t.minute, 2);
    assert s[6..] == Pad(t.second, 2);
    ParsePad(t.hour, 2);
    ParsePad(t.minute, 2);
    ParsePad(t.second, 2);
  }

  lemma MillisOfText(t: LocalTime)
    requires t.Valid()
    ensures MillisFraction(LocalTimeString(t)[8..]) == Some(TruncateToMillis(t).nano as nat)
  {
    var s := LocalTimeString(t)[8..];
    assert s[1..] == Pad(t.nano / NanosPerMilli, 3);
    ParsePad(t.nano / NanosPerMilli, 3);
  }

  /** A time with no fraction of a second prints its clock text and `.000`. */
  lemma WholeSecondTimeString(t: LocalTime)
    requires t.Valid() && t.nano == 0
    ensures LocalTimeString(t) == ClockText(t) + ".000"
  {
    assert Pad(0, 3) == "000" by {
      assert Pad(0, 1) == "0";
      assert Pad(0, 2) == "00";
    }
  }

  lemma MonthAbbreviationsDistinct()
    ensures forall i, j :: 0 <= i < j < 12 ==> MonthAbbreviations[i] != MonthAbbreviations[j]
  {
  }

  lemma MonthAbbreviationLength(month: int)
    requires 1 <= month <= 12
    ensures |MonthAbbreviations[month - 1]| == 3
  {
  }

  /** A valid date-time with a positive year is resolved from its own fields unchanged. */
  lemma ResolveOwnFields(t: LocalDateTime)
    requires t.Valid() && t.date.year >= 1
    ensures Resolve(RawFields(t.date.year, t.date.month, t.date.day,
                              t.time.hour, t.time.minute, t.time.second, t.time.nano)) == Some(t)
  {
  }

  lemma MonthOfItsAbbreviation(month: int)
    requires 1 <= month <= 12
    ensures MonthOfAbbreviation(MonthAbbreviations[month - 1]) == Some(month as nat)
  {
    MonthAbbreviationsDistinct();
  }

  // ---------------------------------------------------------------------
  // Round trips
  // ---------------------------------------------------------------------

  /** `convertStringToLocalDate` undoes `convertDateToString` for four-digit years. */
  lemma DateRoundTrip(d: LocalDate)
    requires d.Valid() && 1 <= d.year <= 9999
    ensures ConvertStringToLocalDate(ConvertDateToString(d)) == Some(d)
  {
    DateFieldsOfText(d);
  }

  /**
   * Formatting a parsed date gives back the text exactly when the resolver
   * kept the written day (it clamps a day beyond the end of its month).
   */
  lemma DateTextRoundTrip(s: string, d: LocalDate)
    requires ConvertStringToLocalDate(s) == Some(d)
    ensures ConvertDateToString(d) == s <==> DateFields(s).value.2 == d.day
  {
    var (year, month, day) := DateFields(s).value;
    assert d.year == year && d.month == month;
    assert 1 <= year <= 9999 by { ValueOfBound(s[..4]); }
    if DateFields(s).value.2 == d.day {
      PadValueOf(s[..4]);
      PadValueOf(s[5..7]);
      PadValueOf(s[8..]);
      assert s == s[..4] + "-" + s[5..7] + "-" + s[8..];
    }
    if ConvertDateToString(d) == s {
      DateFieldsOfText(d);
    }
  }

  /** Where each field sits in the Tomcat text. */
  lemma TomcatTextSlices(t: LocalDateTime)
    requires t.Valid() && 1 <= t.date.year <= 9999
    ensures var s := TomcatText(t);
      && |s| == 24 && s[2] == '-' && s[6] == '-' && s[11] == ' '
      && s[..2] == Pad(t.date.day, 2) && s[3..6] == MonthAbbreviations[t.date.month - 1]
      && s[7..11] == Pad(t.date.year, 4) && s[12..20] == ClockText(t.time)
      && s[20..] == LocalTimeString(t.time)[8..]
  {
    var day := Pad(t.date.day, 2);
    var month := MonthAbbreviations[t.date.month - 1];
    var year := Pad(t.date.year, 4);
    var clock := ClockText(t.time);
    var fraction := LocalTimeString(t.time)[8..];
    MonthAbbreviationLength(t.date.month);
    assert LocalTimeString(t.time) == clock + fraction;
    var s := TomcatText(t);
    assert s == day + "-" + month + "-" + year + " " + clock + fraction;
  }

  /** The Tomcat text of a date-time parses back to it, cut to milliseconds. */
  lemma TomcatRoundTrip(t: LocalDateTime)
    requires t.Valid() && 1 <= t.date.year <= 9999
    ensures FromTomcatLogTimestamp(TomcatText(t)) == Some(LocalDateTime(t.date, TruncateToMillis(t.time)))
  {
    TomcatTextSlices(t);
    ParsePad(t.date.day, 2);
    ParsePad(t.date.year, 4);
    MonthOfItsAbbreviation(t.date.month);
    ClockFieldsOfText(t.time);
    MillisOfText(t.time);
    ResolveOwnFields(LocalDateTime(t.date, TruncateToMillis(t.time)));
  }

  /** Where each field sits in the ISO text with an offset. */
  lemma IsoOffsetTextSlices(t: LocalDateTime, offset: string)
    requires t.Valid() && 1 <= t.date.year <= 9999
    ensures var s := IsoOffsetText(t, offset);
      |s| == 23 + |offset| && s[10] == 'T' && s[2] == Pad(t.date.year, 4)[2]
      && s[..10] == ConvertDateToString(t.date) && s[11..19] == ClockText(t.time)
      && s[19..23] == LocalTimeString(t.time)[8..] && s[23..] == offset
  {
    var date := ConvertDateToString(t.date);
    var clock := ClockText(t.time);
    var fraction := LocalTimeString(t.time)[8..];
    assert LocalTimeString(t.time) == clock + fraction;
    var s := IsoOffsetText(t, offset);
    assert s == date + "T" + clock + fraction + offset;
    assert s[2] == date[2] == Pad(t.date.year, 4)[2];
  }

  /**
   * The ISO text with any offset parses back to the date-time cut to
   * milliseconds: the Tomcat pattern fails on it and the offset is dropped.
   */
  lemma IsoOffsetRoundTrip(t: LocalDateTime, offset: string)
    requires t.Valid() && 1 <= t.date.year <= 9999
    requires IsOffsetText(offset)
    ensures ParseTomcatTimestamp(IsoOffsetText(t, offset)).None?
    ensures FromTomcatLogTimestamp(IsoOffsetText(t, offset)) == Some(LocalDateTime(t.date, TruncateToMillis(t.time)))
  {
    IsoOffsetTextSlices(t, offset);
    DateFieldsOfText(t.date);
    ClockFieldsOfText(t.time);
    MillisOfText(t.time);
    ResolveOwnFields(LocalDateTime(t.date, TruncateToMillis(t.time)));
  }

  /** `convertDateTimeStringToLocalDateTime` undoes `convertLocalDateTimeToString`, up to the second. */
  lemma DateTimeTextRoundTrip(t: LocalDateTime)
    requires t.Valid() && 1 <= t.date.year <= 9999
    ensures ConvertDateTimeStringToLocalDateTime(ConvertLocalDateTimeToString(t)) == Some(TruncateToSeconds(t))
  {
    var s := ConvertLocalDateTimeToString(t);
    assert s[..10] == ConvertDateToString(t.date);
    assert s[11..] == ClockText(t.time);
    DateFieldsOfText(t.date);
    ClockFieldsOfText(t.time);
  }

  /** `convertZonedUTCTimeStringToLocalDateTime` undoes `localDateTimeToUTCTime`, up to the second. */
  lemma UtcRoundTrip(t: LocalDateTime)
    requires t.Valid() && 1 <= t.date.year <= 9999
    ensures ConvertZonedUTCTimeStringToLocalDateTime(LocalDateTimeToUTCTime(t)) == Some(TruncateToSeconds(t))
  {
    var s := LocalDateTimeToUTCTime(t);
    assert s[19..] == " UTC";
    assert s[..19][..10] == ConvertDateToString(t.date);
    assert s[..19][11..] == ClockText(t.time);
    DateFieldsOfText(t.date);
    ClockFieldsOfText(t.time);
  }

  /** Where the UTC timestamp pattern wants digits, and what it wants elsewhere. */
  lemma UtcShapeFields()
    ensures |UtcTimestampShape| == 23
    ensures forall i :: 0 <= i < 19 && i != 4 && i != 7 && i != 10 && i != 13 && i != 16 ==> UtcTimestampShape[i] == '#'
    ensures UtcTimestampShape[4] == '-' && UtcTimestampShape[7] == '-' && UtcTimestampShape[10] == ' '
    ensures UtcTimestampShape[13] == ':' && UtcTimestampShape[16] == ':'
    ensures UtcTimestampShape[19..] == " UTC"
  {
  }

  /** A run of digits found at `lo` puts a digit at each of its positions. */
  lemma DigitRun(s: string, lo: nat, hi: nat)
    requires lo <= hi <= |s| && AllDigits(s[lo..hi])
    ensures forall i :: lo <= i < hi ==> IsDigit(s[i])
  {
    forall i | lo <= i < hi ensures IsDigit(s[i]) {
      assert s[i] == s[lo..hi][i - lo];
    }
  }

  /** Everything the UTC parser accepts is a valid UTC timestamp. */
  lemma ParsedUtcTextIsValid(s: string)
    requires ConvertZonedUTCTimeStringToLocalDateTime(s).Some?
    ensures IsValidUTCTimestamp(s)
  {
    var u := s[..19];
    assert DateFields(u[..10]).Some? && ClockFields(u[11..]).Some?;
    assert u[..10][..4] == s[0..4] && u[..10][5..7] == s[5..7] && u[..10][8..] == s[8..10];
    assert u[11..][..2] == s[11..13] && u[11..][3..5] == s[14..16] && u[11..][6..] == s[17..19];
    DigitRun(s, 0, 4); DigitRun(s, 5, 7); DigitRun(s, 8, 10);
    DigitRun(s, 11, 13); DigitRun(s, 14, 16); DigitRun(s, 17, 19);
    UtcShapeFields();
    forall i | 0 <= i < |s|
      ensures FitsShape(s[i], UtcTimestampShape[i])
    {
      if i >= 19 {
        assert s[i] == s[19..][i - 19];
        assert UtcTimestampShape[i] == UtcTimestampShape[19..][i - 19];
      }
    }
  }

  /** The date and clock fields written in the UTC text of a date-time with a four-digit year. */
  lemma UtcTextFields(t: LocalDateTime)
    requires t.Valid() && 1 <= t.date.year <= 9999
    ensures DateFields(LocalDateTimeToUTCTime(t)[..10]) == Some((t.date.year as nat, t.date.month as nat, t.date.day as nat))
    ensures ClockFields(LocalDateTimeToUTCTime(t)[11..19]) == Some((t.time.hour as nat, t.time.minute as nat, t.time.second as nat))
  {
    var date := ConvertDateToString(t.date);
    var clock := ClockText(t.time);
    var text := LocalDateTimeToUTCTime(t);
    assert text == date + " " + clock + " UTC";
    assert text[..10] == date && text[11..19] == clock;
    DateFieldsOfText(t.date);
    ClockFieldsOfText(t.time);
  }

  /** The fields a successful UTC parse read, and how the result relates to them. */
  lemma UtcParseFields(s: string, t: LocalDateTime)
    requires ConvertZonedUTCTimeStringToLocalDateTime(s) == Some(t)
    ensures var (year, month, day) := DateFields(s[..10]).value;
            var (hour, minute, second) := ClockFields(s[11..19]).value;
            Resolve(RawFields(year, month, day, hour, minute, second, 0)) == Some(t)
  {
    var u := s[..19];
    assert u[..10] == s[..10] && u[11..] == s[11..19];
  }

  /** A `yyyy-MM-dd` text whose fields form a valid date is the formatted form of that date. */
  lemma DateTextOfFields(date: string, d: LocalDate)
    requires d.Valid() && d.year >= 1
    requires DateFields(date) == Some((d.year as nat, d.month as nat, d.day as nat))
    ensures ConvertDateToString(d) == date
  {
    assert |date| == 10 && date[4] == '-' && date[7] == '-';
    var year, month, day := date[..4], date[5..7], date[8..];
    assert date == year + "-" + month + "-" + day by {
      assert date[4..5] == "-" && date[7..8] == "-";
      assert date == date[..4] + date[4..5] + date[5..7] + date[7..8] + date[8..];
    }
    assert ParseNumber(year) == Some(d.year as nat) && ParseNumber(month) == Some(d.month as nat)
        && ParseNumber(day) == Some(d.day as nat);
    PadValueOf(year);
    PadValueOf(month);
    PadValueOf(day);
    assert YearText(d.year) == year;
  }

  /** An `HH:mm:ss` text whose fields form a valid time is the formatted form of that time. */
  lemma ClockTextOfFields(clock: string, t: LocalTime)
    requires t.Valid()
    requires ClockFields(clock) == Some((t.hour as nat, t.minute as nat, t.second as nat))
    ensures ClockText(t) == clock
  {
    PadValueOf(clock[..2]);
    PadValueOf(clock[3..5]);
    PadValueOf(clock[6..]);
    assert clock == clock[..2] + ":" + clock[3..5] + ":" + clock[6..];
  }

  /** A UTC text that the resolver read without adjusting any field is reproduced by formatting. */
  lemma UtcTextOfExactParse(s: string, t: LocalDateTime)
    requires ConvertZonedUTCTimeStringToLocalDateTime(s) == Some(t)
    requires DateFields(s[..10]).value.2 == t.date.day
    requires ClockFields(s[11..19]).value.0 == t.time.hour
    ensures LocalDateTimeToUTCTime(t) == s
  {
    UtcParseFields(s, t);
    DateTextOfFields(s[..10], t.date);
    ClockTextOfFields(s[11..19], t.time);
    assert s == s[..10] + " " + s[11..19] + " UTC";
  }

  /** A UTC text that formatting reproduces was read without adjusting any field. */
  lemma ExactParseOfUtcText(s: string, t: LocalDateTime)
    requires ConvertZonedUTCTimeStringToLocalDateTime(s) == Some(t)
    requires LocalDateTimeToUTCTime(t) == s
    ensures DateFields(s[..10]).value.2 == t.date.day
    ensures ClockFields(s[11..19]).value.0 == t.time.hour
  {
    UtcParseFields(s, t);
    var year := DateFields(s[..10]).value.0;
    assert year < Pow10(4) && Pow10(4) == 10000;
    assert t.date.year == year;
    UtcTextFields(t);
  }

  /**
   * Formatting a parsed UTC timestamp gives back the text exactly when the
   * resolver kept every written field: no day clamped to the end of its
   * month and no `24:00` rolled over to the next day.
   */
  lemma UtcTextRoundTrip(s: string, t: LocalDateTime)
    requires ConvertZonedUTCTimeStringToLocalDateTime(s) == Some(t)
    ensures LocalDateTimeToUTCTime(t) == s <==>
              && DateFields(s[..10]).value.2 == t.date.day
              && ClockFields(s[11..19]).value.0 == t.time.hour
  {
    if DateFields(s[..10]).value.2 == t.date.day && ClockFields(s[11..19]).value.0 == t.time.hour {
      UtcTextOfExactParse(s, t);
    }
    if LocalDateTimeToUTCTime(t) == s {
      ExactParseOfUtcText(s, t);
    }
  }

  /** The UTC text is a valid UTC timestamp exactly when the year-of-era has at most four digits. */
  lemma UtcTextValidity(t: LocalDateTime)
    requires t.Valid()
    ensures IsValidUTCTimestamp(LocalDateTimeToUTCTime(t)) <==> YearOfEra(t.date.year) <= 9999
  {
    var s := LocalDateTimeToUTCTime(t);
    if YearOfEra(t.date.year) <= 9999 {
      var year := Pad(YearOfEra(t.date.year), 4);
      var month := Pad(t.date.month, 2);
      var day := Pad(t.date.day, 2);
      var hour := Pad(t.time.hour, 2);
      var minute := Pad(t.time.minute, 2);
      var second := Pad(t.time.second, 2);
      assert s == year + "-" + month + "-" + day + " " + hour + ":" + minute + ":" + second + " UTC";
      forall i | 0 <= i < |s|
        ensures FitsShape(s[i], UtcTimestampShape[i])
      {
        if i < 4 {
          assert s[i] == year[i];
        } else if 5 <= i < 7 {
          assert s[i] == month[i - 5];
        } else if 8 <= i < 10 {
          assert s[i] == day[i - 8];
        } else if 11 <= i < 13 {
          assert s[i] == hour[i - 11];
        } else if 14 <= i < 16 {
          assert s[i] == minute[i - 14];
        } else if 17 <= i < 19 {
          assert s[i] == second[i - 17];
        }
      }
    } else {
      assert s[0] == '+';
    }
  }

  // ---------------------------------------------------------------------
  // The duplicate-check key
  // ---------------------------------------------------------------------

  /** The UTC text reads nothing below the second. */
  lemma UtcTextIgnoresSubSeconds(t: LocalDateTime)
    requires t.Valid()
    ensures TruncateToSeconds(t).Valid()
    ensures LocalDateTimeToUTCTime(TruncateToSeconds(t)) == LocalDateTimeToUTCTime(t)
  {
  }

  /**
   * Two date-times with four-digit years have the same UTC text exactly
   * when they agree to the second: the duplicate check cannot tell apart
   * records that differ only in their milliseconds.
   */
  lemma SameUtcTextIffSameSecond(a: LocalDateTime, b: LocalDateTime)
    requires a.Valid() && 1 <= a.date.year <= 9999
    requires b.Valid() && 1 <= b.date.year <= 9999
    ensures LocalDateTimeToUTCTime(a) == LocalDateTimeToUTCTime(b) <==> TruncateToSeconds(a) == TruncateToSeconds(b)
  {
    if LocalDateTimeToUTCTime(a) == LocalDateTimeToUTCTime(b) {
      UtcRoundTrip(a);
      UtcRoundTrip(b);
    }
    if TruncateToSeconds(a) == TruncateToSeconds(b) {
      UtcTextIgnoresSubSeconds(a);
      UtcTextIgnoresSubSeconds(b);
    }
  }
}
