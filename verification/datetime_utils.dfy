/**
 * `DateTimeUtils`: the fixed-width date and time text formats of the
 * system, as formatters, their inverse parsers and the UTC-timestamp
 * validator.
 *
 * Parsing follows `DateTimeFormatter.ofPattern(...).parse(...)` with the
 * default SMART resolver: each numeric field has the exact width of its
 * pattern letters, the whole input must be consumed, the year-of-era must
 * be at least 1, a day-of-month from 1 to 31 is clamped to the length of
 * its month, and `24:00:00.000` resolves to midnight of the next day.
 * A parse that Java rejects with `DateTimeParseException` is `None`.
 */
module DateTimeUtils {

  import opened Wrappers
  import opened Digits
  import opened Temporal

  /** English `MMM` month abbreviations, January first. */
  const MonthAbbreviations: seq<string> :=
    ["Jan", "Feb", "Mar", "Apr", "May", "Jun", "Jul", "Aug", "Sep", "Oct", "Nov", "Dec"]

  /** The shape `TIMESTAMP_REGEX` accepts: `#` stands for one of `0`-`9`. */
  const UtcTimestampShape: string := "####-##-## ##:##:## UTC"

  // ---------------------------------------------------------------------
  // Formatting
  // ---------------------------------------------------------------------

  /** The value the pattern letters `yyyy` print: the year-of-era. */
  function YearOfEra(year: int): (yoe: nat)
    ensures yoe >= 1
    ensures year >= 1 ==> yoe == year
  {
    if year >= 1 then year else 1 - year
  }

  /**
   * `yyyy`: the year-of-era zero-padded to four digits, with a leading `+`
   * once it no longer fits in four digits (sign style EXCEEDS_PAD).
   */
  function YearText(year: int): (s: string)
    ensures YearOfEra(year) < 10000 ==> s == Pad(YearOfEra(year), 4)
    ensures YearOfEra(year) >= 10000 ==> |s| > 1 && s[0] == '+'
  {
    var yoe := YearOfEra(year);
    if yoe < 10000 then Pad(yoe, 4) else "+" + Decimal(yoe)
  }

  /** `HH:mm:ss`. */
  function ClockText(t: LocalTime): (s: string)
    requires t.Valid()
    ensures |s| == 8
  {
    Pad(t.hour, 2) + ":" + Pad(t.minute, 2) + ":" + Pad(t.second, 2)
  }

  /** `convertDateToString`: pattern `yyyy-MM-dd`. */
  function ConvertDateToString(d: LocalDate): (s: string)
    requires d.Valid()
  {
    YearText(d.year) + "-" + Pad(d.month, 2) + "-" + Pad(d.day, 2)
  }

  /** `localTimeString`: pattern `HH:mm:ss.SSS`; the fraction is cut, not rounded, to milliseconds. */
  function LocalTimeString(t: LocalTime): (s: string)
    requires t.Valid()
    ensures |s| == 12
  {
    ClockText(t) + "." + Pad(t.nano / NanosPerMilli, 3)
  }

  /** `convertLocalDateTimeToString`: pattern `yyyy-MM-dd HH:mm:ss`. */
  function ConvertLocalDateTimeToString(t: LocalDateTime): (s: string)
    requires t.Valid()
  {
    ConvertDateToString(t.date) + " " + ClockText(t.time)
  }

  /**
   * `localDateTimeToUTCTime`: the date-time read as a UTC wall clock and
   * printed with pattern `yyyy-MM-dd HH:mm:ss z`, the zone name being `UTC`.
   */
  function LocalDateTimeToUTCTime(t: LocalDateTime): (s: string)
    requires t.Valid()
  {
    ConvertLocalDateTimeToString(t) + " UTC"
  }

  // ---------------------------------------------------------------------
  // Validation
  // ---------------------------------------------------------------------

  predicate FitsShape(c: char, shape: char) {
    if shape == '#' then IsDigit(c) else c == shape
  }

  /** `isValidUTCTimestamp`: a whole-string match of `^\d{4}-\d{2}-\d{2} \d{2}:\d{2}:\d{2} UTC$`. */
  predicate IsValidUTCTimestamp(s: string) {
    |s| == |UtcTimestampShape| && forall i :: 0 <= i < |s| ==> FitsShape(s[i], UtcTimestampShape[i])
  }

  // ---------------------------------------------------------------------
  // Parsing
  // ---------------------------------------------------------------------

  /** The field values a pattern read, before the resolver checks them. */
  datatype RawFields = RawFields(yearOfEra: nat, month: nat, day: nat,
                                 hour: nat, minute: nat, second: nat, nano: nat)

  /** SMART resolution of year-of-era, month and day-of-month. */
  function ResolveDate(yearOfEra: nat, month: nat, day: nat): (r: Option<LocalDate>)
    ensures r.Some? <==> 1 <= yearOfEra && 1 <= month <= 12 && 1 <= day <= 31
    ensures r.Some? ==> r.value.Valid() && r.value.year == yearOfEra && r.value.month == month
    ensures r.Some? && day <= DaysInMonth(yearOfEra, month) ==> r.value.day == day
    ensures r.Some? && day > DaysInMonth(yearOfEra, month) ==> r.value.day == DaysInMonth(yearOfEra, month)
  {
    if 1 <= yearOfEra && 1 <= month <= 12 && 1 <= day <= 31 then
      var last := DaysInMonth(yearOfEra, month);
      Some(LocalDate(yearOfEra, month, if day <= last then day else last))
    else None
  }

  /** SMART resolution of all fields, including the `24:00` end-of-day rule. */
  function Resolve(f: RawFields): (r: Option<LocalDateTime>)
    ensures r.Some? ==> r.value.Valid()
    ensures r.Some? <==> ResolveDate(f.yearOfEra, f.month, f.day).Some? && f.minute < 60 && f.nano < NanosPerSecond
                          && ((f.hour < 24 && f.second < 60) || (f.hour == 24 && f.minute == 0 && f.second == 0 && f.nano == 0))
  {
    var date :- ResolveDate(f.yearOfEra, f.month, f.day);
    if f.minute >= 60 || f.nano >= NanosPerSecond then None
    else if f.hour == 24 && f.minute == 0 && f.second == 0 && f.nano == 0 then
      Some(LocalDateTime(NextDay(date), Midnight))
    else if f.hour < 24 && f.second < 60 then
      Some(LocalDateTime(date, LocalTime(f.hour, f.minute, f.second, f.nano)))
    else None
  }

  /** Fields of `yyyy-MM-dd`: year-of-era, month, day. */
  function DateFields(s: string): Option<(nat, nat, nat)> {
    if |s| == 10 && s[4] == '-' && s[7] == '-' then
      var year :- ParseNumber(s[..4]);
      var month :- ParseNumber(s[5..7]);
      var day :- ParseNumber(s[8..]);
      Some((year, month, day))
    else None
  }

  /** Fields of `HH:mm:ss`: hour, minute, second. */
  function ClockFields(s: string): Option<(nat, nat, nat)> {
    if |s| == 8 && s[2] == ':' && s[5] == ':' then
      var hour :- ParseNumber(s[..2]);
      var minute :- ParseNumber(s[3..5]);
      var second :- ParseNumber(s[6..]);
      Some((hour, minute, second))
    else None
  }

  /** Nanoseconds of `.SSS`. */
  function MillisFraction(s: string): Option<nat> {
    if |s| == 4 && s[0] == '.' then
      var millis :- ParseNumber(s[1..]);
      Some(millis * NanosPerMilli)
    else None
  }

  /** Month of `MMM`: the position of an exact, case-sensitive English abbreviation. */
  function MonthOfAbbreviation(s: string): (r: Option<nat>)
    ensures r.Some? ==> 1 <= r.value <= 12 && MonthAbbreviations[r.value - 1] == s
    ensures r.None? ==> s !in MonthAbbreviations
  {
    MonthFrom(s, 0)
  }

  function MonthFrom(s: string, i: nat): (r: Option<nat>)
    requires i <= 12
    ensures r.Some? ==> i < r.value <= 12 && MonthAbbreviations[r.value - 1] == s
    ensures r.None? ==> forall j :: i <= j < 12 ==> MonthAbbreviations[j] != s
    decreases 12 - i
  {
    if i == 12 then None
    else if MonthAbbreviations[i] == s then Some(i + 1)
    else MonthFrom(s, i + 1)
  }

  /** Offset `X`: `Z`, or a sign and `HH` or `HHmm`, at most 18 hours. */
  predicate IsOffsetText(s: string) {
    || s == "Z"
    || ((|s| == 3 || |s| == 5) && (s[0] == '+' || s[0] == '-') && AllDigits(s[1..])
        && var minutes := if |s| == 5 then ValueOf(s[3..]) else 0;
           minutes < 60 && ValueOf(s[1..3]) * 60 + minutes <= 18 * 60)
  }

  /** `convertStringToLocalDate`: pattern `yyyy-MM-dd`. */
  function ConvertStringToLocalDate(s: string): (r: Option<LocalDate>)
    ensures r.Some? ==> r.value.Valid()
  {
    var (year, month, day) :- DateFields(s);
    ResolveDate(year, month, day)
  }

  /** `convertDateTimeStringToLocalDateTime`: pattern `yyyy-MM-dd HH:mm:ss`. */
  function ConvertDateTimeStringToLocalDateTime(s: string): (r: Option<LocalDateTime>)
    ensures r.Some? ==> r.value.Valid() && r.value.time.nano == 0
    ensures r.Some? ==> |s| == 19 && DateFields(s[..10]).Some? && ClockFields(s[11..]).Some?
  {
    if |s| == 19 && s[10] == ' ' then
      var (year, month, day) :- DateFields(s[..10]);
      var (hour, minute, second) :- ClockFields(s[11..]);
      Resolve(RawFields(year, month, day, hour, minute, second, 0))
    else None
  }

  /**
   * `convertZonedUTCTimeStringToLocalDateTime`: pattern `yyyy-MM-dd HH:mm:ss z`
   * with the zone dropped; the only zone name modelled is `UTC`.
   */
  function ConvertZonedUTCTimeStringToLocalDateTime(s: string): (r: Option<LocalDateTime>)
    ensures r.Some? ==> r.value.Valid() && r.value.time.nano == 0
    ensures r.Some? ==> |s| == 23 && DateFields(s[..10]).Some? && ClockFields(s[11..19]).Some?
  {
    if |s| == 23 && s[19..] == " UTC" then
      assert s[..19][..10] == s[..10] && s[..19][11..] == s[11..19];
      ConvertDateTimeStringToLocalDateTime(s[..19])
    else None
  }

  /** Pattern `dd-MMM-yyyy HH:mm:ss.SSS`. */
  function ParseTomcatTimestamp(s: string): (r: Option<LocalDateTime>)
    ensures r.Some? ==> r.value.Valid() && |s| == 24
  {
    if |s| == 24 && s[2] == '-' && s[6] == '-' && s[11] == ' ' then
      var day :- ParseNumber(s[..2]);
      var month :- MonthOfAbbreviation(s[3..6]);
      var year :- ParseNumber(s[7..11]);
      var (hour, minute, second) :- ClockFields(s[12..20]);
      var nano :- MillisFraction(s[20..]);
      Resolve(RawFields(year, month, day, hour, minute, second, nano))
    else None
  }

  /** Pattern `yyyy-MM-dd'T'HH:mm:ss.SSSX`; the offset is read and dropped. */
  function ParseIsoOffsetTimestamp(s: string): (r: Option<LocalDateTime>)
    ensures r.Some? ==> r.value.Valid() && |s| >= 24
  {
    if |s| >= 24 && s[10] == 'T' && IsOffsetText(s[23..]) then
      var (year, month, day) :- DateFields(s[..10]);
      var (hour, minute, second) :- ClockFields(s[11..19]);
      var nano :- MillisFraction(s[19..23]);
      Resolve(RawFields(year, month, day, hour, minute, second, nano))
    else None
  }

  /**
   * `fromTomcatLogTimestamp`: the Tomcat pattern first, the ISO-with-offset
   * pattern only when that fails; `None` where Java throws.
   */
  function FromTomcatLogTimestamp(s: string): (r: Option<LocalDateTime>)
    ensures r.Some? ==> r.value.Valid() && |s| >= 24
    ensures ParseTomcatTimestamp(s).Some? ==> r == ParseTomcatTimestamp(s)
    ensures r.Some? <==> ParseTomcatTimestamp(s).Some? || ParseIsoOffsetTimestamp(s).Some?
  {
    var tomcat := ParseTomcatTimestamp(s);
    if tomcat.Some? then tomcat else ParseIsoOffsetTimestamp(s)
  }

  // ---------------------------------------------------------------------
  // Hours and days
  // ---------------------------------------------------------------------

  /** `ALL_HOURS`: `LocalTime.of(h, 0)` for h = 0 .. 23. */
  function AllHours(): (hours: seq<LocalTime>)
    ensures |hours| == 24
    ensures forall h :: 0 <= h < 24 ==> hours[h].Valid() && hours[h] == LocalTime(h, 0, 0, 0)
  {
    seq(24, h requires 0 <= h < 24 => OfHour(h))
  }

  /** `isSameDay`: `LocalDate.isEqual`, a comparison field by field. */
  function IsSameDay(d1: LocalDate, d2: LocalDate): (same: bool)
    ensures same <==> d1 == d2
  {
    d1.year == d2.year && d1.month == d2.month && d1.day == d2.day
  }
}
