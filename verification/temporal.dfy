/**
 * The `java.time` values the system passes around: `LocalDate`,
 * `LocalTime` and `LocalDateTime` in the proleptic Gregorian calendar.
 * Java guarantees their fields are in range; here that is `Valid()`.
 */
module Temporal {

  const NanosPerMilli: nat := 1_000_000
  const NanosPerSecond: nat := 1_000_000_000

  predicate IsLeapYear(year: int) {
    year % 4 == 0 && (year % 100 != 0 || year % 400 == 0)
  }

  function DaysInMonth(year: int, month: int): (n: int)
    requires 1 <= month <= 12
    ensures 28 <= n <= 31
  {
    if month == 2 then (if IsLeapYear(year) then 29 else 28)
    else if month == 4 || month == 6 || month == 9 || month == 11 then 30
    else 31
  }

  datatype LocalDate = LocalDate(year: int, month: int, day: int) {
    predicate Valid() {
      1 <= month <= 12 && 1 <= day <= DaysInMonth(year, month)
    }
  }

  datatype LocalTime = LocalTime(hour: int, minute: int, second: int, nano: int) {
    predicate Valid() {
      0 <= hour < 24 && 0 <= minute < 60 && 0 <= second < 60 && 0 <= nano < NanosPerSecond
    }
  }

  datatype LocalDateTime = LocalDateTime(date: LocalDate, time: LocalTime) {
    predicate Valid() {
      date.Valid() && time.Valid()
    }
  }

  const Midnight: LocalTime := LocalTime(0, 0, 0, 0)

  /** A date-time with every field in range, as every Java `LocalDateTime` is. */
  type ValidDateTime = t: LocalDateTime | t.Valid() witness LocalDateTime(LocalDate(1970, 1, 1), Midnight)

  /** `LocalTime.of(hour, 0)`. */
  function OfHour(hour: int): (t: LocalTime)
    requires 0 <= hour < 24
    ensures t.Valid() && t.hour == hour
  {
    LocalTime(hour, 0, 0, 0)
  }

  /** `LocalDate.plusDays(1)`. */
  function NextDay(d: LocalDate): (r: LocalDate)
    requires d.Valid()
    ensures r.Valid()
    ensures r.year == d.year || (r.year == d.year + 1 && d.month == 12 && r.month == 1)
    ensures r.day == 1 <==> d.day == DaysInMonth(d.year, d.month)
    ensures r.day != 1 ==> r.year == d.year && r.month == d.month && r.day == d.day + 1
  {
    if d.day < DaysInMonth(d.year, d.month) then LocalDate(d.year, d.month, d.day + 1)
    else if d.month < 12 then LocalDate(d.year, d.month + 1, 1)
    else LocalDate(d.year + 1, 1, 1)
  }

  /** `LocalDateTime.truncatedTo(ChronoUnit.SECONDS)`. */
  function TruncateToSeconds(t: LocalDateTime): (r: LocalDateTime)
    ensures r.date == t.date
    ensures r.time.hour == t.time.hour && r.time.minute == t.time.minute && r.time.second == t.time.second
    ensures r.time.nano == 0
  {
    LocalDateTime(t.date, LocalTime(t.time.hour, t.time.minute, t.time.second, 0))
  }

  /** `LocalTime.truncatedTo(ChronoUnit.MILLIS)`. */
  function TruncateToMillis(t: LocalTime): (r: LocalTime)
    requires t.Valid()
    ensures r.Valid()
    ensures r.hour == t.hour && r.minute == t.minute && r.second == t.second
    ensures r.nano % NanosPerMilli == 0 && r.nano <= t.nano < r.nano + NanosPerMilli
  {
    LocalTime(t.hour, t.minute, t.second, t.nano / NanosPerMilli * NanosPerMilli)
  }
}
