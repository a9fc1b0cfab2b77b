# Regression log ingestion and retrieval, in Dafny

This project models the core of *regression*, a log monitoring service. The
service reads the log files of configured data sources. It cuts them into
trace groups: a timestamped line together with the continuation lines that
follow it, such as a stack trace. Each group becomes an `AppLog` record with
a severity. A table of named regular expressions extracts `LogsMetadata` rows
from the group. Records already stored are skipped. The retrieval service
then lists, looks up and counts the stored records for the dashboard.

The model is a set of pure functions over immutable datatypes:

- `Temporal`, `Digits`, `DateTimeUtils`: `java.time` dates and times, and
  the formatting and parsing in `DateTimeUtils`. Parsing follows the
  formatter's SMART resolver: year of era, a day past the month's end
  clamped, and hour 24 rolling over to the next day.
- `DateTimeProperties`, `DateTimeExamples`: round trips between printing and
  parsing, and the concrete timestamps the utilities are exercised with.
- `Constants`, `LogPatterns`: the rule table. It includes hand-written
  matchers, with `Matcher.find` semantics, for the two patterns the engine
  depends on: `logSeverityLevel` and `threadName`.
- `Entities`: the records `Application`, `LogsDataSource`, `AppLog` and
  `LogsMetadata`.
- `Ingestion`, `IngestionPass`, `IngestionScenarios`: trace-group
  composition, timestamp and level extraction, metadata extraction, the
  duplicate check and the `processLocalLogs` pass over the local sources.
  The files are a map from path to text, and the store is the pair of
  record tables. A log is stored as its row: `save` writes the timestamp
  as UTC text with no fraction of a second, so the row holds the log's
  timestamp cut to whole seconds. IngestionService.java is not part of this model: these
  modules state what its test suite fixes, and make the choices listed under
  "Left out" where the tests are silent.
- `Retrieval`: `RetrievalService` over a snapshot of the four tables. This
  covers `listLogs`, `listAllTodayLogs`, `findLogsById`,
  `listAllApplications`, `listAllDataSources`, `findMetadataByLogId` and
  `composeChartDataBySeverity`.

Two places where the code departs from its own documentation; the model
follows the code:

- A metadata row stores the whole text the rule matched, not capture
  group 1. The ingestion test expects the full
  `java.lang.NullPointerException: Cannot invoke ...` for the
  exception-with-message rule.
- `listLogs` is documented to include every application when the
  application id is empty, and to filter by data source. Its code returns an
  empty list for any id it cannot find, and never reads the data-source
  argument.

## Model

| member | source | states |
|---|---|---|
| DateTimeUtils.YearOfEra | src/main/java/com/kenyajug/regression/utils/DateTimeUtils.java:33 | `yyyy` prints the year of era: years from 1 on print as themselves, and every year of era is at least 1 |
| DateTimeUtils.YearText | src/main/java/com/kenyajug/regression/utils/DateTimeUtils.java:33 | `yyyy` zero-pads a year of era below 10000 to four digits and prefixes a larger one with `+` |
| DateTimeUtils.ClockText | src/main/java/com/kenyajug/regression/utils/DateTimeUtils.java:34 | `HH:mm:ss` is always eight characters long |
| DateTimeUtils.LocalTimeString | src/main/java/com/kenyajug/regression/utils/DateTimeUtils.java:165-168 | `localTimeString` always yields twelve characters, `HH:mm:ss.SSS` |
| DateTimeUtils.ResolveDate | src/main/java/com/kenyajug/regression/utils/DateTimeUtils.java:61-64 | the SMART resolver accepts year of era >= 1, month 1-12 and day 1-31, keeps a day that exists and clamps a too-large day to the last day of that month |
| DateTimeUtils.Resolve | src/main/java/com/kenyajug/regression/utils/DateTimeUtils.java:72-75 | a date-time resolves exactly when its date does, minutes < 60, nanos < 10^9, and hour < 24 with second < 60 or the time is exactly 24:00:00; the result is always a valid date-time |
| DateTimeUtils.MonthOfAbbreviation | src/main/java/com/kenyajug/regression/utils/DateTimeUtils.java:156 | `MMM` accepts exactly the twelve English abbreviations, case-sensitive, and yields the month whose abbreviation it is |
| DateTimeUtils.ConvertStringToLocalDate | src/main/java/com/kenyajug/regression/utils/DateTimeUtils.java:61-64 | `convertStringToLocalDate` yields only valid dates; an unparsable text is the parse exception |
| DateTimeUtils.ConvertDateTimeStringToLocalDateTime | src/main/java/com/kenyajug/regression/utils/DateTimeUtils.java:72-75 | `convertDateTimeStringToLocalDateTime` accepts only 19-character texts whose date and clock fields parse, and yields a valid date-time with no fraction of a second |
| DateTimeUtils.ConvertZonedUTCTimeStringToLocalDateTime | src/main/java/com/kenyajug/regression/utils/DateTimeUtils.java:83-86 | `convertZonedUTCTimeStringToLocalDateTime` accepts only 23-character texts whose date and clock fields parse, and yields a valid date-time with no fraction of a second |
| DateTimeUtils.ParseTomcatTimestamp | src/main/java/com/kenyajug/regression/utils/DateTimeUtils.java:156-158 | the Tomcat pattern `dd-MMM-yyyy HH:mm:ss.SSS` accepts only 24-character texts and yields valid date-times |
| DateTimeUtils.ParseIsoOffsetTimestamp | src/main/java/com/kenyajug/regression/utils/DateTimeUtils.java:160-162 | the fallback pattern `yyyy-MM-ddTHH:mm:ss.SSSX` accepts only texts of at least 24 characters and yields valid date-times |
| DateTimeUtils.FromTomcatLogTimestamp | src/main/java/com/kenyajug/regression/utils/DateTimeUtils.java:154-164 | `fromTomcatLogTimestamp` returns the Tomcat reading whenever there is one, and succeeds exactly when the Tomcat or the ISO-offset pattern accepts the text |
| DateTimeUtils.AllHours | src/main/java/com/kenyajug/regression/utils/DateTimeUtils.java:39-41 | `ALL_HOURS` holds 24 entries and entry h is the time h:00 |
| DateTimeUtils.IsSameDay | src/main/java/com/kenyajug/regression/utils/DateTimeUtils.java:169-171 | `isSameDay` holds exactly when the two dates are the same date |
| DateTimeProperties.MonthAbbreviationsDistinct | src/main/java/com/kenyajug/regression/utils/DateTimeUtils.java:156 | no two months share an abbreviation, so `MMM` reads back unambiguously |
| DateTimeProperties.MonthOfItsAbbreviation | src/main/java/com/kenyajug/regression/utils/DateTimeUtils.java:156 | parsing a month's abbreviation gives that month back |
| DateTimeProperties.DateRoundTrip | src/main/java/com/kenyajug/regression/utils/DateTimeUtils.java:50-64 | parsing the text `convertDateToString` prints gives the same date back (years 1-9999) |
| DateTimeProperties.DateTextRoundTrip | src/main/java/com/kenyajug/regression/utils/DateTimeUtils.java:50-64 | an accepted date text is reprinted unchanged exactly when the resolver did not clamp its day |
| DateTimeProperties.TomcatRoundTrip | src/main/java/com/kenyajug/regression/utils/DateTimeUtils.java:154-158 | the Tomcat text of a date-time parses back to that date-time cut to whole milliseconds |
| DateTimeProperties.IsoOffsetRoundTrip | src/main/java/com/kenyajug/regression/utils/DateTimeUtils.java:159-163 | an ISO text with any accepted offset is refused by the Tomcat pattern and parses back, offset dropped, to the date-time cut to milliseconds |
| DateTimeProperties.DateTimeTextRoundTrip | src/main/java/com/kenyajug/regression/utils/DateTimeUtils.java:72-96 | parsing the text `convertLocalDateTimeToString` prints gives back the date-time cut to whole seconds |
| DateTimeProperties.UtcRoundTrip | src/main/java/com/kenyajug/regression/utils/DateTimeUtils.java:83-86 | parsing the text `localDateTimeToUTCTime` prints gives back the date-time cut to whole seconds |
| DateTimeProperties.ParsedUtcTextIsValid | src/main/java/com/kenyajug/regression/utils/DateTimeUtils.java:125-127 | for the zone name `UTC`, the only one modelled, every text the zoned parser accepts also matches the `isValidUTCTimestamp` pattern |
| DateTimeProperties.UtcTextRoundTrip | src/main/java/com/kenyajug/regression/utils/DateTimeUtils.java:150-153 | an accepted UTC text is reprinted unchanged exactly when its day was not clamped and its hour was not 24 |
| DateTimeProperties.UtcTextValidity | src/main/java/com/kenyajug/regression/utils/DateTimeUtils.java:125-127 | the text `localDateTimeToUTCTime` prints matches the `isValidUTCTimestamp` pattern exactly when the year of era has at most four digits |
| DateTimeProperties.UtcTextIgnoresSubSeconds | src/main/java/com/kenyajug/regression/utils/DateTimeUtils.java:150-153 | `localDateTimeToUTCTime` does not see fractions of a second |
| DateTimeProperties.WholeSecondTimeString | src/main/java/com/kenyajug/regression/utils/DateTimeUtils.java:165-168 | `localTimeString` prints a time without fraction as its clock text followed by `.000` |
| DateTimeProperties.SameUtcTextIffSameSecond | src/main/java/com/kenyajug/regression/utils/DateTimeUtils.java:150-153 | for date-times of years 1-9999, two print the same UTC text exactly when they agree to the second |
| DateTimeExamples.TomcatTimestampExample | src/test/java/com/kenyajug/regression/utility_tests/DateTimeUtilsTest.java:125-130 | `15-May-2025 14:32:10.213` reads as 2025-05-15 14:32:10.213 |
| DateTimeExamples.NewYearTimestampExample | src/test/java/com/kenyajug/regression/utility_tests/DateTimeUtilsTest.java:146-151 | `01-Jan-2023 00:00:00.000` reads as 2023-01-01 midnight |
| DateTimeExamples.IsoOffsetTimestampExample | src/test/java/com/kenyajug/regression/utility_tests/DateTimeUtilsTest.java:153-158 | `2025-05-16T09:31:14.088Z` reads as 2025-05-16 09:31:14.088 |
| DateTimeExamples.RejectedTimestampExamples | src/test/java/com/kenyajug/regression/utility_tests/DateTimeUtilsTest.java:132-144 | an ISO date with a space and a Tomcat text without seconds are both refused |
| DateTimeExamples.LocalTimeStringAfternoonExample | src/test/java/com/kenyajug/regression/utility_tests/DateTimeUtilsTest.java:160-165 | 14:05:09.123 prints as `14:05:09.123` |
| DateTimeExamples.LocalTimeStringExample | src/test/java/com/kenyajug/regression/utility_tests/DateTimeUtilsTest.java:166-172 | 03:04:05.007 prints with leading zeros as `03:04:05.007` |
| DateTimeExamples.UtcTimestampExamples | src/test/java/com/kenyajug/regression/utility_tests/DateTimeUtilsTest.java:69-116 | 2023-11-22 05:30:12 prints as `2023-11-22 05:30:12 UTC`, that text is valid, and it parses back |
| DateTimeExamples.RejectedUtcTimestampExamples | src/test/java/com/kenyajug/regression/utility_tests/DateTimeUtilsTest.java:88-95 | a UTC text without the zone, or with `Z` for it, is not valid |
| DateTimeExamples.DateExamples | src/test/java/com/kenyajug/regression/utility_tests/DateTimeUtilsTest.java:40-54 | 2001-01-18 prints as `2001-01-18` and parses back |
| DateTimeExamples.DateTimeStringExample | src/test/java/com/kenyajug/regression/utility_tests/DateTimeUtilsTest.java:56-66 | `2022-12-26 08:25:12` reads as 2022-12-26 08:25:12 |
| DateTimeExamples.DateTimeTextExample | src/test/java/com/kenyajug/regression/utility_tests/DateTimeUtilsTest.java:118-123 | 2023-05-08 14:30:15 prints as `2023-05-08 14:30:15` |
| DateTimeExamples.DayClampExample | src/main/java/com/kenyajug/regression/utils/DateTimeUtils.java:61-64 | `2023-02-30` reads as 2023-02-28: the day is clamped to the month |
| DateTimeExamples.LeapDayClampExample | src/main/java/com/kenyajug/regression/utils/DateTimeUtils.java:61-64 | `2024-02-31` reads as the leap day 2024-02-29 |
| DateTimeExamples.YearZeroRejected | src/main/java/com/kenyajug/regression/utils/DateTimeUtils.java:61-64 | `0000-01-01` is refused: there is no year of era 0 |
| DateTimeExamples.DayOutOfRangeRejected | src/main/java/com/kenyajug/regression/utils/DateTimeUtils.java:61-64 | `2023-02-32` is refused: no month has a day 32 |
| DateTimeExamples.EndOfDayExample | src/main/java/com/kenyajug/regression/utils/DateTimeUtils.java:83-86 | `2023-12-31 24:00:00 UTC` reads as 2024-01-01 midnight: hour 24 rolls over to the next day |
| DateTimeExamples.SameDayExamples | src/test/java/com/kenyajug/regression/utility_tests/DateTimeUtilsTest.java:174-183 | equal dates are the same day and different dates are not |
| Constants.NamedPattern | src/main/java/com/kenyajug/regression/utils/Constants.java:49-67 | a pattern is defined under exactly the nineteen named constants |
| Constants.RuleIndex | src/main/java/com/kenyajug/regression/utils/Constants.java:28-48 | the position of the first rule with a given name, or the table size when there is none |
| Constants.TableSize | src/main/java/com/kenyajug/regression/utils/Constants.java:28-48 | the rule table has nineteen rules |
| Constants.NamesDistinct | src/main/java/com/kenyajug/regression/utils/Constants.java:28-48 | no two rules share a name |
| Constants.TableMirrorsConstants | src/main/java/com/kenyajug/regression/utils/Constants.java:28-67 | every rule pairs its name with the constant of that name |
| Constants.RuleIndexOfName | src/main/java/com/kenyajug/regression/utils/Constants.java:28-48 | looking a rule up by its own name finds its position |
| Constants.ExceptionRulesAdjacent | src/main/java/com/kenyajug/regression/utils/Constants.java:34-35 | the exception-with-message rule is the sixth and is tried just before the exception-class rule |
| LogPatterns.SeverityAt | src/main/java/com/kenyajug/regression/utils/Constants.java:58 | the severity alternative matching at a position is one of the four tokens and occurs there; none matches exactly when no token occurs there |
| LogPatterns.SeverityTokensExclusive | src/main/java/com/kenyajug/regression/utils/Constants.java:58 | at most one of INFO, DEBUG, ERROR, WARN starts at any position, so the order of alternatives never matters |
| LogPatterns.FindSeverity | src/main/java/com/kenyajug/regression/utils/Constants.java:58 | `find()` with the severity pattern returns the leftmost token occurrence; no result means no token occurs anywhere |
| LogPatterns.FindThreadName | src/main/java/com/kenyajug/regression/utils/Constants.java:57 | `find()` with the thread pattern returns the leftmost `[...]` that closes on the same line at its first `]`, with group 1 the text inside; no result means there is no such run |
| LogPatterns.ThreadNameIsOneBracketedRun | src/main/java/com/kenyajug/regression/utils/Constants.java:57 | the captured thread name holds no `]` and no line terminator |
| LogPatterns.ThreadMatchUnique | src/main/java/com/kenyajug/regression/utils/Constants.java:57 | a run opened at one position can close at only one `]` |
| LogPatterns.FirstBracketedRun | src/main/java/com/kenyajug/regression/utils/Constants.java:57 | after text with no `[`, a bracketed name with no `]` and no line break is the thread match |
| LogPatterns.SeverityExample | src/test/java/com/kenyajug/regression/utility_tests/LogsRegexTest.java:101-106 | `ERROR Something bad happened` matches `ERROR` at the start |
| LogPatterns.ThreadNameExample | src/test/java/com/kenyajug/regression/utility_tests/LogsRegexTest.java:94-99 | `[main] INFO starting up` captures `main` |
| Ingestion.SplitLines | src/test/java/com/kenyajug/regression/service_tests/IngestionServiceTests.java:99-170 | the text cut at line feeds: no line holds a line feed, and only the empty text has no lines |
| Ingestion.SplitThenUnlines | src/test/java/com/kenyajug/regression/service_tests/IngestionServiceTests.java:99-170 | writing the lines out again, each with a line feed, gives the text back with at most a final line feed added |
| Ingestion.UnlinesThenSplit | src/test/java/com/kenyajug/regression/service_tests/IngestionServiceTests.java:99-170 | lines without line feeds written out and cut again are the same lines |
| Ingestion.SkipBlank | src/test/java/com/kenyajug/regression/service_tests/IngestionServiceTests.java:99-170 | the lines from the first non-empty one on; everything skipped was empty |
| Ingestion.BlankTextHasBlankLines | src/test/java/com/kenyajug/regression/service_tests/IngestionServiceTests.java:99-170 | a text has no non-empty line exactly when it consists of line feeds only |
| Ingestion.ExtractTimestamp | src/test/java/com/kenyajug/regression/service_tests/IngestionServiceTests.java:241-252 | `extractTimestamp` reads the first 24 characters with `fromTomcatLogTimestamp`; a result is a valid date-time of a line of at least 24 characters |
| Ingestion.LineStampReadsPrefix | src/test/java/com/kenyajug/regression/service_tests/IngestionServiceTests.java:241-252 | appending text to a stamped line does not change its timestamp |
| Ingestion.GroupLines | src/test/java/com/kenyajug/regression/service_tests/IngestionServiceTests.java:99-237 | grouping fails with the missing-timestamp error exactly when the first non-empty line has no timestamp; otherwise every group starts with its own timestamped line, and there are no groups only for blank input |
| Ingestion.GroupFromStamps | src/test/java/com/kenyajug/regression/service_tests/IngestionServiceTests.java:99-170 | the groups' timestamps are the timestamps of the anchor lines, in order |
| Ingestion.GroupFromKeepsText | src/test/java/com/kenyajug/regression/service_tests/IngestionServiceTests.java:99-170 | grouping loses and adds no text: the groups written out are the lines written out |
| Ingestion.GroupLinesStamps | src/test/java/com/kenyajug/regression/service_tests/IngestionServiceTests.java:99-170 | one group per timestamped line, carrying that line's timestamp, in order |
| Ingestion.GroupLinesText | src/test/java/com/kenyajug/regression/service_tests/IngestionServiceTests.java:99-170 | the groups' chunks written out are the lines from the first non-empty one on |
| Ingestion.GroupLinesFirstAlone | src/test/java/com/kenyajug/regression/service_tests/IngestionServiceTests.java:99-170 | when the first two lines are both stamped, the first group is the first line alone, with its length |
| Ingestion.Utf16LengthCounts | src/test/java/com/kenyajug/regression/service_tests/IngestionServiceTests.java:116-148 | a group's length counts UTF-16 code units as `String.length()` does: one or two per character, and as many as there are characters exactly when none lies beyond the Basic Multilingual Plane, as in the sample lines |
| Ingestion.ComposeRawLogsTraceGroup | src/test/java/com/kenyajug/regression/service_tests/IngestionServiceTests.java:99-237 | `composeRawLogsTraceGroup` yields only groups anchored on a timestamped first line; it yields no groups exactly for text made of line feeds |
| Ingestion.ComposeKeepsText | src/test/java/com/kenyajug/regression/service_tests/IngestionServiceTests.java:99-170 | the chunks written out are the input text (with a final line feed) less its leading blank lines |
| Ingestion.ComposeStamps | src/test/java/com/kenyajug/regression/service_tests/IngestionServiceTests.java:99-170 | the groups' timestamps are the timestamps of the text's stamped lines, in order |
| Ingestion.ComposeFirstLine | src/test/java/com/kenyajug/regression/service_tests/IngestionServiceTests.java:99-170 | the first group starts with the first non-empty line of the text |
| Ingestion.ComposeRejectsUnstampedStart | src/test/java/com/kenyajug/regression/service_tests/IngestionServiceTests.java:173-237 | a text whose first line has no timestamp is refused with the missing-timestamp error |
| Ingestion.ComposeStampedStart | src/test/java/com/kenyajug/regression/service_tests/IngestionServiceTests.java:99-170 | a text whose first line is stamped yields groups, the first carrying that line's timestamp and starting with that line |
| Ingestion.FirstLine | src/test/java/com/kenyajug/regression/service_tests/IngestionServiceTests.java:284-306 | the first line of a chunk: a line-feed-free prefix ending at the chunk's first line feed |
| Ingestion.ExtractLogLevel | src/test/java/com/kenyajug/regression/service_tests/IngestionServiceTests.java:284-306 | `extractLogLevel` yields one of the four tokens occurring in the group's first line, and nothing exactly when no token occurs there |
| Ingestion.ExtendKeepsLevel | src/test/java/com/kenyajug/regression/service_tests/IngestionServiceTests.java:284-306 | continuation lines never change a group's level |
| Ingestion.SeverityMatch | src/main/java/com/kenyajug/regression/utils/Constants.java:58 | the severity rule finds a match exactly when the matcher does, and the stored value is the token |
| Ingestion.ThreadMatch | src/main/java/com/kenyajug/regression/utils/Constants.java:57 | the thread rule finds a match exactly when the matcher does, and the stored value is the bracketed run, brackets included |
| Ingestion.Find | src/main/java/com/kenyajug/regression/utils/Constants.java:28-48 | a rule's pattern is searched with the hand-written matcher for severity and thread name, and with the regex engine for every other pattern |
| Ingestion.SeverityRule | src/main/java/com/kenyajug/regression/utils/Constants.java:38 | the tenth rule is the severity rule and is searched with the severity matcher |
| Ingestion.ThreadRule | src/main/java/com/kenyajug/regression/utils/Constants.java:37 | the ninth rule is the thread rule and is searched with the thread matcher |
| Ingestion.ExtractMetadataByRegex | src/test/java/com/kenyajug/regression/service_tests/IngestionServiceTests.java:307-342 | `extractMetadataByRegex` yields a metadata row exactly when the rule's pattern is found in the chunk; the row belongs to the log, is typed with the rule's name and holds the whole match |
| Ingestion.SeverityInFirstLine | src/test/java/com/kenyajug/regression/service_tests/IngestionServiceTests.java:284-306 | a token occurring within the first line occurs at the same place in the whole chunk |
| Ingestion.LevelAgreesWithSeverityMetadata | src/test/java/com/kenyajug/regression/service_tests/IngestionServiceTests.java:284-342 | when a group has a level, the severity rule searched over the whole chunk finds that same level |
| Ingestion.MetadataFrom | src/test/java/com/kenyajug/regression/service_tests/IngestionServiceTests.java:254-283 | each metadata row belongs to the log, carries the id minted for that log and rule, and rows come in rule order with at most one per rule |
| Ingestion.MetadataFromLookup | src/test/java/com/kenyajug/regression/service_tests/IngestionServiceTests.java:254-283 | looking up any rule's name among a log's metadata rows gives exactly what that rule's pattern finds in the chunk |
| Ingestion.CandidateFor | src/test/java/com/kenyajug/regression/service_tests/IngestionServiceTests.java:254-283 | a group becomes a log with the group's timestamp and text, the source's application and uuid, and the group's level (or the empty sentinel), with metadata rows all pointing at that log |
| Ingestion.ComposeLogsAndMetadata | src/test/java/com/kenyajug/regression/service_tests/IngestionServiceTests.java:254-283 | `composeLogsAndMetadata` makes one candidate per group, in group order |
| IngestionPass.SameKeyIffSameSecond | src/main/java/com/kenyajug/regression/repository/AppLogRepository.java:216-231 | for logs of years 1-9999, two collide in the duplicate check exactly when their timestamps agree to the second and they share application and source |
| IngestionPass.StoredRow | src/main/java/com/kenyajug/regression/repository/AppLogRepository.java:49-77 | a saved log's row keeps every field of the log but the fraction of a second, which the timestamp column's UTC text cannot hold |
| IngestionPass.StoredRowKey | src/main/java/com/kenyajug/regression/repository/AppLogRepository.java:71 | a log's row is stored under the log's own duplicate-check key |
| IngestionPass.StoredRowReadsBack | src/main/java/com/kenyajug/regression/repository/AppLogRepository.java:71-118 | for years 1-9999, `findById`/`findAll` read the timestamp column back as exactly the row's whole-second timestamp |
| IngestionPass.SaveNewLogs | src/test/java/com/kenyajug/regression/service_tests/IngestionServiceTests.java:426-449 | `saveNewLogs` appends the log's whole-second row, with the log's uuid and key, and then its metadata rows, changing no stored row |
| IngestionPass.SaveKeepsAttached | src/test/java/com/kenyajug/regression/service_tests/IngestionServiceTests.java:426-449 | after saving, every metadata row still refers to a stored log |
| IngestionPass.SaveKeepsUniqueKeys | src/main/java/com/kenyajug/regression/repository/AppLogRepository.java:216-231 | saving a log whose key is not stored keeps keys unique |
| IngestionPass.SaveAll | src/test/java/com/kenyajug/regression/service_tests/IngestionServiceTests.java:383-410 | the duplicate filter appends exactly the fresh candidates (key not stored and not carried by an earlier candidate): the whole-second rows of their logs in order after the stored logs, their metadata rows in order after the stored rows; it reports a save exactly when some candidate was fresh |
| IngestionPass.SaveAllConcat | src/test/java/com/kenyajug/regression/service_tests/IngestionServiceTests.java:343-425 | filtering two runs of candidates one after the other is filtering their concatenation: same store, and a save reported when either run saved |
| IngestionPass.SaveAllCovers | src/test/java/com/kenyajug/regression/service_tests/IngestionServiceTests.java:343-366 | after the filter every candidate's key is stored, saved now or found already |
| IngestionPass.SaveAllNothingNew | src/test/java/com/kenyajug/regression/service_tests/IngestionServiceTests.java:383-410 | when every candidate's key is already stored, nothing is saved and the store is unchanged |
| IngestionPass.SaveAllKeepsInvariants | src/main/java/com/kenyajug/regression/repository/AppLogRepository.java:216-231 | the filter keeps keys unique and metadata attached |
| IngestionPass.IngestSource | src/test/java/com/kenyajug/regression/service_tests/IngestionServiceTests.java:343-425 | one source: an unreadable path or a first line without timestamp aborts with that error and no writes, an empty file completes with nothing saved, and otherwise the outcome is the duplicate filter run over the candidates of the file's groups |
| IngestionPass.IngestCovers | src/test/java/com/kenyajug/regression/service_tests/IngestionServiceTests.java:343-366 | after a completed ingestion every group of the file has its key stored |
| IngestionPass.CoveredIngestIsNoop | src/test/java/com/kenyajug/regression/service_tests/IngestionServiceTests.java:383-410 | a source whose groups are all stored already saves nothing, whatever ids and regex engine are used |
| IngestionPass.LevelGivesMetadata | src/test/java/com/kenyajug/regression/service_tests/IngestionServiceTests.java:343-366 | a group with a level yields at least one metadata row |
| IngestionPass.SeverityRuleAgrees | src/test/java/com/kenyajug/regression/service_tests/IngestionServiceTests.java:284-342 | the severity row among a log's metadata holds exactly the log's level |
| IngestionPass.FreshSourceSaves | src/test/java/com/kenyajug/regression/service_tests/IngestionServiceTests.java:343-366 | a non-empty file of a source with nothing stored is saved, with metadata when its first group has a level |
| IngestionPass.ProcessFrom | src/test/java/com/kenyajug/regression/service_tests/IngestionServiceTests.java:343-425 | the sources in order: a completed pass is the duplicate filter run over all sources' candidates in source order, so it appends exactly the fresh candidates' log rows and metadata rows, in order, and reports a save exactly when some log was appended |
| IngestionPass.ProcessCompletesIff | src/test/java/com/kenyajug/regression/service_tests/IngestionServiceTests.java:343-425 | the pass completes exactly when every source is readable and starts with a timestamp (or is empty) |
| IngestionPass.ProcessStopsAtFirstError | src/test/java/com/kenyajug/regression/service_tests/IngestionServiceTests.java:411-425 | the pass aborts with the error of the first source that cannot be ingested |
| IngestionPass.ProcessCovers | src/test/java/com/kenyajug/regression/service_tests/IngestionServiceTests.java:343-366 | after a completed pass every group of every source has its key stored |
| IngestionPass.CoveredProcessIsNoop | src/test/java/com/kenyajug/regression/service_tests/IngestionServiceTests.java:383-410 | a pass over sources whose groups are all stored saves nothing and changes nothing |
| IngestionPass.ProcessKeepsInvariants | src/main/java/com/kenyajug/regression/repository/AppLogRepository.java:216-231 | the pass keeps keys unique and every metadata row attached to a stored log |
| IngestionPass.LocalSources | src/main/java/com/kenyajug/regression/repository/LogsDataSourceRepository.java:234-251 | `findBySourceType("local")`: only local sources, and every local source |
| IngestionPass.LocalSourcesConcat | src/main/java/com/kenyajug/regression/repository/LogsDataSourceRepository.java:234-251 | the local sources keep their order: those of two lists in a row are those of the first followed by those of the second |
| IngestionPass.ProcessLocalLogs | src/test/java/com/kenyajug/regression/service_tests/IngestionServiceTests.java:343-425 | `processLocalLogs`: a completed pass appends exactly the fresh candidates of the local sources, the whole-second rows of their logs and their metadata rows in order, and returns true exactly when one was fresh |
| IngestionPass.CandidateLogsWholeSeconds | src/main/java/com/kenyajug/regression/repository/AppLogRepository.java:71 | the rows saved for a run of candidates are one per candidate, each of a whole second |
| IngestionPass.WithSavedWholeSeconds | src/main/java/com/kenyajug/regression/repository/AppLogRepository.java:71 | appending saved candidates to a table of whole-second rows leaves only whole-second rows |
| IngestionPass.PassStoresWholeSeconds | src/main/java/com/kenyajug/regression/repository/AppLogRepository.java:71 | a completed pass over a table of whole-second rows leaves only whole-second rows |
| IngestionPass.ProcessIdempotent | src/test/java/com/kenyajug/regression/service_tests/IngestionServiceTests.java:383-410 | a second pass over the same files saves nothing and leaves the store unchanged |
| IngestionScenarios.ExtractTimestampTomcat | src/test/java/com/kenyajug/regression/service_tests/IngestionServiceTests.java:241-252 | a line starting `15-May-2025 14:32:10.213` has that timestamp |
| IngestionScenarios.ExtractTimestampStackTrace | src/test/java/com/kenyajug/regression/service_tests/IngestionServiceTests.java:241-252 | a line starting `java.lang.NullPointerException` has no timestamp |
| IngestionScenarios.ExtractTimestampIsoOffset | src/test/java/com/kenyajug/regression/service_tests/IngestionServiceTests.java:241-252 | a line starting `2025-05-16T09:31:14.088Z` has that timestamp |
| IngestionScenarios.StackFrameHasNoStamp | src/test/java/com/kenyajug/regression/service_tests/IngestionServiceTests.java:99-170 | an indented `at` frame line has no timestamp |
| IngestionScenarios.StampedRunGroups | src/test/java/com/kenyajug/regression/service_tests/IngestionServiceTests.java:99-170 | stamped lines followed by unstamped ones group into one group per stamp, the first being the first line alone |
| IngestionScenarios.TomcatExcerptGroups | src/test/java/com/kenyajug/regression/service_tests/IngestionServiceTests.java:99-170 | the thirteen-line Tomcat excerpt with five stamped lines gives five groups, the first being its first line and the last stamped 14:32:20.500 with a non-empty chunk |
| IngestionScenarios.UnstampedFileRejected | src/test/java/com/kenyajug/regression/service_tests/IngestionServiceTests.java:173-237 | a file starting `INFO [main] ` is refused with the missing-timestamp error |
| IngestionScenarios.InfoLevelExample | src/test/java/com/kenyajug/regression/service_tests/IngestionServiceTests.java:284-296 | a group starting `15-May-2025 14:32:10.213 INFO` has level INFO |
| IngestionScenarios.UnderscoreLevelExample | src/test/java/com/kenyajug/regression/service_tests/IngestionServiceTests.java:297-306 | a group starting `15-May-2025 14:32:10.213 _ [main] ` followed by token-free text has no level |
| IngestionScenarios.NoLevelInPlainLine | src/test/java/com/kenyajug/regression/service_tests/IngestionServiceTests.java:297-306 | a chunk free of the four tokens' first letters has no level |
| IngestionScenarios.SpringChunkSeverity | src/test/java/com/kenyajug/regression/service_tests/IngestionServiceTests.java:307-342 | the Spring Boot chunk of the metadata test stores severity ERROR |
| IngestionScenarios.SpringChunkThread | src/test/java/com/kenyajug/regression/service_tests/IngestionServiceTests.java:307-342 | the Spring Boot chunk stores thread `[http-nio-8080-exec-5]` |
| IngestionScenarios.ExceptionRuleStoresWholeMatch | src/test/java/com/kenyajug/regression/service_tests/IngestionServiceTests.java:307-342 | an exception rule stores the whole text its pattern matched, not a capture group |
| IngestionScenarios.MockSource | src/test/java/com/kenyajug/regression/service_tests/IngestionServiceTests.java:343-353 | the data source of the pass tests is local and reads the given path |
| IngestionScenarios.IsoErrorLevel | src/test/java/com/kenyajug/regression/service_tests/IngestionServiceTests.java:355-362 | a group whose first line is the ISO-stamped ERROR line has level ERROR |
| IngestionScenarios.SingleSourcePass | src/test/java/com/kenyajug/regression/service_tests/IngestionServiceTests.java:343-425 | a pass over one local source is the ingestion of that source |
| IngestionScenarios.ProcessFreshFile | src/test/java/com/kenyajug/regression/service_tests/IngestionServiceTests.java:343-366 | a fresh pass over the ISO-stamped error file returns true and saves at least one log and one metadata row |
| IngestionScenarios.ProcessEmptyFile | src/test/java/com/kenyajug/regression/service_tests/IngestionServiceTests.java:368-384 | a pass over an empty file returns false and saves nothing |
| IngestionScenarios.ProcessStoredFile | src/test/java/com/kenyajug/regression/service_tests/IngestionServiceTests.java:385-410 | a pass over a file whose logs are all stored returns false and saves nothing |
| IngestionScenarios.ProcessMissingFile | src/test/java/com/kenyajug/regression/service_tests/IngestionServiceTests.java:411-425 | a pass over a missing path fails with that path and saves nothing |
| Retrieval.Filter | src/main/java/com/kenyajug/regression/services/RetrievalService.java:76-79 | a stream filter keeps only accepted rows and never more rows than it was given |
| Retrieval.FilterMember | src/main/java/com/kenyajug/regression/services/RetrievalService.java:76-79 | a row is in the filtered list exactly when it is in the list and accepted |
| Retrieval.FindFirst | src/main/java/com/kenyajug/regression/repository/AppLogRepository.java:86-103 | a lookup by key finds a row of the table with that key, and finds nothing exactly when no row has it |
| Retrieval.FindFirstUnique | src/main/java/com/kenyajug/regression/repository/AppLogRepository.java:86-103 | with unique keys, looking up a row's key finds that row |
| Retrieval.FindApplication | src/main/java/com/kenyajug/regression/repository/ApplicationsRepository.java:88-111 | `findById` on applications: a stored application with that uuid, or none exactly when there is none |
| Retrieval.FindDataSource | src/main/java/com/kenyajug/regression/repository/LogsDataSourceRepository.java:85-109 | `findById` on data sources: a stored source with that uuid, or none exactly when there is none |
| Retrieval.FindLog | src/main/java/com/kenyajug/regression/repository/AppLogRepository.java:86-103 | `findById` on logs: a stored log with that uuid, or none exactly when there is none |
| Retrieval.SourcesOf | src/main/java/com/kenyajug/regression/repository/LogsDataSourceRepository.java:206-222 | `findByApplicationId` returns exactly the stored sources of that application |
| Retrieval.LogsOf | src/main/java/com/kenyajug/regression/services/RetrievalService.java:74 | `findByApplicationAndDatasource` returns exactly the stored logs of that application and source |
| Retrieval.SelectLogs | src/main/java/com/kenyajug/regression/services/RetrievalService.java:74-79 | `listLogs` keeps exactly the logs on the requested date that, unless the severity is empty or `All`, have the requested severity |
| Retrieval.SelectLogsInTwoSteps | src/main/java/com/kenyajug/regression/services/RetrievalService.java:74-79 | keeping selected logs equals the date filter followed, only for a real severity, by the severity filter |
| Retrieval.TimeResources | src/main/java/com/kenyajug/regression/services/RetrievalService.java:80-92 | one resource per kept log, in order, describing the log, its application and source, with the log's time as `HH:mm:ss.SSS` |
| Retrieval.ListLogs | src/main/java/com/kenyajug/regression/services/RetrievalService.java:66-68 | `listLogs` returns an empty list for an unknown application |
| Retrieval.ListLogsSeverity | src/main/java/com/kenyajug/regression/services/RetrievalService.java:78-79 | with a severity other than empty or `All`, every listed log carries that severity |
| Retrieval.ListLogsSound | src/main/java/com/kenyajug/regression/services/RetrievalService.java:66-95 | every listed entry describes a stored log of the application, read from one of its sources, on the date and passing the severity filter |
| Retrieval.ListLogsPrintWholeSeconds | src/main/java/com/kenyajug/regression/services/RetrievalService.java:81-82 | over a log table of whole seconds, as it reads back, every time `listLogs` prints is a stored log's clock text followed by `.000` |
| Retrieval.ListLogsComplete | src/main/java/com/kenyajug/regression/services/RetrievalService.java:66-95 | every stored log of the application on the date that passes the severity filter and belongs to one of its sources is listed |
| Retrieval.ListLogsBySeverity | src/main/java/com/kenyajug/regression/services/RetrievalService.java:76-79 | the list for a severity is the unfiltered list for the date with the other severities removed |
| Retrieval.ListLogsAllMeansAny | src/main/java/com/kenyajug/regression/services/RetrievalService.java:66-79 | severity `All` gives the same list as the empty severity, and the data-source argument is never read |
| Retrieval.TodayLogs | src/main/java/com/kenyajug/regression/services/RetrievalService.java:104-107 | today's logs are exactly the stored logs dated today |
| Retrieval.ResolveAll | src/main/java/com/kenyajug/regression/services/RetrievalService.java:109-129 | resources exist exactly when every log's source and that source's application are stored; then one resource per log, in order |
| Retrieval.ListAllTodayLogs | src/main/java/com/kenyajug/regression/services/RetrievalService.java:103-131 | `listAllTodayLogs`: empty as soon as one of today's logs has a missing source or application; otherwise entry k describes today's log k with its data source, that source's application and its `HH:mm:ss.SSS` time |
| Retrieval.TodayLogsPrintWholeSeconds | src/main/java/com/kenyajug/regression/services/RetrievalService.java:110-111 | over a log table of whole seconds, as it reads back, every time in today's list prints as `HH:mm:ss.000` |
| Retrieval.FindLogsById | src/main/java/com/kenyajug/regression/services/RetrievalService.java:191-216 | `findLogsById` is empty exactly when the log, its source or that source's application is missing; otherwise it describes that log with its full `yyyy-MM-dd HH:mm:ss` timestamp |
| Retrieval.TodayLogFoundById | src/main/java/com/kenyajug/regression/services/RetrievalService.java:103-216 | with unique log ids, any entry of today's list is found by its id with the same content, only the timestamp text carrying the date too |
| Retrieval.ListAllApplications | src/main/java/com/kenyajug/regression/services/RetrievalService.java:138-143 | `listAllApplications` keeps length, order, uuid, name and runtime environment of the stored applications |
| Retrieval.ListAllDataSources | src/main/java/com/kenyajug/regression/services/RetrievalService.java:150-155 | `listAllDataSources` keeps length, order, uuid and name of the stored sources |
| Retrieval.ApplicationListAgreesWithLookup | src/main/java/com/kenyajug/regression/services/RetrievalService.java:138-143 | finding an application in the listing gives the resource of what `findById` finds |
| Retrieval.DataSourceListAgreesWithLookup | src/main/java/com/kenyajug/regression/services/RetrievalService.java:150-155 | finding a source in the listing gives the resource of what `findById` finds |
| Retrieval.FindMetadataByLogId | src/main/java/com/kenyajug/regression/repository/LogsMetadataRepository.java:191-207 | `findMetadataByLogId` returns exactly the stored metadata rows of that log |
| Retrieval.BySeverityAndDate | src/main/java/com/kenyajug/regression/services/RetrievalService.java:172 | `findBySeverityAndDate` returns exactly the stored logs of that severity dated that day |
| Retrieval.HourCount | src/main/java/com/kenyajug/regression/services/RetrievalService.java:179 | an hour's count is at most the number of logs |
| Retrieval.HourlyCounts | src/main/java/com/kenyajug/regression/services/RetrievalService.java:176-181 | 24 counts, count h being the number of logs in hour h |
| Retrieval.HourlyCountsSum | src/main/java/com/kenyajug/regression/services/RetrievalService.java:176-182 | the 24 counts add up to the number of logs |
| Retrieval.HourCountPermutation | src/main/java/com/kenyajug/regression/services/RetrievalService.java:172-181 | reordering the logs, as the sort by timestamp does, changes no hour's count |
| Retrieval.ComposeChartDataBySeverity | src/main/java/com/kenyajug/regression/services/RetrievalService.java:171-183 | `composeChartDataBySeverity` returns 24 counts adding up to the number of logs of that severity and date |
| Retrieval.ChartCountsHours | src/main/java/com/kenyajug/regression/services/RetrievalService.java:171-183 | count h is the number of that severity's logs of the date in hour h, counted over the sorted list or any other order |

## Left out

- File reading (`collectRawLogs`) is not modelled. A source's file is an entry of a path-to-text map, and a missing entry stands for an unreadable file.
- The clock is not read. `LocalDate.now()` in `listAllTodayLogs` is a `today` parameter, and `nowUTCTime` is not modelled.
- UUID generation is not modelled. The ids of new records come from an `Ids` parameter, a function of the source and group index or of the log and rule index.
- The regular-expression engine is not modelled. Every rule except `logSeverityLevel` and `threadName` is searched through a `Searcher` parameter that returns the whole match.
- SQL, Spring wiring, transactions, controllers, security and the scheduled trigger are not modelled. The repositories are immutable tables, and the `findBy...` queries are filters.
- Retrieval.FindFirst: `findById` ends in JdbcClient's `.optional()`, which throws `IncorrectResultSizeDataAccessException` when two rows share the uuid. The model does not throw; it takes the first such row. Retrieval.FindFirstUnique states that with unique uuids this is the one row.
- `findByApplicationAndDatasource` and `findBySeverityAndDate` are not defined in the repository code shown. They are modelled as the filters their names describe.
- Row order within a repository query is table order. SQL guarantees no order, so `listLogs`' order across sources follows `findByApplicationId`'s table order.
- `convertUTCTimeStringToUTCZonedDateTime`, `convertUTCZonedDateTimeToString` and zones other than UTC are not modelled. The only zone name parsed is `UTC`, and printing a UTC date-time is `localDateTimeToUTCTime`.
- DateTimeProperties.ParsedUtcTextIsValid: holds for the zone name `UTC` only. Java's `z` also parses texts such as `2023-11-22 05:30:12 GMT` and `2023-11-22 05:30:12 Z`, which `isValidUTCTimestamp` rejects, so for the full program the inclusion does not hold.
- Parsing reads four-digit years only. `yyyy` would also accept longer years written with a leading `+`, and printing does model the `+` prefix for years above 9999.
- `MMM` uses the English month abbreviations, case-sensitive. Locales are not modelled.
- Null arguments and their `NullPointerException`s are not modelled.
- The `DateTimeParseException` thrown by the parsers is the `None` result. In `fromTomcatLogTimestamp` the first failure selects the fallback pattern, and the second is the method's result.
- `extractTimestamp` reads the first 24 characters of a line with `fromTomcatLogTimestamp`. The tests fix its results on whole lines, and the 24-character window is this model's choice.
- Lines are split at `'\n'` only. A `'\r'` stays in the line.
- Ingestion.ComposeRawLogsTraceGroup: the last group's chunk does not end with the file's final line feed. The test's expected last group is a text block that does end with one, but the test never compares chunks, and Ingestion.ComposeKeepsText states exactly where line feeds go.
- DateTimeProperties.SameUtcTextIffSameSecond: proved for years 1-9999 only. Year 0 and year 1 both print year of era `0001`, so outside that range different seconds can share a text; years above 9999 are not covered.
- IngestionPass.SameKeyIffSameSecond: proved for years 1-9999 only, for the same reason: outside that range two logs of different seconds can share a key.
- Ingestion.ExtractLogLevel: matches the severity with the `logSeverityLevel` pattern, `(INFO|DEBUG|ERROR|WARN)`, with no word boundary. A first line reading `WARNING` therefore yields `WARN`, where a whole-token match would find no level. The service's own `extractLogLevel` is not part of this model and its tests do not decide the case; the boundary-free reading keeps the level equal to the severity metadata found by the same pattern.
- IngestionPass.StoredRow: models the row as read back only for years 1-9999 (IngestionPass.StoredRowReadsBack). For year 0 or earlier the column prints the year of era, which reads back as a different year. For years above 9999 the `+` text does not parse, and the read would throw. The model stores the whole-second date-time in every case.
- Retrieval.TodayLogsPrintWholeSeconds and Retrieval.ListLogsPrintWholeSeconds: a retrieval snapshot may hold any date-times. Whole seconds, which every row read back from `app_logs` has, are a hypothesis of these two lemmas and not part of the `Tables` type.
- IngestionPass.ProcessFrom: for an aborted pass it states only that rows were appended and none changed, not which ones.
- Leading empty lines of a file are skipped before grouping. A continuation line is appended to its group after a `'\n'`.
- A group without a severity token gets the empty severity `""`. The implementation's sentinel is not shown.
- `composeLogsAndMetadata` returns a `HashMap` in the source. The model keeps the candidates in group order, which a map does not promise.
- `saveNewLogs` takes the log and its own metadata list. The source looks the list up in the map it is given.
- IngestionScenarios.ProcessStoredFile: it models the test that stubs the duplicate check to always answer "stored" by a second pass over the same file, so every key really is stored.
- IngestionScenarios.ExtractTimestampTomcat: like the other scenario lemmas, it fixes the sample line's prefix and leaves the rest of the line as a parameter (`rest`, or a token-free `PlainText` hypothesis) instead of spelling out the full test literal.
- Retrieval.ComposeChartDataBySeverity: does not model the sort by timestamp. Retrieval.ChartCountsHours states that the counts equal the counts over any reordering of the logs, the sorted list included.
- Retrieval.FindMetadataByLogId: it states the result's membership exactly, but not its order.
- Retrieval.ListLogs: its own contract states only the unknown-application case. What it lists is stated by Retrieval.ListLogsSound, Retrieval.ListLogsComplete, Retrieval.ListLogsSeverity and Retrieval.ListLogsBySeverity.
- The chart's counts are Java `long`s. The model uses unbounded naturals, and no realistic count overflows.
- The JavaScript chart code and the web pages are not modelled.
