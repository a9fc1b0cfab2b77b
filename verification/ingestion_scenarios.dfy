/**
 * The ingestion service on the inputs its behaviour is pinned down with:
 * Tomcat and ISO log lines, a five-record Tomcat excerpt, a file without
 * timestamps, and one pass over a single local source.
 */
module IngestionScenarios {

  import opened Wrappers
  import opened Digits
  import opened Temporal
  import opened DateTimeUtils
  import opened DateTimeProperties
  import opened DateTimeExamples
  import opened Constants
  import opened LogPatterns
  import opened Entities
  import opened Ingestion
  import opened IngestionPass

  // ---------------------------------------------------------------------
  // Timestamps of the sample lines
  // ---------------------------------------------------------------------

  /** A moment of the sample Tomcat excerpt: 15 May 2025, 14:32 and some seconds. */
  function SampleMoment(second: nat, milli: nat): LocalDateTime {
    LocalDateTime(LocalDate(2025, 5, 15), LocalTime(14, 32, second, milli * NanosPerMilli))
  }

  lemma SampleClock(t: LocalTime, secondText: string, milliText: string)
    requires t.Valid() && t.hour == 14 && t.minute == 32
    requires secondText == Pad(t.second, 2) && milliText == Pad(t.nano / NanosPerMilli, 3)
    ensures LocalTimeString(t) == "14:32:" + secondText + "." + milliText
  {
    PadTwo(14); PadTwo(32);
    ClockTextIs(t, "14", "32", secondText);
    LocalTimeStringIs(t, "14:32:" + secondText, milliText);
  }

  lemma SampleText(t: LocalDateTime, time: string)
    requires t.date == LocalDate(2025, 5, 15) && t.time.Valid() && time == LocalTimeString(t.time)
    ensures TomcatText(t) == "15-May-2025 " + time
  {
    PadTwo(15); PadFour(2025);
    TomcatTextIs(t, "15", "2025", time);
  }

  /** A time in whole milliseconds is its own cut to milliseconds. */
  lemma WholeMillis(t: LocalTime, milli: nat)
    requires t.Valid() && t.nano == milli * NanosPerMilli
    ensures t.nano / NanosPerMilli == milli
    ensures TruncateToMillis(t) == t
  {
  }

  /** The Tomcat text of a moment of the excerpt parses back to that moment. */
  lemma SampleMomentParses(s: string, t: LocalDateTime, second: nat, milli: nat, secondText: string, milliText: string)
    requires t == SampleMoment(second, milli) && second < 60 && milli < 1000
    requires secondText == Pad(second, 2) && milliText == Pad(milli, 3)
    requires s == "15-May-2025 " + ("14:32:" + secondText + "." + milliText)
    ensures FromTomcatLogTimestamp(s) == Some(t)
  {
    WholeMillis(t.time, milli);
    SampleClock(t.time, secondText, milliText);
    SampleText(t, "14:32:" + secondText + "." + milliText);
    TomcatRoundTrip(t);
  }

  /** A line whose first 24 characters are a moment of the excerpt is anchored at that moment. */
  lemma SampleAnchor(line: string, t: LocalDateTime, second: nat, milli: nat)
    requires t == SampleMoment(second, milli) && second < 60 && milli < 1000
    requires |line| >= TimestampWidth
    requires line[..TimestampWidth] == "15-May-2025 " + ("14:32:" + Pad(second, 2) + "." + Pad(milli, 3))
    ensures ExtractTimestamp(line) == Some(t)
  {
    SampleMomentParses(line[..TimestampWidth], t, second, milli, Pad(second, 2), Pad(milli, 3));
  }

  /** A line too short for a timestamp, or without a date separator where either pattern has one, has none. */
  lemma NoStampWhen(line: string)
    requires |line| >= TimestampWidth ==> line[2] != '-' && line[4] != '-'
    ensures ExtractTimestamp(line).None?
  {
    if |line| >= TimestampWidth {
      assert DateFields(line[..TimestampWidth][..10]).None?;
    }
  }

  /** The timestamp is read from the first 24 characters, whatever the rest of the line says. */
  lemma ExtractTimestampTomcat(line: string, rest: string)
    requires line == "15-May-2025 14:32:10.213" + rest
    ensures ExtractTimestamp(line) == Some(LocalDateTime(LocalDate(2025, 5, 15), LocalTime(14, 32, 10, 213_000_000)))
  {
    TomcatTimestampExample("15-May-2025 14:32:10.213", LocalDateTime(LocalDate(2025, 5, 15), LocalTime(14, 32, 10, 213_000_000)));
  }

  lemma ExtractTimestampStackTrace(line: string, rest: string)
    requires line == "java.lang.NullPointerException" + rest
    ensures ExtractTimestamp(line) == None
  {
    NoStampWhen(line);
  }

  lemma ExtractTimestampIsoOffset(line: string, rest: string)
    requires line == "2025-05-16T09:31:14.088Z" + rest
    ensures ExtractTimestamp(line) == Some(LocalDateTime(LocalDate(2025, 5, 16), LocalTime(9, 31, 14, 88_000_000)))
  {
    IsoOffsetTimestampExample("2025-05-16T09:31:14.088Z", LocalDateTime(LocalDate(2025, 5, 16), LocalTime(9, 31, 14, 88_000_000)));
  }

  /** Continuation lines of a stack trace carry no timestamp. */
  lemma StackFrameHasNoStamp(line: string, rest: string)
    requires line == "    at " + rest
    ensures ExtractTimestamp(line) == None
  {
    NoStampWhen(line);
  }

  // ---------------------------------------------------------------------
  // Grouping a run of anchor lines followed by a stack trace
  // ---------------------------------------------------------------------

  /** Anchor lines followed by lines without a timestamp yield the anchors' timestamps, in order. */
  lemma {:induction false} AnchorStampsOfStamped(parse: Stamper, lines: seq<string>, stamps: seq<LocalDateTime>)
    requires |stamps| <= |lines|
    requires forall k :: 0 <= k < |stamps| ==> LineStamp(parse, lines[k]) == Some(stamps[k])
    requires forall k :: |stamps| <= k < |lines| ==> LineStamp(parse, lines[k]).None?
    ensures AnchorStamps(parse, lines) == stamps
    decreases |lines|
  {
    if lines != [] {
      var rest := lines[1..];
      var first := LineStamps(parse, lines[0]);
      assert AnchorStamps(parse, lines) == first + AnchorStamps(parse, rest);
      if stamps == [] {
        assert LineStamp(parse, lines[0]).None?;
        assert first == [];
        forall k | 0 <= k < |rest| ensures LineStamp(parse, rest[k]).None? {
          assert rest[k] == lines[k + 1];
        }
        AnchorStampsOfStamped(parse, rest, []);
      } else {
        var later := stamps[1..];
        assert LineStamp(parse, lines[0]) == Some(stamps[0]);
        assert first == [stamps[0]];
        forall k | 0 <= k < |later| ensures LineStamp(parse, rest[k]) == Some(later[k]) {
          assert rest[k] == lines[k + 1];
        }
        forall k | |later| <= k < |rest| ensures LineStamp(parse, rest[k]).None? {
          assert rest[k] == lines[k + 1];
        }
        AnchorStampsOfStamped(parse, rest, later);
        assert stamps == [stamps[0]] + later;
      }
    }
  }

  /** The Tomcat line stamps the service reads are the stamps of the generic grouping. */
  lemma ExtractedStamps(lines: seq<string>, stamps: seq<LocalDateTime>)
    requires |stamps| <= |lines|
    requires forall k :: 0 <= k < |stamps| ==> ExtractTimestamp(lines[k]) == Some(stamps[k])
    requires forall k :: |stamps| <= k < |lines| ==> ExtractTimestamp(lines[k]).None?
    ensures forall k :: 0 <= k < |stamps| ==> LineStamp(FromTomcatLogTimestamp, lines[k]) == Some(stamps[k])
    ensures forall k :: |stamps| <= k < |lines| ==> LineStamp(FromTomcatLogTimestamp, lines[k]).None?
  {
  }

  lemma {:induction false} StampsIndex(groups: seq<TraceGroup>, i: nat)
    requires i < |groups|
    ensures Stamps(groups)[i] == groups[i].timestamp
    decreases i
  {
    if i > 0 {
      StampsIndex(groups[1..], i - 1);
    }
  }

  /**
   * A file of anchor lines then timestamp-free lines: one group per anchor,
   * stamped in order, the first anchor alone in its group when a second
   * anchor follows it.
   */
  lemma StampedRunGroups(lines: seq<string>, stamps: seq<LocalDateTime>)
    requires 2 <= |stamps| <= |lines| && lines[0] != ""
    requires forall k :: 0 <= k < |lines| ==> NoNewline(lines[k])
    requires forall k :: 0 <= k < |stamps| ==> ExtractTimestamp(lines[k]) == Some(stamps[k])
    requires forall k :: |stamps| <= k < |lines| ==> ExtractTimestamp(lines[k]).None?
    ensures var r := ComposeRawLogsTraceGroup(Unlines(lines));
      && r.Success? && Stamps(r.value) == stamps
      && r.value[0] == TraceGroup(stamps[0], Utf16Length(lines[0]), lines[0])
  {
    UnlinesThenSplit(lines);
    assert ComposeRawLogsTraceGroup(Unlines(lines)) == GroupLines(FromTomcatLogTimestamp, lines);
    ExtractedStamps(lines, stamps);
    GroupLinesFirstAlone(FromTomcatLogTimestamp, lines);
    GroupLinesStamps(FromTomcatLogTimestamp, lines);
    AnchorStampsOfStamped(FromTomcatLogTimestamp, lines, stamps);
  }

  /** The anchor timestamps of the Tomcat excerpt, in file order. */
  const ExcerptMoments: seq<LocalDateTime> :=
    [SampleMoment(10, 213), SampleMoment(15, 120), SampleMoment(15, 134), SampleMoment(15, 138), SampleMoment(20, 500)]

  /** The excerpt's timestamp text is its date followed by its time. */
  lemma ExcerptStampSplits(secondText: string, milliText: string)
    ensures "15-May-2025 14:32:" + secondText + "." + milliText == "15-May-2025 " + ("14:32:" + secondText + "." + milliText)
  {
    assert "15-May-2025 14:32:" == "15-May-2025 " + "14:32:";
  }

  lemma ExcerptAnchor(line: string, second: nat, milli: nat, secondText: string, milliText: string)
    requires second < 60 && milli < 1000 && |line| >= TimestampWidth
    requires secondText == Pad(second, 2) && milliText == Pad(milli, 3)
    requires line[..TimestampWidth] == "15-May-2025 14:32:" + secondText + "." + milliText
    ensures ExtractTimestamp(line) == Some(SampleMoment(second, milli))
  {
    ExcerptStampSplits(secondText, milliText);
    SampleAnchor(line, SampleMoment(second, milli), second, milli);
  }

  lemma ExcerptAnchor0(line: string)
    requires |line| >= TimestampWidth && line[..TimestampWidth] == "15-May-2025 14:32:10.213"
    ensures ExtractTimestamp(line) == Some(SampleMoment(10, 213))
  {
    PadTwo(10); PadThree(213);
    ExcerptAnchor(line, 10, 213, "10", "213");
  }

  lemma ExcerptAnchor1(line: string)
    requires |line| >= TimestampWidth && line[..TimestampWidth] == "15-May-2025 14:32:15.120"
    ensures ExtractTimestamp(line) == Some(SampleMoment(15, 120))
  {
    PadTwo(15); PadThree(120);
    ExcerptAnchor(line, 15, 120, "15", "120");
  }

  lemma ExcerptAnchor2(line: string)
    requires |line| >= TimestampWidth && line[..TimestampWidth] == "15-May-2025 14:32:15.134"
    ensures ExtractTimestamp(line) == Some(SampleMoment(15, 134))
  {
    PadTwo(15); PadThree(134);
    ExcerptAnchor(line, 15, 134, "15", "134");
  }

  lemma ExcerptAnchor3(line: string)
    requires |line| >= TimestampWidth && line[..TimestampWidth] == "15-May-2025 14:32:15.138"
    ensures ExtractTimestamp(line) == Some(SampleMoment(15, 138))
  {
    PadTwo(15); PadThree(138);
    ExcerptAnchor(line, 15, 138, "15", "138");
  }

  lemma ExcerptAnchor4(line: string)
    requires |line| >= TimestampWidth && line[..TimestampWidth] == "15-May-2025 14:32:20.500"
    ensures ExtractTimestamp(line) == Some(SampleMoment(20, 500))
  {
    PadTwo(20); PadThree(500);
    ExcerptAnchor(line, 20, 500, "20", "500");
  }

  /**
   * The Tomcat excerpt: four one-line records, then a fifth whose anchor
   * line is followed by a null-pointer trace of eight lines. Five groups
   * come out, the first exactly its anchor line, the last stamped 14:32:20.500.
   */
  lemma TomcatExcerptGroups(lines: seq<string>)
    requires |lines| == 13 && forall k :: 0 <= k < 13 ==> NoNewline(lines[k])
    requires forall k :: 0 <= k < 5 ==> |lines[k]| >= TimestampWidth
    requires lines[0][..TimestampWidth] == "15-May-2025 14:32:10.213"
    requires lines[1][..TimestampWidth] == "15-May-2025 14:32:15.120"
    requires lines[2][..TimestampWidth] == "15-May-2025 14:32:15.134"
    requires lines[3][..TimestampWidth] == "15-May-2025 14:32:15.138"
    requires lines[4][..TimestampWidth] == "15-May-2025 14:32:20.500"
    requires forall k :: 5 <= k < 13 ==> ExtractTimestamp(lines[k]).None?
    ensures var r := ComposeRawLogsTraceGroup(Unlines(lines));
      && r.Success? && |r.value| == 5
      && r.value[0] == TraceGroup(LocalDateTime(LocalDate(2025, 5, 15), LocalTime(14, 32, 10, 213_000_000)), Utf16Length(lines[0]), lines[0])
      && r.value[4].timestamp == LocalDateTime(LocalDate(2025, 5, 15), LocalTime(14, 32, 20, 500_000_000))
      && r.value[4].chunk != ""
  {
    forall k | 0 <= k < 5 ensures ExtractTimestamp(lines[k]) == Some(ExcerptMoments[k]) {
      if k == 0 { ExcerptAnchor0(lines[0]); }
      else if k == 1 { ExcerptAnchor1(lines[1]); }
      else if k == 2 { ExcerptAnchor2(lines[2]); }
      else if k == 3 { ExcerptAnchor3(lines[3]); }
      else { ExcerptAnchor4(lines[4]); }
    }
    StampedRunGroups(lines, ExcerptMoments);
    var groups := ComposeRawLogsTraceGroup(Unlines(lines)).value;
    StampsIndex(groups, 4);
    assert Anchored(FromTomcatLogTimestamp, groups[4]);
  }

  /** The excerpt with its timestamps stripped: the first line has none, so the file is rejected. */
  lemma UnstampedFileRejected(first: string, more: string, rest: string)
    requires first == "INFO [main] " + more && NoNewline(first)
    ensures ComposeRawLogsTraceGroup(first + "\n" + rest) == Failure(MissingTimestamp)
  {
    NoStampWhen(first);
    ComposeRejectsUnstampedStart(first, rest);
  }

  // ---------------------------------------------------------------------
  // Levels and metadata of sample groups
  // ---------------------------------------------------------------------

  /** A character no severity token starts with, and not a line break. */
  predicate Plain(c: char) {
    c != 'I' && c != 'D' && c != 'E' && c != 'W' && c != '\n'
  }

  predicate PlainText(s: string) {
    forall j :: 0 <= j < |s| ==> Plain(s[j])
  }

  lemma PlainConcat(a: string, b: string)
    requires PlainText(a) && PlainText(b)
    ensures PlainText(a + b)
  {
    forall j | |a| <= j < |a + b| ensures Plain((a + b)[j]) {
      assert (a + b)[j] == b[j - |a|];
    }
  }

  /** No severity token starts at a character that begins none of them. */
  lemma NoTokenAt(s: string, j: nat)
    requires j < |s| && Plain(s[j])
    ensures SeverityAt(s, j).None?
  {
  }

  /** The leftmost token is the one at the first position where any token starts. */
  lemma LeftmostToken(s: string, q: nat, token: string)
    requires q <= |s| && SeverityAt(s, q) == Some(token)
    requires forall j :: 0 <= j < q ==> SeverityAt(s, j).None?
    ensures SeverityMatch(s) == Some(token)
  {
    var m := FindSeverity(s);
    assert m.Some?;
    assert m.value.start == q;
  }

  /** A token right after a plain prefix is the first one in the text. */
  lemma TokenAfterPlain(s: string, prefix: string, token: string)
    requires prefix <= s && PlainText(prefix)
    requires SeverityAt(s, |prefix|) == Some(token)
    ensures SeverityMatch(s) == Some(token)
  {
    forall j | 0 <= j < |prefix| ensures SeverityAt(s, j).None? {
      assert s[j] == prefix[j];
      NoTokenAt(s, j);
    }
    LeftmostToken(s, |prefix|, token);
  }

  lemma TomcatStampIsPlain(prefix: string)
    requires prefix == "15-May-2025 14:32:10.213 "
    ensures PlainText(prefix)
  {
    forall j | 0 <= j < |prefix| ensures Plain(prefix[j]) {
      assert j < 25;
    }
  }

  /** `extractLogLevel` on the first excerpt line reads INFO, whatever follows the token. */
  lemma InfoLevelExample(g: TraceGroup, rest: string)
    requires g.chunk == "15-May-2025 14:32:10.213 " + ("INFO" + rest) && NoNewline(g.chunk)
    ensures ExtractLogLevel(g) == Some("INFO")
  {
    var line := g.chunk;
    FirstLineOfLine(line);
    TomcatStampIsPlain("15-May-2025 14:32:10.213 ");
    assert line[25..29] == "INFO";
    TokenAfterPlain(line, "15-May-2025 14:32:10.213 ", "INFO");
  }

  /** A first line in which no character starts a token has no level. */
  lemma NoLevelInPlainLine(g: TraceGroup)
    requires PlainText(g.chunk)
    ensures ExtractLogLevel(g) == None
  {
    FirstLineOfLine(g.chunk);
    forall j | 0 <= j <= |g.chunk| ensures SeverityAt(g.chunk, j).None? {
      if j < |g.chunk| {
        NoTokenAt(g.chunk, j);
      }
    }
  }

  lemma UnderscorePrefixIsPlain(prefix: string)
    requires prefix == "15-May-2025 14:32:10.213 _ [main] "
    ensures PlainText(prefix)
  {
    forall j | 0 <= j < |prefix| ensures Plain(prefix[j]) {
      assert j < 34;
    }
  }

  /**
   * The excerpt line with an underscore where its level was has no level,
   * as long as the text after the thread name starts no token either.
   */
  lemma UnderscoreLevelExample(g: TraceGroup, rest: string)
    requires g.chunk == "15-May-2025 14:32:10.213 _ [main] " + rest && PlainText(rest)
    ensures ExtractLogLevel(g) == None
  {
    UnderscorePrefixIsPlain("15-May-2025 14:32:10.213 _ [main] ");
    PlainConcat("15-May-2025 14:32:10.213 _ [main] ", rest);
    NoLevelInPlainLine(g);
  }

  /** The timestamp of the Spring Boot line the metadata rules are exercised with. */
  lemma SpringStampIsPlain(stamp: string)
    requires stamp == "2025-05-16 14:45:22.456 "
    ensures PlainText(stamp)
  {
    forall j | 0 <= j < |stamp| ensures Plain(stamp[j]) {
      assert j < 24;
    }
  }

  lemma SpringHeadHasNoBracket(head: string)
    requires head == "2025-05-16 14:45:22.456 ERROR 12345 --- "
    ensures forall j :: 0 <= j < |head| ==> head[j] != '['
  {
    forall j | 0 <= j < |head| ensures head[j] != '[' {
      assert j < 40;
    }
  }

  lemma ThreadNameIsBracketFree(name: string)
    requires name == "http-nio-8080-exec-5"
    ensures forall j :: 0 <= j < |name| ==> name[j] != ']' && !IsLineTerminator(name[j])
  {
    forall j | 0 <= j < |name| ensures name[j] != ']' && !IsLineTerminator(name[j]) {
      assert j < 20;
    }
  }

  lemma ErrorAt(s: string, q: nat)
    requires q + 5 <= |s| && s[q..q + 5] == "ERROR"
    ensures SeverityAt(s, q) == Some("ERROR")
  {
    assert s[q] == s[q..q + 5][0] == 'E';
    assert !OccursAt(s, q, "INFO") by {
      assert s[q..q + 4][0] == s[q];
    }
    assert !OccursAt(s, q, "DEBUG") by {
      assert s[q..q + 5][0] == s[q];
    }
    assert OccursAt(s, q, "ERROR");
  }

  lemma ErrorAfterPlain(s: string, prefix: string, rest: string)
    requires s == prefix + ("ERROR" + rest) && PlainText(prefix)
    ensures SeverityMatch(s) == Some("ERROR")
  {
    assert s[|prefix|..|prefix| + 5] == "ERROR";
    ErrorAt(s, |prefix|);
    TokenAfterPlain(s, prefix, "ERROR");
  }

  /** The severity rule on the sample chunk stores the token ERROR. */
  lemma SpringChunkSeverity(search: Searcher, id: string, log: AppLog, g: TraceGroup, rest: string)
    requires g.chunk == "2025-05-16 14:45:22.456 " + ("ERROR" + rest)
    ensures ExtractMetadataByRegex(search, id, log, g, RegexTuples[9]) == Some(LogsMetadata(id, log.uuid, "logSeverityLevel", "ERROR"))
  {
    SpringStampIsPlain("2025-05-16 14:45:22.456 ");
    ErrorAfterPlain(g.chunk, "2025-05-16 14:45:22.456 ", rest);
    SeverityRule(search, g.chunk);
  }

  lemma SpringThreadMatch(s: string, head: string, name: string, rest: string)
    requires head == "2025-05-16 14:45:22.456 ERROR 12345 --- " && name == "http-nio-8080-exec-5"
    requires s == head + "[" + name + "]" + rest
    ensures ThreadMatch(s) == Some("[" + name + "]")
  {
    SpringHeadHasNoBracket(head);
    ThreadNameIsBracketFree(name);
    FirstBracketedRun(s, head, name, rest);
  }

  /** The thread-name rule on the sample chunk stores the whole bracketed run, brackets included. */
  lemma SpringChunkThread(search: Searcher, id: string, log: AppLog, g: TraceGroup, head: string, name: string, rest: string)
    requires head == "2025-05-16 14:45:22.456 ERROR 12345 --- " && name == "http-nio-8080-exec-5"
    requires g.chunk == head + "[" + name + "]" + rest
    ensures ExtractMetadataByRegex(search, id, log, g, RegexTuples[8]) == Some(LogsMetadata(id, log.uuid, "threadName", "[" + name + "]"))
  {
    SpringThreadMatch(g.chunk, head, name, rest);
    ThreadRule(search, g.chunk);
  }

  /** The exception rule hands its pattern to the engine and stores the whole match it answers with. */
  lemma ExceptionRuleStoresWholeMatch(search: Searcher, id: string, log: AppLog, g: TraceGroup, found: string)
    requires search(ExceptionClassAndMessage, g.chunk) == Some(found)
    ensures ExtractMetadataByRegex(search, id, log, g, RegexTuples[5]) == Some(LogsMetadata(id, log.uuid, "exceptionClassAndMessage", found))
  {
    assert RegexTuples[5] == RegexTuple("exceptionClassAndMessage", ExceptionClassAndMessage);
  }

  // ---------------------------------------------------------------------
  // One pass over a single local source
  // ---------------------------------------------------------------------

  /** The one local source the pass is exercised with, reading the file at `path`. */
  function MockSource(path: string): (source: LogsDataSource)
    ensures source.sourceType == "local" && source.logFilePath == path
  {
    LogsDataSource("UUID1", "Apache Tomcat 10 (Linux Ubuntu 20.04.01)", "local", "App_UUID1",
                   LocalDateTime(LocalDate(2000, 11, 5), LocalTime(21, 15, 0, 0)), path)
  }

  lemma IsoStampIsPlain(stamp: string)
    requires stamp == "2025-05-16T09:31:14.088Z "
    ensures PlainText(stamp)
  {
    forall j | 0 <= j < |stamp| ensures Plain(stamp[j]) {
      assert j < 25;
    }
  }

  /** A group whose first line is an ISO-stamped ERROR line has level ERROR. */
  lemma IsoErrorLevel(g: TraceGroup, more: string)
    requires FirstLine(g.chunk) == "2025-05-16T09:31:14.088Z " + ("ERROR" + more)
    ensures ExtractLogLevel(g) == Some("ERROR")
  {
    IsoStampIsPlain("2025-05-16T09:31:14.088Z ");
    ErrorAfterPlain(FirstLine(g.chunk), "2025-05-16T09:31:14.088Z ", more);
  }

  /** The pass over a single local source is the ingestion of that source. */
  lemma SingleSourcePass(files: Files, search: Searcher, ids: Ids, store: Store, src: LogsDataSource)
    requires src.sourceType == "local"
    ensures ProcessLocalLogs(files, search, ids, store, [src]) == IngestSource(files, search, ids, store, src)
  {
    assert [src][1..] == [];
    assert LocalSources([src]) == [src];
    match IngestSource(files, search, ids, store, src)
    case Aborted(_, _) =>
    case Completed(saved, st) =>
      assert ProcessFrom(files, search, ids, st, []) == Completed(false, st);
  }

  /**
   * A file starting on an ISO-stamped ERROR line, ingested into an empty
   * store: the pass reports that it saved, and it saved at least one log
   * and at least one metadata row.
   */
  lemma ProcessFreshFile(files: Files, search: Searcher, ids: Ids, path: string, first: string, more: string, rest: string)
    requires first == "2025-05-16T09:31:14.088Z " + ("ERROR" + more) && NoNewline(first)
    requires path in files && files[path] == first + "\n" + rest
    ensures var r := ProcessLocalLogs(files, search, ids, Store([], []), [MockSource(path)]);
      r.Completed? && r.saved && |r.store.logs| >= 1 && |r.store.metadata| >= 1
  {
    var src := MockSource(path);
    ExtractTimestampIsoOffset(first, " " + ("ERROR" + more));
    ComposeStampedStart(first, rest);
    var groups := ComposeRawLogsTraceGroup(files[path]).value;
    IsoErrorLevel(groups[0], more);
    FreshSourceSaves(files, search, ids, Store([], []), src);
    SingleSourcePass(files, search, ids, Store([], []), src);
  }

  /** An empty file: the pass completes and reports that it saved nothing. */
  lemma ProcessEmptyFile(files: Files, search: Searcher, ids: Ids, store: Store, path: string)
    requires path in files && files[path] == ""
    ensures ProcessLocalLogs(files, search, ids, store, [MockSource(path)]) == Completed(false, store)
  {
    SingleSourcePass(files, search, ids, store, MockSource(path));
  }

  /** Every record of the file already stored: a second pass saves nothing. */
  lemma ProcessStoredFile(files: Files, search: Searcher, ids: Ids, path: string, first: string, more: string, rest: string)
    requires first == "2025-05-16T09:31:14.088Z " + ("ERROR" + more) && NoNewline(first)
    requires path in files && files[path] == first + "\n" + rest
    ensures var once := ProcessLocalLogs(files, search, ids, Store([], []), [MockSource(path)]).store;
      ProcessLocalLogs(files, search, ids, once, [MockSource(path)]) == Completed(false, once)
  {
    ProcessFreshFile(files, search, ids, path, first, more, rest);
    ProcessIdempotent(files, search, ids, Store([], []), [MockSource(path)], search, ids);
  }

  /** A path with no readable file: the pass stops with that error and saves nothing. */
  lemma ProcessMissingFile(files: Files, search: Searcher, ids: Ids, store: Store, path: string)
    requires path !in files
    ensures ProcessLocalLogs(files, search, ids, store, [MockSource(path)]) == Aborted(UnreadableFile(path), store)
  {
    SingleSourcePass(files, search, ids, store, MockSource(path));
  }
}
