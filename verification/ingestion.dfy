/**
 * The ingestion engine: raw log text is cut into lines, lines are gathered
 * into trace groups (a timestamped line plus the continuation lines after
 * it), each group becomes a log record with its severity and its metadata,
 * and records not already stored are saved together with their metadata.
 *
 * The engine's own source is not part of this model; what it must do is
 * fixed by its test suite, and where the tests are silent the choices made
 * here are listed in the README.
 */
module Ingestion {

  import opened Wrappers
  import opened Temporal
  import opened DateTimeUtils
  import opened Constants
  import opened LogPatterns
  import opened Entities

  // ---------------------------------------------------------------------
  // Lines
  // ---------------------------------------------------------------------

  predicate NoNewline(line: string) {
    forall j :: 0 <= j < |line| ==> line[j] != '\n'
  }

  /** The lines written out again, each followed by a newline. */
  function Unlines(lines: seq<string>): string {
    if lines == [] then "" else lines[0] + "\n" + Unlines(lines[1..])
  }

  lemma {:induction false} UnlinesAppend(a: seq<string>, b: seq<string>)
    ensures Unlines(a + b) == Unlines(a) + Unlines(b)
    decreases |a|
  {
    if a == [] {
      assert a + b == b;
    } else {
      assert (a + b)[1..] == a[1..] + b;
      UnlinesAppend(a[1..], b);
    }
  }

  /** The first newline at or after `from`, or the end of the text. */
  function LineEnd(text: string, from: nat): (e: nat)
    requires from <= |text|
    ensures from <= e <= |text|
    ensures e < |text| ==> text[e] == '\n'
    ensures forall j :: from <= j < e ==> text[j] != '\n'
    decreases |text| - from
  {
    if from == |text| || text[from] == '\n' then from else LineEnd(text, from + 1)
  }

  /**
   * `String.lines()` for newline-separated text: a final newline ends the
   * last line rather than starting an empty one, and empty text has no lines.
   */
  function SplitLines(text: string): (lines: seq<string>)
    ensures forall k :: 0 <= k < |lines| ==> NoNewline(lines[k])
    ensures |lines| == 0 <==> text == ""
    decreases |text|
  {
    if text == "" then []
    else
      var e := LineEnd(text, 0);
      if e == |text| then [text] else [text[..e]] + SplitLines(text[e + 1..])
  }

  /** The newline a text lacks at its end, if it is not empty. */
  function MissingNewline(text: string): (nl: string)
    ensures nl == "" || nl == "\n"
    ensures nl == "\n" <==> text != "" && text[|text| - 1] != '\n'
  {
    if text != "" && text[|text| - 1] != '\n' then "\n" else ""
  }

  /** Writing the lines out again gives the text back, ending in a newline. */
  lemma {:induction false} SplitThenUnlines(text: string)
    ensures Unlines(SplitLines(text)) == text + MissingNewline(text)
    decreases |text|
  {
    if text != "" {
      var e := LineEnd(text, 0);
      if e == |text| {
        assert SplitLines(text) == [text];
        assert text[|text| - 1] != '\n';
      } else {
        var head, rest := text[..e], text[e + 1..];
        assert text == head + "\n" + rest;
        SplitThenUnlines(rest);
        UnlinesOfSplitFirstLine(head, rest);
        MissingNewlineOfRest(head, rest);
        assert head + "\n" + (rest + MissingNewline(rest)) == text + MissingNewline(rest);
      }
    }
  }

  /** Writing out the lines of a text that starts with a line of its own writes that line, then the rest's lines. */
  lemma UnlinesOfSplitFirstLine(head: string, rest: string)
    requires NoNewline(head)
    ensures Unlines(SplitLines(head + "\n" + rest)) == head + "\n" + Unlines(SplitLines(rest))
  {
    var lines := SplitLines(rest);
    SplitFirstLine(head, rest);
    assert ([head] + lines)[0] == head && ([head] + lines)[1..] == lines;
  }

  /** A text past its first newline lacks a final newline exactly when the whole text does. */
  lemma MissingNewlineOfRest(head: string, rest: string)
    ensures MissingNewline(head + "\n" + rest) == MissingNewline(rest)
  {
    var text := head + "\n" + rest;
    if rest != "" {
      assert text[|text| - 1] == rest[|rest| - 1];
    }
  }

  /** A line of its own at the head of a text is the first of its lines. */
  lemma SplitFirstLine(first: string, rest: string)
    requires NoNewline(first)
    ensures SplitLines(first + "\n" + rest) == [first] + SplitLines(rest)
  {
    var text := first + "\n" + rest;
    assert text[|first|] == '\n';
    assert forall j :: 0 <= j < |first| ==> text[j] == first[j];
    assert LineEnd(text, 0) == |first|;
    assert text[..|first|] == first && text[|first| + 1..] == rest;
  }

  /** Lines without newlines, written out, split back into themselves. */
  lemma {:induction false} UnlinesThenSplit(lines: seq<string>)
    requires forall k :: 0 <= k < |lines| ==> NoNewline(lines[k])
    ensures SplitLines(Unlines(lines)) == lines
    decreases |lines|
  {
    if lines != [] {
      assert Unlines(lines) == lines[0] + "\n" + Unlines(lines[1..]);
      SplitFirstLine(lines[0], Unlines(lines[1..]));
      UnlinesThenSplit(lines[1..]);
      assert lines == [lines[0]] + lines[1..];
    }
  }

  /** The lines left once the leading empty ones are skipped. */
  function SkipBlank(lines: seq<string>): (rest: seq<string>)
    ensures |rest| <= |lines| && rest == lines[|lines| - |rest|..]
    ensures forall k :: 0 <= k < |lines| - |rest| ==> lines[k] == ""
    ensures rest != [] ==> rest[0] != ""
  {
    if lines == [] || lines[0] != "" then lines else SkipBlank(lines[1..])
  }

  /** A text made of newlines alone. */
  predicate AllNewlines(text: string) {
    forall j :: 0 <= j < |text| ==> text[j] == '\n'
  }

  lemma AllNewlinesTail(text: string)
    requires text != "" && text[0] == '\n'
    ensures AllNewlines(text) <==> AllNewlines(text[1..])
  {
    assert forall j :: 1 <= j < |text| ==> text[j] == text[1..][j - 1];
  }

  /** A newline first in the text is an empty first line. */
  lemma SplitLeadingNewline(text: string)
    requires text != "" && text[0] == '\n'
    ensures SkipBlank(SplitLines(text)) == SkipBlank(SplitLines(text[1..]))
  {
    assert LineEnd(text, 0) == 0 && text[..0] == "";
    assert SplitLines(text) == [""] + SplitLines(text[1..]);
  }

  /** A text has only empty lines exactly when it is nothing but newlines. */
  lemma {:induction false} BlankTextHasBlankLines(text: string)
    ensures SkipBlank(SplitLines(text)) == [] <==> AllNewlines(text)
    decreases |text|
  {
    if text != "" {
      if text[0] == '\n' {
        SplitLeadingNewline(text);
        AllNewlinesTail(text);
        BlankTextHasBlankLines(text[1..]);
      } else {
        var e := LineEnd(text, 0);
        assert SplitLines(text)[0] == text[..e] != "";
      }
    }
  }

  // ---------------------------------------------------------------------
  // Timestamps and trace groups
  // ---------------------------------------------------------------------

  /** Width of both accepted timestamp layouts. */
  const TimestampWidth: nat := 24

  /** A parser for the fixed-width timestamp text a line may start with. */
  type Stamper = string -> Option<LocalDateTime>

  /** The timestamp a line starts with: its first 24 characters, parsed. */
  function LineStamp(parse: Stamper, line: string): (r: Option<LocalDateTime>)
    ensures r.Some? ==> |line| >= TimestampWidth && r == parse(line[..TimestampWidth])
  {
    if |line| >= TimestampWidth then parse(line[..TimestampWidth]) else None
  }

  /** Only the first 24 characters decide: text appended to a line never changes its timestamp. */
  lemma LineStampReadsPrefix(parse: Stamper, line: string, more: string)
    requires LineStamp(parse, line).Some?
    ensures LineStamp(parse, line + more) == LineStamp(parse, line)
  {
    assert (line + more)[..TimestampWidth] == line[..TimestampWidth];
  }

  /**
   * `extractTimestamp`: the timestamp a line starts with, read from its first
   * 24 characters with `fromTomcatLogTimestamp`; never an error.
   */
  function ExtractTimestamp(line: string): (r: Option<LocalDateTime>)
    ensures r.Some? ==> r.value.Valid() && |line| >= TimestampWidth
    ensures r == LineStamp(FromTomcatLogTimestamp, line)
  {
    if |line| >= TimestampWidth then FromTomcatLogTimestamp(line[..TimestampWidth]) else None
  }

  /**
   * Java's `String.length()`: the number of UTF-16 code units, one for a
   * character of the Basic Multilingual Plane and two for any other.
   */
  function Utf16Length(s: string): nat {
    if s == [] then 0 else (if s[0] as int > 0xFFFF then 2 else 1) + Utf16Length(s[1..])
  }

  /**
   * One or two code units per character, and as many code units as
   * characters exactly when no character lies beyond the Basic Multilingual Plane.
   */
  lemma {:induction false} Utf16LengthCounts(s: string)
    ensures |s| <= Utf16Length(s) <= 2 * |s|
    ensures Utf16Length(s) == |s| <==> forall i :: 0 <= i < |s| ==> s[i] as int <= 0xFFFF
  {
    if s != [] {
      Utf16LengthCounts(s[1..]);
      assert forall i :: 1 <= i < |s| ==> s[i] == s[1..][i - 1];
    }
  }

  lemma {:induction false} Utf16LengthConcat(a: string, b: string)
    ensures Utf16Length(a + b) == Utf16Length(a) + Utf16Length(b)
  {
    if a == [] {
      assert a + b == b;
    } else {
      assert (a + b)[0] == a[0];
      assert (a + b)[1..] == a[1..] + b;
      Utf16LengthConcat(a[1..], b);
    }
  }

  /** `InstantTraceGroup`: a record's anchor timestamp, its text, and that text's length in UTF-16 code units. */
  datatype TraceGroup = TraceGroup(timestamp: LocalDateTime, length: nat, chunk: string)

  const MissingTimestamp: string := "Failed to process logs, invalid instant group, missing timestamp"

  /** A group whose chunk starts with a line carrying its timestamp, and whose length is its chunk's in UTF-16 code units. */
  predicate Anchored(parse: Stamper, g: TraceGroup) {
    g.length == Utf16Length(g.chunk) && LineStamp(parse, g.chunk) == Some(g.timestamp)
  }

  predicate AllAnchored(parse: Stamper, groups: seq<TraceGroup>) {
    forall i :: 0 <= i < |groups| ==> Anchored(parse, groups[i])
  }

  /** The groups' chunks, in order. */
  function Chunks(groups: seq<TraceGroup>): (chunks: seq<string>)
    ensures |chunks| == |groups|
  {
    if groups == [] then [] else [groups[0].chunk] + Chunks(groups[1..])
  }

  lemma {:induction false} ChunksAppend(a: seq<TraceGroup>, b: seq<TraceGroup>)
    ensures Chunks(a + b) == Chunks(a) + Chunks(b)
    decreases |a|
  {
    if a == [] {
      assert a + b == b;
    } else {
      assert (a + b)[1..] == a[1..] + b;
      ChunksAppend(a[1..], b);
    }
  }

  /** The groups' timestamps, in order. */
  function Stamps(groups: seq<TraceGroup>): (stamps: seq<LocalDateTime>)
    ensures |stamps| == |groups|
  {
    if groups == [] then [] else [groups[0].timestamp] + Stamps(groups[1..])
  }

  lemma {:induction false} StampsAppend(a: seq<TraceGroup>, b: seq<TraceGroup>)
    ensures Stamps(a + b) == Stamps(a) + Stamps(b)
    decreases |a|
  {
    if a == [] {
      assert a + b == b;
    } else {
      assert (a + b)[1..] == a[1..] + b;
      StampsAppend(a[1..], b);
    }
  }

  /** The timestamp of one line, as a sequence of zero or one. */
  function LineStamps(parse: Stamper, line: string): (stamps: seq<LocalDateTime>)
    ensures |stamps| <= 1
    ensures stamps != [] <==> LineStamp(parse, line).Some?
  {
    match LineStamp(parse, line)
    case Some(t) => [t]
    case None => []
  }

  /** The timestamps of the lines that carry one, in line order. */
  function AnchorStamps(parse: Stamper, lines: seq<string>): (stamps: seq<LocalDateTime>)
    ensures |stamps| <= |lines|
  {
    if lines == [] then [] else LineStamps(parse, lines[0]) + AnchorStamps(parse, lines[1..])
  }

  /** A new group made of an anchor line alone. */
  function Open(parse: Stamper, timestamp: LocalDateTime, line: string): (g: TraceGroup)
    requires LineStamp(parse, line) == Some(timestamp)
    ensures Anchored(parse, g) && g.chunk == line && g.timestamp == timestamp
  {
    TraceGroup(timestamp, Utf16Length(line), line)
  }

  /** The group with a continuation line appended on a line of its own. */
  function Extend(parse: Stamper, g: TraceGroup, line: string): (r: TraceGroup)
    requires Anchored(parse, g)
    ensures Anchored(parse, r) && r.timestamp == g.timestamp
    ensures Unlines([r.chunk]) == Unlines([g.chunk, line])
  {
    LineStampReadsPrefix(parse, g.chunk, "\n" + line);
    assert g.chunk + "\n" + line == g.chunk + ("\n" + line);
    assert Unlines([g.chunk, line]) == g.chunk + "\n" + Unlines([line]);
    Utf16LengthConcat(g.chunk, "\n" + line);
    Utf16LengthConcat("\n", line);
    TraceGroup(g.timestamp, g.length + 1 + Utf16Length(line), g.chunk + "\n" + line)
  }

  /** The scan's state: the groups already closed, and the one lines are appended to. */
  datatype Scan = Scan(closed: seq<TraceGroup>, open: TraceGroup)

  /** All groups of a scan, the open one last. */
  function Groups(s: Scan): (groups: seq<TraceGroup>)
    ensures |groups| == |s.closed| + 1 && groups[|s.closed|] == s.open
  {
    s.closed + [s.open]
  }

  predicate ScanAnchored(parse: Stamper, s: Scan) {
    AllAnchored(parse, s.closed) && Anchored(parse, s.open)
  }

  /** The scan's text: its chunks, each on lines of its own. */
  function Text(s: Scan): string {
    Unlines(Chunks(s.closed)) + Unlines([s.open.chunk])
  }

  /**
   * One step of the scan: an anchor line closes the open group and opens a
   * new one; any other line is appended to the open group.
   */
  function Step(parse: Stamper, s: Scan, line: string): (next: Scan)
    requires ScanAnchored(parse, s)
    ensures ScanAnchored(parse, next)
    ensures s.closed <= next.closed
  {
    match LineStamp(parse, line)
    case Some(t) => Scan(s.closed + [s.open], Open(parse, t, line))
    case None => Scan(s.closed, Extend(parse, s.open, line))
  }

  /** A step adds the line's timestamp, if it has one. */
  lemma StepKeepsStamps(parse: Stamper, s: Scan, line: string)
    requires ScanAnchored(parse, s)
    ensures Stamps(Groups(Step(parse, s, line))) == Stamps(Groups(s)) + LineStamps(parse, line)
  {
    match LineStamp(parse, line)
    case Some(t) =>
      StampsAppend(Groups(s), [Open(parse, t, line)]);
    case None =>
      StampsAppend(s.closed, [s.open]);
      StampsAppend(s.closed, [Extend(parse, s.open, line)]);
  }

  /** A step adds exactly that one line to the scan's text. */
  lemma StepKeepsText(parse: Stamper, s: Scan, line: string)
    requires ScanAnchored(parse, s)
    ensures Text(Step(parse, s, line)) == Text(s) + Unlines([line])
  {
    match LineStamp(parse, line)
    case Some(t) =>
      ChunksAppend(s.closed, [s.open]);
      assert Chunks([s.open]) == [s.open.chunk];
      UnlinesAppend(Chunks(s.closed), [s.open.chunk]);
    case None =>
      UnlinesAppend([s.open.chunk], [line]);
      assert [s.open.chunk] + [line] == [s.open.chunk, line];
  }

  /** The scan over the remaining lines, one `Step` per line. */
  function GroupFrom(parse: Stamper, s: Scan, lines: seq<string>): (r: Scan)
    requires ScanAnchored(parse, s)
    ensures ScanAnchored(parse, r)
    ensures s.closed <= r.closed
    decreases |lines|
  {
    if lines == [] then s else GroupFrom(parse, Step(parse, s, lines[0]), lines[1..])
  }

  /** One group per line that carries a timestamp, opened in line order. */
  lemma {:induction false} GroupFromStamps(parse: Stamper, s: Scan, lines: seq<string>)
    requires ScanAnchored(parse, s)
    ensures Stamps(Groups(GroupFrom(parse, s, lines))) == Stamps(Groups(s)) + AnchorStamps(parse, lines)
    decreases |lines|
  {
    if lines == [] {
      assert Stamps(Groups(s)) + AnchorStamps(parse, lines) == Stamps(Groups(s));
    } else {
      var next := Step(parse, s, lines[0]);
      var before, here, after := Stamps(Groups(s)), LineStamps(parse, lines[0]), AnchorStamps(parse, lines[1..]);
      StepKeepsStamps(parse, s, lines[0]);
      GroupFromStamps(parse, next, lines[1..]);
      assert Stamps(Groups(GroupFrom(parse, s, lines))) == (before + here) + after;
      assert AnchorStamps(parse, lines) == here + after;
      assert (before + here) + after == before + (here + after);
    }
  }

  /** No text is lost, duplicated or reordered: the scan's text grows by exactly the lines. */
  lemma {:induction false} GroupFromKeepsText(parse: Stamper, s: Scan, lines: seq<string>)
    requires ScanAnchored(parse, s)
    ensures Text(GroupFrom(parse, s, lines)) == Text(s) + Unlines(lines)
    decreases |lines|
  {
    if lines != [] {
      var next := Step(parse, s, lines[0]);
      StepKeepsText(parse, s, lines[0]);
      GroupFromKeepsText(parse, next, lines[1..]);
      UnlinesAppend([lines[0]], lines[1..]);
      assert [lines[0]] + lines[1..] == lines;
    }
  }

  /** The scan's text is the text of all its groups. */
  lemma TextOfGroups(s: Scan)
    ensures Text(s) == Unlines(Chunks(Groups(s)))
  {
    ChunksAppend(s.closed, [s.open]);
    assert Chunks([s.open]) == [s.open.chunk];
    UnlinesAppend(Chunks(s.closed), [s.open.chunk]);
  }

  /** A scan holding one group made of a single anchor line. */
  lemma FirstScan(parse: Stamper, t: LocalDateTime, line: string)
    requires LineStamp(parse, line) == Some(t)
    ensures var s := Scan([], Open(parse, t, line));
      ScanAnchored(parse, s) && Stamps(Groups(s)) == [t] && Text(s) == Unlines([line])
  {
    var s := Scan([], Open(parse, t, line));
    assert Groups(s) == [s.open];
    assert Stamps([s.open]) == [t];
    assert Unlines(Chunks([])) == "";
  }

  lemma ScanGroupsAnchored(parse: Stamper, s: Scan)
    requires ScanAnchored(parse, s)
    ensures AllAnchored(parse, Groups(s))
  {
    var groups := Groups(s);
    forall i | 0 <= i < |groups| ensures Anchored(parse, groups[i]) {
      if i < |s.closed| {
        assert groups[i] == s.closed[i];
      }
    }
  }

  // ---------------------------------------------------------------------
  // composeRawLogsTraceGroup
  // ---------------------------------------------------------------------

  /**
   * The grouping of a file's lines: leading empty lines are skipped, the
   * first remaining line must carry a timestamp, and the scan runs over the rest.
   */
  function GroupLines(parse: Stamper, lines: seq<string>): (r: Result<seq<TraceGroup>, string>)
    ensures r.Failure? <==> SkipBlank(lines) != [] && LineStamp(parse, SkipBlank(lines)[0]).None?
    ensures r.Failure? ==> r.error == MissingTimestamp
    ensures r.Success? ==> AllAnchored(parse, r.value) && (r.value == [] <==> SkipBlank(lines) == [])
  {
    var rest := SkipBlank(lines);
    if rest == [] then Success([])
    else
      match LineStamp(parse, rest[0])
      case None => Failure(MissingTimestamp)
      case Some(t) =>
        FirstScan(parse, t, rest[0]);
        var s := GroupFrom(parse, Scan([], Open(parse, t, rest[0])), rest[1..]);
        ScanGroupsAnchored(parse, s);
        Success(Groups(s))
  }

  /** Empty lines carry no timestamp, so skipping them loses none. */
  lemma {:induction false} SkipBlankKeepsStamps(parse: Stamper, lines: seq<string>)
    ensures AnchorStamps(parse, SkipBlank(lines)) == AnchorStamps(parse, lines)
    decreases |lines|
  {
    if lines != [] && lines[0] == "" {
      SkipBlankKeepsStamps(parse, lines[1..]);
      assert LineStamps(parse, lines[0]) == [];
    }
  }

  /** Exactly one group per line that carries a timestamp, with that timestamp, in line order. */
  lemma GroupLinesStamps(parse: Stamper, lines: seq<string>)
    requires GroupLines(parse, lines).Success?
    ensures Stamps(GroupLines(parse, lines).value) == AnchorStamps(parse, lines)
    ensures |GroupLines(parse, lines).value| == |AnchorStamps(parse, lines)|
  {
    var rest := SkipBlank(lines);
    SkipBlankKeepsStamps(parse, lines);
    if rest != [] {
      var t := LineStamp(parse, rest[0]).value;
      FirstScan(parse, t, rest[0]);
      GroupFromStamps(parse, Scan([], Open(parse, t, rest[0])), rest[1..]);
      assert AnchorStamps(parse, rest) == [t] + AnchorStamps(parse, rest[1..]);
    }
  }

  /** The grouping of lines whose first one is an anchor: the scan opened on it, run over the others. */
  lemma GroupLinesUnfold(parse: Stamper, lines: seq<string>, t: LocalDateTime)
    requires SkipBlank(lines) != [] && LineStamp(parse, SkipBlank(lines)[0]) == Some(t)
    ensures ScanAnchored(parse, Scan([], Open(parse, t, SkipBlank(lines)[0])))
    ensures GroupLines(parse, lines)
         == Success(Groups(GroupFrom(parse, Scan([], Open(parse, t, SkipBlank(lines)[0])), SkipBlank(lines)[1..])))
  {
    FirstScan(parse, t, SkipBlank(lines)[0]);
  }

  /** A scan opened on the first line and run over the others writes out all the lines. */
  lemma ScanKeepsText(parse: Stamper, rest: seq<string>, t: LocalDateTime)
    requires rest != [] && LineStamp(parse, rest[0]) == Some(t)
    requires ScanAnchored(parse, Scan([], Open(parse, t, rest[0])))
    ensures Unlines(Chunks(Groups(GroupFrom(parse, Scan([], Open(parse, t, rest[0])), rest[1..])))) == Unlines(rest)
  {
    var first := Scan([], Open(parse, t, rest[0]));
    FirstScan(parse, t, rest[0]);
    GroupFromKeepsText(parse, first, rest[1..]);
    TextOfGroups(GroupFrom(parse, first, rest[1..]));
    assert [rest[0]] + rest[1..] == rest;
    UnlinesAppend([rest[0]], rest[1..]);
  }

  /** The groups' chunks, written out, are the lines after the leading empty ones. */
  lemma GroupLinesText(parse: Stamper, lines: seq<string>)
    requires GroupLines(parse, lines).Success?
    ensures Unlines(Chunks(GroupLines(parse, lines).value)) == Unlines(SkipBlank(lines))
  {
    var rest := SkipBlank(lines);
    if rest != [] {
      var t := LineStamp(parse, rest[0]).value;
      GroupLinesUnfold(parse, lines, t);
      ScanKeepsText(parse, rest, t);
    }
  }

  /**
   * When the line after the first anchor opens a group of its own, the
   * first group is exactly that anchor line: its timestamp, its length, its text.
   */
  lemma GroupLinesFirstAlone(parse: Stamper, lines: seq<string>)
    requires |lines| >= 2 && lines[0] != ""
    requires LineStamp(parse, lines[0]).Some? && LineStamp(parse, lines[1]).Some?
    ensures GroupLines(parse, lines).Success?
    ensures var groups := GroupLines(parse, lines).value;
      |groups| >= 2 && groups[0] == TraceGroup(LineStamp(parse, lines[0]).value, Utf16Length(lines[0]), lines[0])
  {
    var t0, t1 := LineStamp(parse, lines[0]).value, LineStamp(parse, lines[1]).value;
    var first := Scan([], Open(parse, t0, lines[0]));
    FirstScan(parse, t0, lines[0]);
    var second := Step(parse, first, lines[1]);
    assert second.closed == [first.open];
    assert GroupFrom(parse, first, lines[1..]) == GroupFrom(parse, second, lines[2..]);
    var s := GroupFrom(parse, second, lines[2..]);
    assert s.closed[0] == first.open;
  }

  /** `composeRawLogsTraceGroup`: the file's lines, grouped with `extractTimestamp`. */
  function ComposeRawLogsTraceGroup(text: string): (r: Result<seq<TraceGroup>, string>)
    ensures r.Success? ==> AllAnchored(FromTomcatLogTimestamp, r.value)
    ensures r.Success? && r.value == [] <==> AllNewlines(text)
  {
    BlankTextHasBlankLines(text);
    GroupLines(FromTomcatLogTimestamp, SplitLines(text))
  }

  /** Empty lines write out as newlines alone. */
  lemma {:induction false} UnlinesOfBlank(lines: seq<string>)
    requires forall k :: 0 <= k < |lines| ==> lines[k] == ""
    ensures AllNewlines(Unlines(lines))
    decreases |lines|
  {
    if lines != [] {
      UnlinesOfBlank(lines[1..]);
      var tail := Unlines(lines[1..]);
      assert Unlines(lines) == "\n" + tail;
      assert forall j :: 1 <= j < |tail| + 1 ==> ("\n" + tail)[j] == tail[j - 1];
    }
  }

  /** The lines written out are their leading empty lines, as newlines, then the rest. */
  lemma UnlinesSkipBlank(lines: seq<string>)
    ensures var blank := lines[..|lines| - |SkipBlank(lines)|];
      Unlines(lines) == Unlines(blank) + Unlines(SkipBlank(lines)) && AllNewlines(Unlines(blank))
  {
    var rest := SkipBlank(lines);
    var blank := lines[..|lines| - |rest|];
    assert lines == blank + rest;
    UnlinesAppend(blank, rest);
    UnlinesOfBlank(blank);
  }

  lemma NewlinesThenBody(whole: string, blank: string, body: string)
    requires whole == blank + body && AllNewlines(blank)
    ensures |body| <= |whole| && whole[|whole| - |body|..] == body && AllNewlines(whole[..|whole| - |body|])
  {
    assert whole[..|blank|] == blank;
    assert whole[|blank|..] == body;
  }

  /**
   * No character is lost, duplicated or reordered: the groups' chunks, each
   * ended by a newline, are the text (with a final newline) after its
   * leading newlines.
   */
  lemma ComposeKeepsText(text: string)
    requires ComposeRawLogsTraceGroup(text).Success?
    ensures var whole := text + MissingNewline(text);
      var body := Unlines(Chunks(ComposeRawLogsTraceGroup(text).value));
      |body| <= |whole| && whole[|whole| - |body|..] == body && AllNewlines(whole[..|whole| - |body|])
  {
    var lines := SplitLines(text);
    var groups := GroupLines(FromTomcatLogTimestamp, lines).value;
    assert ComposeRawLogsTraceGroup(text).value == groups;
    GroupLinesText(FromTomcatLogTimestamp, lines);
    SplitThenUnlines(text);
    UnlinesSkipBlank(lines);
    NewlinesThenBody(text + MissingNewline(text), Unlines(lines[..|lines| - |SkipBlank(lines)|]), Unlines(Chunks(groups)));
  }

  /** One group per line `extractTimestamp` finds a timestamp on, with that timestamp, in line order. */
  lemma ComposeStamps(text: string)
    requires ComposeRawLogsTraceGroup(text).Success?
    ensures Stamps(ComposeRawLogsTraceGroup(text).value) == AnchorStamps(FromTomcatLogTimestamp, SplitLines(text))
  {
    GroupLinesStamps(FromTomcatLogTimestamp, SplitLines(text));
  }

  // ---------------------------------------------------------------------
  // extractLogLevel
  // ---------------------------------------------------------------------

  /** The first line of a chunk, without its newline. */
  function FirstLine(chunk: string): (line: string)
    ensures NoNewline(line) && line <= chunk
    ensures |line| < |chunk| ==> chunk[|line|] == '\n'
  {
    chunk[..LineEnd(chunk, 0)]
  }

  /** Text after the end of a line never moves that line's end. */
  lemma {:induction false} LineEndOfExtension(text: string, more: string, from: nat)
    requires from <= |text|
    requires LineEnd(text, from) < |text| || (more != "" && more[0] == '\n')
    ensures LineEnd(text + more, from) == LineEnd(text, from)
    decreases |text| - from
  {
    if from < |text| && text[from] != '\n' {
      LineEndOfExtension(text, more, from + 1);
    }
  }

  /** Appending a line after a chunk keeps its first line. */
  lemma FirstLineOfExtension(chunk: string, line: string)
    ensures FirstLine(chunk + "\n" + line) == FirstLine(chunk)
  {
    assert chunk + "\n" + line == chunk + ("\n" + line);
    LineEndOfExtension(chunk, "\n" + line, 0);
  }

  /** A line without a newline is its own first line. */
  lemma FirstLineOfLine(line: string)
    requires NoNewline(line)
    ensures FirstLine(line) == line
  {
  }

  /** `extractLogLevel`: the leftmost severity token on the group's first line, if any. */
  function ExtractLogLevel(g: TraceGroup): (level: Option<string>)
    ensures level.Some? ==> level.value in SeverityTokens
    ensures level.None? <==> forall j :: 0 <= j <= |FirstLine(g.chunk)| ==> SeverityAt(FirstLine(g.chunk), j).None?
    ensures level.Some? ==> exists j :: 0 <= j <= |FirstLine(g.chunk)| && SeverityAt(FirstLine(g.chunk), j) == level
  {
    match FindSeverity(FirstLine(g.chunk))
    case Some(m) => Some(m.group)
    case None => None
  }

  /** Continuation lines never change a group's level: only the anchor line is read. */
  lemma ExtendKeepsLevel(parse: Stamper, g: TraceGroup, line: string)
    requires Anchored(parse, g)
    ensures ExtractLogLevel(Extend(parse, g, line)) == ExtractLogLevel(g)
  {
    FirstLineOfExtension(g.chunk, line);
  }

  /** A step never changes the first line of the scan's first group. */
  lemma StepKeepsFirstLine(parse: Stamper, s: Scan, line: string)
    requires ScanAnchored(parse, s)
    ensures FirstLine(Groups(Step(parse, s, line))[0].chunk) == FirstLine(Groups(s)[0].chunk)
  {
    match LineStamp(parse, line)
    case Some(t) =>
      assert Groups(Step(parse, s, line))[0] == Groups(s)[0];
    case None =>
      if s.closed == [] {
        FirstLineOfExtension(s.open.chunk, line);
      } else {
        assert Groups(Step(parse, s, line))[0] == s.closed[0] == Groups(s)[0];
      }
  }

  lemma {:induction false} GroupFromKeepsFirstLine(parse: Stamper, s: Scan, lines: seq<string>)
    requires ScanAnchored(parse, s)
    ensures FirstLine(Groups(GroupFrom(parse, s, lines))[0].chunk) == FirstLine(Groups(s)[0].chunk)
    decreases |lines|
  {
    if lines != [] {
      StepKeepsFirstLine(parse, s, lines[0]);
      GroupFromKeepsFirstLine(parse, Step(parse, s, lines[0]), lines[1..]);
    }
  }

  /** The first group's first line is the first non-empty line of the file. */
  lemma ComposeFirstLine(text: string)
    requires ComposeRawLogsTraceGroup(text).Success? && ComposeRawLogsTraceGroup(text).value != []
    ensures var groups := ComposeRawLogsTraceGroup(text).value;
      SkipBlank(SplitLines(text)) != [] && FirstLine(groups[0].chunk) == SkipBlank(SplitLines(text))[0]
  {
    var rest := SkipBlank(SplitLines(text));
    var t := LineStamp(FromTomcatLogTimestamp, rest[0]).value;
    var first := Scan([], Open(FromTomcatLogTimestamp, t, rest[0]));
    FirstScan(FromTomcatLogTimestamp, t, rest[0]);
    GroupFromKeepsFirstLine(FromTomcatLogTimestamp, first, rest[1..]);
    assert Groups(first)[0].chunk == rest[0];
    FirstLineOfLine(rest[0]);
  }

  /** Lines after a non-empty first line are never skipped as leading blanks. */
  lemma SkipBlankOfFilled(lines: seq<string>)
    requires lines != [] && lines[0] != ""
    ensures SkipBlank(lines) == lines
  {
  }

  /**
   * A file whose first line is not empty and carries no timestamp is
   * rejected, whatever follows it.
   */
  lemma ComposeRejectsUnstampedStart(first: string, rest: string)
    requires first != "" && NoNewline(first) && ExtractTimestamp(first).None?
    ensures ComposeRawLogsTraceGroup(first + "\n" + rest) == Failure(MissingTimestamp)
  {
    SplitFirstLine(first, rest);
    SkipBlankOfFilled([first] + SplitLines(rest));
  }

  /**
   * A file whose first line carries a timestamp is accepted, and its first
   * group is anchored on that line.
   */
  lemma ComposeStampedStart(first: string, rest: string)
    requires NoNewline(first) && ExtractTimestamp(first).Some?
    ensures var r := ComposeRawLogsTraceGroup(first + "\n" + rest);
      && r.Success? && r.value != []
      && r.value[0].timestamp == ExtractTimestamp(first).value
      && FirstLine(r.value[0].chunk) == first
  {
    var text := first + "\n" + rest;
    SplitFirstLine(first, rest);
    SkipBlankOfFilled(SplitLines(text));
    var groups := ComposeRawLogsTraceGroup(text).value;
    ComposeFirstLine(text);
    assert Anchored(FromTomcatLogTimestamp, groups[0]);
    assert groups[0].chunk[..TimestampWidth] == first[..TimestampWidth];
  }

  // ---------------------------------------------------------------------
  // extractMetadataByRegex
  // ---------------------------------------------------------------------

  /**
   * A search for a pattern in a text, answering with the whole matched text
   * (`Matcher.find()` then `group()`): the engine the patterns other than the
   * two closed ones are handed to.
   */
  type Searcher = (string, string) -> Option<string>

  /** The whole match of `logSeverityLevel`: the leftmost token. */
  function SeverityMatch(text: string): (found: Option<string>)
    ensures found.Some? <==> FindSeverity(text).Some?
    ensures found.Some? ==> found.value == FindSeverity(text).value.group && found.value in SeverityTokens
  {
    match FindSeverity(text)
    case Some(m) => Some(text[m.start..m.end])
    case None => None
  }

  /** The whole match of `threadName`: the leftmost bracketed run, brackets included. */
  function ThreadMatch(text: string): (found: Option<string>)
    ensures found.Some? <==> FindThreadName(text).Some?
    ensures found.Some? ==> found.value == "[" + FindThreadName(text).value.group + "]"
  {
    match FindThreadName(text)
    case Some(m) =>
      assert text[m.start..m.end] == "[" + text[m.start + 1..m.end - 1] + "]";
      Some(text[m.start..m.end])
    case None => None
  }

  /** The whole match of a pattern in a text: the two closed patterns by their own matchers. */
  function Find(search: Searcher, pattern: string, text: string): (found: Option<string>)
    ensures pattern == LogSeverityLevel ==> found == SeverityMatch(text)
    ensures pattern == ThreadName ==> found == ThreadMatch(text)
    ensures pattern != LogSeverityLevel && pattern != ThreadName ==> found == search(pattern, text)
  {
    if pattern == LogSeverityLevel then SeverityMatch(text)
    else if pattern == ThreadName then ThreadMatch(text)
    else search(pattern, text)
  }

  /** The table's severity rule is answered by the hand-written severity matcher. */
  lemma SeverityRule(search: Searcher, text: string)
    ensures RegexTuples[9].logName == "logSeverityLevel"
    ensures Find(search, RegexTuples[9].regex, text) == SeverityMatch(text)
  {
    assert RegexTuples[9] == RegexTuple("logSeverityLevel", LogSeverityLevel);
  }

  /** The table's thread-name rule is answered by the hand-written bracket matcher. */
  lemma ThreadRule(search: Searcher, text: string)
    ensures RegexTuples[8].logName == "threadName"
    ensures Find(search, RegexTuples[8].regex, text) == ThreadMatch(text)
  {
    assert RegexTuples[8] == RegexTuple("threadName", ThreadName);
  }

  /**
   * `extractMetadataByRegex`: one metadata row for the log when the rule's
   * pattern matches anywhere in the group's chunk, holding the whole match.
   */
  function ExtractMetadataByRegex(search: Searcher, id: string, log: AppLog, g: TraceGroup, rule: RegexTuple): (entry: Option<LogsMetadata>)
    ensures entry.Some? <==> Find(search, rule.regex, g.chunk).Some?
    ensures entry.Some? ==>
      && entry.value.uuid == id && entry.value.logId == log.uuid
      && entry.value.metadataType == rule.logName
      && Some(entry.value.metadataValue) == Find(search, rule.regex, g.chunk)
  {
    match Find(search, rule.regex, g.chunk)
    case Some(value) => Some(LogsMetadata(id, log.uuid, rule.logName, value))
    case None => None
  }

  /** A token seen from a line's start reads the same in the chunk the line starts. */
  lemma OccursInFirstLine(first: string, chunk: string, q: nat, t: string)
    requires first <= chunk && (|first| < |chunk| ==> chunk[|first|] == '\n')
    requires q <= |first| && NoNewline(t)
    ensures OccursAt(chunk, q, t) <==> OccursAt(first, q, t)
  {
    if q + |t| <= |first| {
      assert chunk[q..q + |t|] == first[q..q + |t|];
    } else if q + |t| <= |chunk| {
      assert chunk[q..q + |t|][|first| - q] == chunk[|first|];
    }
  }

  lemma SeverityInFirstLine(first: string, chunk: string, q: nat)
    requires first <= chunk && (|first| < |chunk| ==> chunk[|first|] == '\n')
    requires q <= |first|
    ensures SeverityAt(chunk, q) == SeverityAt(first, q)
  {
    OccursInFirstLine(first, chunk, q, "INFO");
    OccursInFirstLine(first, chunk, q, "DEBUG");
    OccursInFirstLine(first, chunk, q, "ERROR");
    OccursInFirstLine(first, chunk, q, "WARN");
  }

  /**
   * The `logSeverityLevel` rule, run over the whole chunk, finds the level
   * `extractLogLevel` reads from the first line whenever there is one.
   */
  lemma LevelAgreesWithSeverityMetadata(search: Searcher, g: TraceGroup)
    requires ExtractLogLevel(g).Some?
    ensures Find(search, LogSeverityLevel, g.chunk) == ExtractLogLevel(g)
  {
    var first := FirstLine(g.chunk);
    var m := FindSeverity(first).value;
    forall q | 0 <= q <= m.start ensures SeverityAt(g.chunk, q) == SeverityAt(first, q) {
      SeverityInFirstLine(first, g.chunk, q);
    }
    var found := FindSeverity(g.chunk);
    assert found.Some?;
    assert found.value.start == m.start;
  }

  // ---------------------------------------------------------------------
  // composeLogsAndMetadata
  // ---------------------------------------------------------------------

  /** Where generated ids come from: a log's from its source and position, a row's from its log and rule. */
  datatype Ids = Ids(forLog: (string, nat) -> string, forMetadata: (string, nat) -> string)

  /** The value of the first row of a metadata type, if there is one. */
  function Lookup(entries: seq<LogsMetadata>, metadataType: string): Option<string> {
    if entries == [] then None
    else if entries[0].metadataType == metadataType then Some(entries[0].metadataValue)
    else Lookup(entries[1..], metadataType)
  }

  lemma {:induction false} LookupAbsent(entries: seq<LogsMetadata>, metadataType: string)
    requires forall i :: 0 <= i < |entries| ==> entries[i].metadataType != metadataType
    ensures Lookup(entries, metadataType) == None
    decreases |entries|
  {
    if entries != [] {
      LookupAbsent(entries[1..], metadataType);
    }
  }

  /**
   * The rows the rules of the table from position `from` on give a log, in
   * table order: one per rule whose pattern matches the group's chunk.
   */
  function MetadataFrom(search: Searcher, ids: Ids, log: AppLog, g: TraceGroup, from: nat): (entries: seq<LogsMetadata>)
    requires from <= |RegexTuples|
    ensures |entries| <= |RegexTuples| - from
    ensures forall i :: 0 <= i < |entries| ==>
      && entries[i].logId == log.uuid
      && from <= RuleIndex(entries[i].metadataType) < |RegexTuples|
      && entries[i].uuid == ids.forMetadata(log.uuid, RuleIndex(entries[i].metadataType))
    ensures forall i, j :: 0 <= i < j < |entries| ==>
      RuleIndex(entries[i].metadataType) < RuleIndex(entries[j].metadataType)
    decreases |RegexTuples| - from
  {
    if from == |RegexTuples| then []
    else
      var rest := MetadataFrom(search, ids, log, g, from + 1);
      RuleIndexOfName(from);
      var here := ExtractMetadataByRegex(search, ids.forMetadata(log.uuid, from), log, g, RegexTuples[from]);
      if here.Some? then [here.value] + rest else rest
  }

  /** Each rule of the table contributes the row of its own match, and a rule that does not match contributes none. */
  lemma {:induction false} MetadataFromLookup(search: Searcher, ids: Ids, log: AppLog, g: TraceGroup, from: nat)
    requires from <= |RegexTuples|
    ensures forall k :: from <= k < |RegexTuples| ==>
      Lookup(MetadataFrom(search, ids, log, g, from), RegexTuples[k].logName) == Find(search, RegexTuples[k].regex, g.chunk)
    decreases |RegexTuples| - from
  {
    if from < |RegexTuples| {
      var entries := MetadataFrom(search, ids, log, g, from);
      var rest := MetadataFrom(search, ids, log, g, from + 1);
      MetadataFromLookup(search, ids, log, g, from + 1);
      RuleIndexOfName(from);
      forall k | from <= k < |RegexTuples|
        ensures Lookup(entries, RegexTuples[k].logName) == Find(search, RegexTuples[k].regex, g.chunk)
      {
        RuleIndexOfName(k);
        if k == from {
          LookupAbsent(rest, RegexTuples[k].logName);
        }
      }
    }
  }

  /** A log record about to be saved, with the metadata rows found for it. */
  datatype Candidate = Candidate(log: AppLog, metadata: seq<LogsMetadata>)

  /** The severity stored when the first line carries no level token. */
  const NoSeverity: string := ""

  /** The record a group of a source becomes, and its metadata from every rule of the table. */
  function CandidateFor(search: Searcher, ids: Ids, source: LogsDataSource, g: TraceGroup, index: nat): (c: Candidate)
    requires g.timestamp.Valid()
    ensures c.log.timestamp == g.timestamp && c.log.message == g.chunk
    ensures c.log.applicationId == source.applicationId && c.log.logSource == source.uuid
    ensures c.log.severity == ExtractLogLevel(g).GetOr(NoSeverity)
    ensures forall i :: 0 <= i < |c.metadata| ==> c.metadata[i].logId == c.log.uuid
  {
    var log := AppLog(ids.forLog(source.uuid, index), g.timestamp, ExtractLogLevel(g).GetOr(NoSeverity),
                      source.applicationId, source.uuid, g.chunk);
    Candidate(log, MetadataFrom(search, ids, log, g, 0))
  }

  /** `composeLogsAndMetadata`: one candidate per group, in group order. */
  function ComposeLogsAndMetadata(search: Searcher, ids: Ids, source: LogsDataSource, groups: seq<TraceGroup>): (candidates: seq<Candidate>)
    requires forall i :: 0 <= i < |groups| ==> groups[i].timestamp.Valid()
    ensures |candidates| == |groups|
    ensures forall i :: 0 <= i < |groups| ==> candidates[i] == CandidateFor(search, ids, source, groups[i], i)
  {
    seq(|groups|, i requires 0 <= i < |groups| => CandidateFor(search, ids, source, groups[i], i))
  }
}
