/**
 * One ingestion pass over the local data sources: each source's file is
 * read, grouped and turned into candidates, and every candidate whose
 * (second, application, source) key is not yet stored is saved with its
 * metadata. The store is the pair of record tables, in insertion order.
 */
module IngestionPass {

  import opened Wrappers
  import opened Temporal
  import opened DateTimeUtils
  import opened DateTimeProperties
  import opened Constants
  import opened Entities
  import opened Ingestion

  // ---------------------------------------------------------------------
  // The store and the duplicate check
  // ---------------------------------------------------------------------

  /** The `app_logs` and `logs_metadata` tables, rows in insertion order. */
  datatype Store = Store(logs: seq<AppLog>, metadata: seq<LogsMetadata>)

  /** What the duplicate check compares: the timestamp column's text, the application and the source. */
  datatype DedupKey = DedupKey(timestamp: string, applicationId: string, logSource: string)

  /** The key a log is stored under: its timestamp is written to whole seconds. */
  function KeyOf(log: AppLog): DedupKey {
    DedupKey(LocalDateTimeToUTCTime(log.timestamp), log.applicationId, log.logSource)
  }

  /** `existsByTimestampApplicationAndSource`: some stored log has the key. */
  predicate Exists(store: Store, key: DedupKey) {
    exists i :: 0 <= i < |store.logs| && KeyOf(store.logs[i]) == key
  }

  /** No two stored logs share a key. */
  predicate UniqueKeys(store: Store) {
    forall i, j :: 0 <= i < j < |store.logs| ==> KeyOf(store.logs[i]) != KeyOf(store.logs[j])
  }

  /** Every metadata row refers to a stored log. */
  predicate Attached(store: Store) {
    forall i :: 0 <= i < |store.metadata| ==> exists j :: 0 <= j < |store.logs| && store.logs[j].uuid == store.metadata[i].logId
  }

  /** `store` is `before` with rows appended and none changed. */
  predicate Extends(store: Store, before: Store) {
    before.logs <= store.logs && before.metadata <= store.metadata
  }

  /** A key found in a store is still found once rows are appended. */
  lemma ExistsKept(before: Store, store: Store, key: DedupKey)
    requires Extends(store, before) && Exists(before, key)
    ensures Exists(store, key)
  {
    var i :| 0 <= i < |before.logs| && KeyOf(before.logs[i]) == key;
    assert store.logs[i] == before.logs[i];
  }

  /** Two logs share a key exactly when they are of the same second, application and source. */
  lemma SameKeyIffSameSecond(a: AppLog, b: AppLog)
    requires a.timestamp.Valid() && b.timestamp.Valid()
    requires 1 <= a.timestamp.date.year <= 9999 && 1 <= b.timestamp.date.year <= 9999
    ensures KeyOf(a) == KeyOf(b) <==>
      && TruncateToSeconds(a.timestamp) == TruncateToSeconds(b.timestamp)
      && a.applicationId == b.applicationId && a.logSource == b.logSource
  {
    SameUtcTextIffSameSecond(a.timestamp, b.timestamp);
  }

  // ---------------------------------------------------------------------
  // saveNewLogs
  // ---------------------------------------------------------------------

  /**
   * The row a log is stored as: the timestamp column holds the UTC text,
   * which has no fraction of a second, so the row keeps the log's every
   * field but the sub-second part of its timestamp, and its key.
   */
  function StoredRow(log: AppLog): (row: AppLog)
    ensures row.(timestamp := log.timestamp) == log
    ensures row.timestamp.date == log.timestamp.date && row.timestamp.time.nano == 0
    ensures row.timestamp.time.hour == log.timestamp.time.hour
    ensures row.timestamp.time.minute == log.timestamp.time.minute
    ensures row.timestamp.time.second == log.timestamp.time.second
  {
    UtcTextIgnoresSubSeconds(log.timestamp);
    log.(timestamp := TruncateToSeconds(log.timestamp))
  }

  /** A log's row is stored under the log's own key: the UTC text drops the sub-second part anyway. */
  lemma StoredRowKey(log: AppLog)
    ensures KeyOf(StoredRow(log)) == KeyOf(log)
  {
    UtcTextIgnoresSubSeconds(log.timestamp);
  }

  /** Reading a stored row's timestamp column back (years 1 to 9999) gives exactly the row's timestamp. */
  lemma StoredRowReadsBack(log: AppLog)
    requires 1 <= log.timestamp.date.year <= 9999
    ensures ConvertZonedUTCTimeStringToLocalDateTime(LocalDateTimeToUTCTime(log.timestamp)) == Some(StoredRow(log).timestamp)
    ensures ConvertZonedUTCTimeStringToLocalDateTime(LocalDateTimeToUTCTime(StoredRow(log).timestamp)) == Some(StoredRow(log).timestamp)
  {
    UtcRoundTrip(log.timestamp);
  }

  /** `saveNewLogs`: the log's row first, then each of its metadata rows. */
  function SaveNewLogs(store: Store, c: Candidate): (r: Store)
    ensures Extends(r, store)
    ensures |r.logs| == |store.logs| + 1 && r.logs[|store.logs|] == StoredRow(c.log)
    ensures r.logs[|store.logs|].uuid == c.log.uuid
    ensures r.metadata[|store.metadata|..] == c.metadata
  {
    Store(store.logs + [StoredRow(c.log)], store.metadata + c.metadata)
  }

  /** Saving a log with rows that refer to it leaves no row without its log. */
  lemma SaveKeepsAttached(store: Store, c: Candidate)
    requires Attached(store)
    requires forall i :: 0 <= i < |c.metadata| ==> c.metadata[i].logId == c.log.uuid
    ensures Attached(SaveNewLogs(store, c))
  {
    var r := SaveNewLogs(store, c);
    forall i | 0 <= i < |r.metadata|
      ensures exists j :: 0 <= j < |r.logs| && r.logs[j].uuid == r.metadata[i].logId
    {
      if i < |store.metadata| {
        assert r.metadata[i] == store.metadata[i];
        var j :| 0 <= j < |store.logs| && store.logs[j].uuid == store.metadata[i].logId;
        assert r.logs[j] == store.logs[j];
      } else {
        assert r.metadata[i] == c.metadata[i - |store.metadata|];
        assert r.logs[|store.logs|].uuid == c.log.uuid;
      }
    }
  }

  /** Saving a log whose key is not stored keeps every key unique. */
  lemma SaveKeepsUniqueKeys(store: Store, c: Candidate)
    requires UniqueKeys(store) && !Exists(store, KeyOf(c.log))
    ensures UniqueKeys(SaveNewLogs(store, c))
  {
    var r := SaveNewLogs(store, c);
    StoredRowKey(c.log);
    forall i, j | 0 <= i < j < |r.logs| ensures KeyOf(r.logs[i]) != KeyOf(r.logs[j]) {
      assert r.logs[i] == store.logs[i];
      if j < |store.logs| {
        assert r.logs[j] == store.logs[j];
      }
    }
  }

  // ---------------------------------------------------------------------
  // The duplicate filter over one source's candidates
  // ---------------------------------------------------------------------

  /** The store after saving, and whether anything was saved. */
  datatype Saving = Saving(saved: bool, store: Store)

  /** No candidate before `k` carries `key`. */
  predicate NoneEarlier(candidates: seq<Candidate>, k: nat, key: DedupKey)
    requires k <= |candidates|
  {
    forall j :: 0 <= j < k ==> KeyOf(candidates[j].log) != key
  }

  /**
   * Candidate `k` is one the filter keeps: its key is not stored, and no
   * earlier candidate carries it (such a one was found stored already, or
   * was saved by the same call).
   */
  predicate FreshAt(store: Store, candidates: seq<Candidate>, k: nat)
    requires k < |candidates|
  {
    !Exists(store, KeyOf(candidates[k].log)) && NoneEarlier(candidates, k, KeyOf(candidates[k].log))
  }

  /** The fresh candidates from index `from` on, in order. */
  function FreshFrom(store: Store, candidates: seq<Candidate>, from: nat): seq<Candidate>
    requires from <= |candidates|
    decreases |candidates| - from
  {
    if from == |candidates| then []
    else (if FreshAt(store, candidates, from) then [candidates[from]] else []) + FreshFrom(store, candidates, from + 1)
  }

  /** The candidates a filter over `store` saves, in order. */
  function Fresh(store: Store, candidates: seq<Candidate>): seq<Candidate> {
    FreshFrom(store, candidates, 0)
  }

  /** The rows the candidates' logs are stored as, in order. */
  function CandidateLogs(candidates: seq<Candidate>): seq<AppLog> {
    if candidates == [] then [] else [StoredRow(candidates[0].log)] + CandidateLogs(candidates[1..])
  }

  function CandidateMetadata(candidates: seq<Candidate>): seq<LogsMetadata> {
    if candidates == [] then [] else candidates[0].metadata + CandidateMetadata(candidates[1..])
  }

  /** `store` with the rows of `saved`'s logs appended in order, and their metadata rows appended in order. */
  function WithSaved(store: Store, saved: seq<Candidate>): Store {
    Store(store.logs + CandidateLogs(saved), store.metadata + CandidateMetadata(saved))
  }

  /** Saving a candidate and then some others is saving them all at once. */
  lemma WithSavedCons(store: Store, c: Candidate, saved: seq<Candidate>)
    ensures WithSaved(store, [c] + saved) == WithSaved(SaveNewLogs(store, c), saved)
  {
    var cs := [c] + saved;
    var next := SaveNewLogs(store, c);
    assert cs[0] == c && cs[1..] == saved;
    assert store.logs + CandidateLogs(cs) == next.logs + CandidateLogs(saved) by {
      assert CandidateLogs(cs) == [StoredRow(c.log)] + CandidateLogs(saved);
    }
    assert store.metadata + CandidateMetadata(cs) == next.metadata + CandidateMetadata(saved) by {
      assert CandidateMetadata(cs) == c.metadata + CandidateMetadata(saved);
    }
  }

  /** The rows of candidates' logs all hold whole seconds, one row per candidate. */
  lemma {:induction false} CandidateLogsWholeSeconds(candidates: seq<Candidate>)
    ensures |CandidateLogs(candidates)| == |candidates|
    ensures WholeSeconds(CandidateLogs(candidates))
    decreases |candidates|
  {
    if candidates != [] {
      CandidateLogsWholeSeconds(candidates[1..]);
      var rows := CandidateLogs(candidates);
      assert rows == [StoredRow(candidates[0].log)] + CandidateLogs(candidates[1..]);
      forall i | 0 <= i < |rows| ensures rows[i].timestamp.time.nano == 0 {
        if i > 0 {
          assert rows[i] == CandidateLogs(candidates[1..])[i - 1];
        }
      }
    }
  }

  /** Appending saved candidates to a store of whole-second rows keeps every row a whole second. */
  lemma WithSavedWholeSeconds(store: Store, saved: seq<Candidate>)
    requires WholeSeconds(store.logs)
    ensures WholeSeconds(WithSaved(store, saved).logs)
  {
    CandidateLogsWholeSeconds(saved);
    var logs := WithSaved(store, saved).logs;
    forall i | 0 <= i < |logs| ensures logs[i].timestamp.time.nano == 0 {
      if i >= |store.logs| {
        assert logs[i] == CandidateLogs(saved)[i - |store.logs|];
      }
    }
  }

  /** The store once one candidate has been looked at: saved when its key is new, discarded otherwise. */
  function Step(store: Store, c: Candidate): Store {
    if Exists(store, KeyOf(c.log)) then store else SaveNewLogs(store, c)
  }

  /** After saving a candidate, exactly the keys stored before and its own key are found. */
  lemma ExistsAfterSave(store: Store, c: Candidate, key: DedupKey)
    ensures Exists(SaveNewLogs(store, c), key) <==> Exists(store, key) || key == KeyOf(c.log)
  {
    var r := SaveNewLogs(store, c);
    if Exists(store, key) {
      ExistsKept(store, r, key);
    }
    if key == KeyOf(c.log) {
      StoredRowKey(c.log);
    }
    if Exists(r, key) {
      var i :| 0 <= i < |r.logs| && KeyOf(r.logs[i]) == key;
      if i < |store.logs| {
        assert r.logs[i] == store.logs[i];
      }
    }
  }

  lemma NoneEarlierShift(c: Candidate, rest: seq<Candidate>, k: nat, key: DedupKey)
    requires k <= |rest|
    ensures NoneEarlier([c] + rest, k + 1, key) <==> KeyOf(c.log) != key && NoneEarlier(rest, k, key)
  {
    var cs := [c] + rest;
    assert cs[0] == c;
    if NoneEarlier(cs, k + 1, key) {
      forall j | 0 <= j < k ensures KeyOf(rest[j].log) != key {
        assert cs[j + 1] == rest[j];
      }
    }
    if KeyOf(c.log) != key && NoneEarlier(rest, k, key) {
      forall j | 0 <= j < k + 1 ensures KeyOf(cs[j].log) != key {
        if j > 0 {
          assert cs[j] == rest[j - 1];
        }
      }
    }
  }

  /** Whether candidate `k + 1` is fresh is whether it is fresh among the rest once the first has been looked at. */
  lemma FreshAtShift(store: Store, c: Candidate, rest: seq<Candidate>, k: nat)
    requires k < |rest|
    ensures FreshAt(store, [c] + rest, k + 1) <==> FreshAt(Step(store, c), rest, k)
  {
    var cs := [c] + rest;
    var key := KeyOf(rest[k].log);
    assert cs[k + 1] == rest[k];
    NoneEarlierShift(c, rest, k, key);
    assert FreshAt(store, cs, k + 1) <==> !Exists(store, key) && NoneEarlier(cs, k + 1, key);
    assert FreshAt(Step(store, c), rest, k) <==> !Exists(Step(store, c), key) && NoneEarlier(rest, k, key);
    if !Exists(store, KeyOf(c.log)) {
      ExistsAfterSave(store, c, key);
    }
  }

  lemma {:induction false} FreshFromShift(store: Store, c: Candidate, rest: seq<Candidate>, k: nat)
    requires k <= |rest|
    ensures FreshFrom(store, [c] + rest, k + 1) == FreshFrom(Step(store, c), rest, k)
    decreases |rest| - k
  {
    var cs := [c] + rest;
    var next := Step(store, c);
    if k < |rest| {
      assert cs[k + 1] == rest[k];
      var here := FreshAt(store, cs, k + 1);
      FreshAtShift(store, c, rest, k);
      assert here == FreshAt(next, rest, k);
      FreshFromShift(store, c, rest, k + 1);
      assert FreshFrom(store, cs, k + 1) == (if here then [rest[k]] else []) + FreshFrom(store, cs, k + 2);
      assert FreshFrom(next, rest, k) == (if here then [rest[k]] else []) + FreshFrom(next, rest, k + 1);
    } else {
      assert FreshFrom(store, cs, k + 1) == [];
      assert FreshFrom(next, rest, k) == [];
    }
  }

  /** The fresh candidates are the first one when its key is new, then the fresh ones of the rest. */
  lemma FreshCons(store: Store, candidates: seq<Candidate>)
    requires candidates != []
    ensures Fresh(store, candidates)
         == (if Exists(store, KeyOf(candidates[0].log)) then [] else [candidates[0]])
            + Fresh(Step(store, candidates[0]), candidates[1..])
  {
    var c := candidates[0];
    assert candidates == [c] + candidates[1..];
    var first := FreshAt(store, candidates, 0);
    assert first <==> !Exists(store, KeyOf(c.log));
    assert Fresh(store, candidates) == (if first then [c] else []) + FreshFrom(store, candidates, 1);
    FreshFromShift(store, c, candidates[1..], 0);
    assert FreshFrom(store, candidates, 1) == Fresh(Step(store, c), candidates[1..]);
  }

  /**
   * Each candidate in turn: discarded when its key is stored (saves earlier
   * in the pass included), saved otherwise. The store grows by exactly the
   * fresh candidates' logs and their metadata rows, in order.
   */
  function SaveAll(store: Store, candidates: seq<Candidate>): (r: Saving)
    ensures Extends(r.store, store)
    ensures r.saved <==> |r.store.logs| > |store.logs|
    ensures r.store == WithSaved(store, Fresh(store, candidates))
    ensures r.saved <==> Fresh(store, candidates) != []
    decreases |candidates|
  {
    if candidates == [] then Saving(false, store)
    else
      var c := candidates[0];
      var rest := candidates[1..];
      FreshCons(store, candidates);
      if Exists(store, KeyOf(c.log)) then
        assert Fresh(store, candidates) == Fresh(store, rest);
        SaveAll(store, rest)
      else
        var next := SaveNewLogs(store, c);
        assert Fresh(store, candidates) == [c] + Fresh(next, rest);
        WithSavedCons(store, c, Fresh(next, rest));
        var r := SaveAll(next, rest);
        Saving(true, r.store)
  }

  /** Saving two runs of candidates one after the other is saving their concatenation. */
  lemma {:induction false} SaveAllConcat(store: Store, a: seq<Candidate>, b: seq<Candidate>)
    ensures var first := SaveAll(store, a);
      var second := SaveAll(first.store, b);
      SaveAll(store, a + b) == Saving(first.saved || second.saved, second.store)
    decreases |a|
  {
    if a == [] {
      assert a + b == b;
    } else {
      assert (a + b)[0] == a[0];
      assert (a + b)[1..] == a[1..] + b;
      SaveAllConcat(Step(store, a[0]), a[1..], b);
    }
  }

  /** After saving, every candidate's key is stored: saved now or found already. */
  lemma {:induction false} SaveAllCovers(store: Store, candidates: seq<Candidate>)
    ensures forall k :: 0 <= k < |candidates| ==> Exists(SaveAll(store, candidates).store, KeyOf(candidates[k].log))
    decreases |candidates|
  {
    if candidates != [] {
      var c := candidates[0];
      var next := if Exists(store, KeyOf(c.log)) then store else SaveNewLogs(store, c);
      assert SaveAll(store, candidates).store == SaveAll(next, candidates[1..]).store;
      SaveAllCovers(next, candidates[1..]);
      assert Exists(next, KeyOf(c.log)) by {
        if !Exists(store, KeyOf(c.log)) {
          StoredRowKey(c.log);
        }
      }
      ExistsKept(next, SaveAll(next, candidates[1..]).store, KeyOf(c.log));
      forall k | 1 <= k < |candidates|
        ensures Exists(SaveAll(store, candidates).store, KeyOf(candidates[k].log))
      {
        assert candidates[k] == candidates[1..][k - 1];
      }
    }
  }

  /** When every candidate's key is stored already, nothing is saved and the store is unchanged. */
  lemma {:induction false} SaveAllNothingNew(store: Store, candidates: seq<Candidate>)
    requires forall k :: 0 <= k < |candidates| ==> Exists(store, KeyOf(candidates[k].log))
    ensures SaveAll(store, candidates) == Saving(false, store)
    decreases |candidates|
  {
    if candidates != [] {
      assert forall k :: 1 <= k < |candidates| ==> candidates[k] == candidates[1..][k - 1];
      SaveAllNothingNew(store, candidates[1..]);
    }
  }

  /** Saving keeps stored keys unique and keeps every metadata row attached to its log. */
  lemma {:induction false} SaveAllKeepsInvariants(store: Store, candidates: seq<Candidate>)
    requires UniqueKeys(store) && Attached(store)
    requires forall k, i :: 0 <= k < |candidates| && 0 <= i < |candidates[k].metadata| ==>
      candidates[k].metadata[i].logId == candidates[k].log.uuid
    ensures UniqueKeys(SaveAll(store, candidates).store) && Attached(SaveAll(store, candidates).store)
    decreases |candidates|
  {
    if candidates != [] {
      var c := candidates[0];
      assert forall k :: 1 <= k < |candidates| ==> candidates[k] == candidates[1..][k - 1];
      if Exists(store, KeyOf(c.log)) {
        SaveAllKeepsInvariants(store, candidates[1..]);
      } else {
        SaveKeepsUniqueKeys(store, c);
        SaveKeepsAttached(store, c);
        SaveAllKeepsInvariants(SaveNewLogs(store, c), candidates[1..]);
      }
    }
  }

  // ---------------------------------------------------------------------
  // One source
  // ---------------------------------------------------------------------

  /** The text of every file the pass can read, by path; a path not here cannot be read. */
  type Files = map<string, string>

  /** Why a pass stops: a file that cannot be read, or one that does not start on a timestamped line. */
  datatype PassError = UnreadableFile(path: string) | InvalidTraceGroup(message: string)

  /** A pass either runs through, telling whether it saved anything, or stops at an error, keeping what it saved before. */
  datatype Outcome = Completed(saved: bool, store: Store) | Aborted(error: PassError, store: Store)

  /** A source whose file can be read, and is empty or starts on a timestamped line. */
  predicate Ingestible(files: Files, source: LogsDataSource) {
    && source.logFilePath in files
    && (files[source.logFilePath] == "" || ComposeRawLogsTraceGroup(files[source.logFilePath]).Success?)
  }

  /** The error a source that cannot be ingested stops the pass with. */
  function SourceError(files: Files, source: LogsDataSource): PassError {
    if source.logFilePath !in files then UnreadableFile(source.logFilePath)
    else InvalidTraceGroup(MissingTimestamp)
  }

  /** Every timestamp the parser yields is a valid date-time. */
  lemma AnchoredStampsValid(groups: seq<TraceGroup>)
    requires AllAnchored(FromTomcatLogTimestamp, groups)
    ensures forall i :: 0 <= i < |groups| ==> groups[i].timestamp.Valid()
  {
    forall i | 0 <= i < |groups| ensures groups[i].timestamp.Valid() {
      assert Anchored(FromTomcatLogTimestamp, groups[i]);
    }
  }

  /** Reading, grouping and saving one source's file. */
  function IngestSource(files: Files, search: Searcher, ids: Ids, store: Store, source: LogsDataSource): (r: Outcome)
    ensures Extends(r.store, store)
    ensures r.Aborted? <==> !Ingestible(files, source)
    ensures r.Aborted? ==> r.error == SourceError(files, source) && r.store == store
    ensures r.Completed? ==> (r.saved <==> |r.store.logs| > |store.logs|)
    ensures source.logFilePath in files && files[source.logFilePath] == "" ==> r == Completed(false, store)
    ensures r.Completed? ==> Saving(r.saved, r.store) == SaveAll(store, SourceCandidates(files, search, ids, source))
  {
    if source.logFilePath !in files then Aborted(UnreadableFile(source.logFilePath), store)
    else
      var text := files[source.logFilePath];
      if text == "" then Completed(false, store)
      else
        match ComposeRawLogsTraceGroup(text)
        case Failure(message) => Aborted(InvalidTraceGroup(message), store)
        case Success(groups) =>
          AnchoredStampsValid(groups);
          var r := SaveAll(store, ComposeLogsAndMetadata(search, ids, source, groups));
          Completed(r.saved, r.store)
  }

  /** The candidates a source's file yields: none when it is unreadable, empty or does not start on a timestamped line. */
  function SourceCandidates(files: Files, search: Searcher, ids: Ids, source: LogsDataSource): seq<Candidate> {
    if source.logFilePath !in files || files[source.logFilePath] == "" then []
    else
      var grouped := ComposeRawLogsTraceGroup(files[source.logFilePath]);
      if grouped.Failure? then []
      else
        AnchoredStampsValid(grouped.value);
        ComposeLogsAndMetadata(search, ids, source, grouped.value)
  }

  /** The candidates of every source, source after source. */
  function AllCandidates(files: Files, search: Searcher, ids: Ids, sources: seq<LogsDataSource>): seq<Candidate>
    decreases |sources|
  {
    if sources == [] then []
    else SourceCandidates(files, search, ids, sources[0]) + AllCandidates(files, search, ids, sources[1..])
  }

  /** The key a group of a source is saved under, whatever ids or searcher made its record. */
  function GroupKey(source: LogsDataSource, g: TraceGroup): DedupKey
    requires g.timestamp.Valid()
  {
    DedupKey(LocalDateTimeToUTCTime(g.timestamp), source.applicationId, source.uuid)
  }

  /** Every group of the source's file has its key stored. */
  predicate Covered(files: Files, store: Store, source: LogsDataSource)
    requires Ingestible(files, source)
  {
    var text := files[source.logFilePath];
    text == "" ||
      var groups := ComposeRawLogsTraceGroup(text).value;
      forall i :: 0 <= i < |groups| ==> groups[i].timestamp.Valid() && Exists(store, GroupKey(source, groups[i]))
  }

  lemma CoveredKept(files: Files, before: Store, store: Store, source: LogsDataSource)
    requires Ingestible(files, source) && Covered(files, before, source) && Extends(store, before)
    ensures Covered(files, store, source)
  {
    var text := files[source.logFilePath];
    if text != "" {
      var groups := ComposeRawLogsTraceGroup(text).value;
      forall i | 0 <= i < |groups| ensures Exists(store, GroupKey(source, groups[i])) {
        ExistsKept(before, store, GroupKey(source, groups[i]));
      }
    }
  }

  /** The candidates of a source carry its groups' keys. */
  lemma CandidateKeys(search: Searcher, ids: Ids, source: LogsDataSource, groups: seq<TraceGroup>)
    requires forall i :: 0 <= i < |groups| ==> groups[i].timestamp.Valid()
    ensures var candidates := ComposeLogsAndMetadata(search, ids, source, groups);
      forall i :: 0 <= i < |groups| ==> KeyOf(candidates[i].log) == GroupKey(source, groups[i])
  {
  }

  /** Once a source is ingested, every group of its file has its key stored. */
  lemma IngestCovers(files: Files, search: Searcher, ids: Ids, store: Store, source: LogsDataSource)
    requires IngestSource(files, search, ids, store, source).Completed?
    ensures Covered(files, IngestSource(files, search, ids, store, source).store, source)
  {
    var text := files[source.logFilePath];
    if text != "" {
      var groups := ComposeRawLogsTraceGroup(text).value;
      AnchoredStampsValid(groups);
      var candidates := ComposeLogsAndMetadata(search, ids, source, groups);
      CandidateKeys(search, ids, source, groups);
      SaveAllCovers(store, candidates);
    }
  }

  /** A source whose groups are all stored already saves nothing, whatever ids and searcher are used. */
  lemma CoveredIngestIsNoop(files: Files, search: Searcher, ids: Ids, store: Store, source: LogsDataSource)
    requires Ingestible(files, source) && Covered(files, store, source)
    ensures IngestSource(files, search, ids, store, source) == Completed(false, store)
  {
    var text := files[source.logFilePath];
    if text != "" {
      var groups := ComposeRawLogsTraceGroup(text).value;
      AnchoredStampsValid(groups);
      var candidates := ComposeLogsAndMetadata(search, ids, source, groups);
      CandidateKeys(search, ids, source, groups);
      SaveAllNothingNew(store, candidates);
    }
  }

  /** A group whose first line names a level gets at least the severity row. */
  lemma LevelGivesMetadata(search: Searcher, ids: Ids, source: LogsDataSource, g: TraceGroup, index: nat)
    requires g.timestamp.Valid() && ExtractLogLevel(g).Some?
    ensures CandidateFor(search, ids, source, g, index).metadata != []
  {
    var log := CandidateFor(search, ids, source, g, index).log;
    var entries := MetadataFrom(search, ids, log, g, 0);
    assert CandidateFor(search, ids, source, g, index).metadata == entries;
    SeverityRuleAgrees(search, ids, log, g);
    assert Lookup(entries, "logSeverityLevel").Some?;
  }

  /** The severity rule's row holds what `extractLogLevel` reads, when it reads anything. */
  lemma SeverityRuleAgrees(search: Searcher, ids: Ids, log: AppLog, g: TraceGroup)
    requires ExtractLogLevel(g).Some?
    ensures Lookup(MetadataFrom(search, ids, log, g, 0), "logSeverityLevel") == ExtractLogLevel(g)
  {
    SeverityRule(search, g.chunk);
    MetadataFromLookup(search, ids, log, g, 0);
    assert Lookup(MetadataFrom(search, ids, log, g, 0), RegexTuples[9].logName) == Find(search, RegexTuples[9].regex, g.chunk);
    LevelAgreesWithSeverityMetadata(search, g);
  }

  /**
   * A source none of whose logs is stored yet saves its first record, and
   * that record's metadata rows with it.
   */
  lemma FreshSourceSaves(files: Files, search: Searcher, ids: Ids, store: Store, source: LogsDataSource)
    requires source.logFilePath in files
    requires ComposeRawLogsTraceGroup(files[source.logFilePath]).Success?
    requires ComposeRawLogsTraceGroup(files[source.logFilePath]).value != []
    requires forall i :: 0 <= i < |store.logs| ==> store.logs[i].logSource != source.uuid
    ensures var r := IngestSource(files, search, ids, store, source);
      && r.Completed? && r.saved
      && (ExtractLogLevel(ComposeRawLogsTraceGroup(files[source.logFilePath]).value[0]).Some? ==>
            |r.store.metadata| > |store.metadata|)
  {
    var text := files[source.logFilePath];
    assert text != "" by {
      assert AllNewlines("");
    }
    var groups := ComposeRawLogsTraceGroup(text).value;
    AnchoredStampsValid(groups);
    var candidates := ComposeLogsAndMetadata(search, ids, source, groups);
    var c := candidates[0];
    assert !Exists(store, KeyOf(c.log));
    var next := SaveNewLogs(store, c);
    assert SaveAll(store, candidates).store == SaveAll(next, candidates[1..]).store;
    if ExtractLogLevel(groups[0]).Some? {
      LevelGivesMetadata(search, ids, source, groups[0], 0);
      assert |next.metadata| > |store.metadata|;
    }
  }

  // ---------------------------------------------------------------------
  // processLocalLogs
  // ---------------------------------------------------------------------

  /** The sources one after the other; the first error ends the pass. */
  function ProcessFrom(files: Files, search: Searcher, ids: Ids, store: Store, sources: seq<LogsDataSource>): (r: Outcome)
    ensures Extends(r.store, store)
    ensures r.Completed? ==> (r.saved <==> |r.store.logs| > |store.logs|)
    ensures r.Completed? ==> Saving(r.saved, r.store) == SaveAll(store, AllCandidates(files, search, ids, sources))
    ensures r.Completed? ==> r.store == WithSaved(store, Fresh(store, AllCandidates(files, search, ids, sources)))
    decreases |sources|
  {
    if sources == [] then Completed(false, store)
    else
      match IngestSource(files, search, ids, store, sources[0])
      case Aborted(error, st) => Aborted(error, st)
      case Completed(saved, st) =>
        SaveAllConcat(store, SourceCandidates(files, search, ids, sources[0]), AllCandidates(files, search, ids, sources[1..]));
        match ProcessFrom(files, search, ids, st, sources[1..])
        case Aborted(error, st2) => Aborted(error, st2)
        case Completed(more, st2) => Completed(saved || more, st2)
  }

  /** Every source can be ingested. */
  predicate AllIngestible(files: Files, sources: seq<LogsDataSource>) {
    forall k :: 0 <= k < |sources| ==> Ingestible(files, sources[k])
  }

  /** Every source can be ingested and has all its groups' keys stored. */
  predicate AllCovered(files: Files, store: Store, sources: seq<LogsDataSource>) {
    forall k :: 0 <= k < |sources| ==> Ingestible(files, sources[k]) && Covered(files, store, sources[k])
  }

  lemma AllIngestibleCons(files: Files, sources: seq<LogsDataSource>)
    requires sources != []
    ensures AllIngestible(files, sources) <==> Ingestible(files, sources[0]) && AllIngestible(files, sources[1..])
  {
    var rest := sources[1..];
    if AllIngestible(files, sources) {
      forall k | 0 <= k < |rest| ensures Ingestible(files, rest[k]) {
        assert rest[k] == sources[k + 1];
      }
    }
    if Ingestible(files, sources[0]) && AllIngestible(files, rest) {
      forall k | 0 <= k < |sources| ensures Ingestible(files, sources[k]) {
        if k > 0 {
          assert sources[k] == rest[k - 1];
        }
      }
    }
  }

  lemma AllCoveredCons(files: Files, store: Store, sources: seq<LogsDataSource>)
    requires sources != []
    ensures AllCovered(files, store, sources) <==>
      Ingestible(files, sources[0]) && Covered(files, store, sources[0]) && AllCovered(files, store, sources[1..])
  {
    var rest := sources[1..];
    if AllCovered(files, store, sources) {
      forall k | 0 <= k < |rest| ensures Ingestible(files, rest[k]) && Covered(files, store, rest[k]) {
        assert rest[k] == sources[k + 1];
      }
    }
    if Ingestible(files, sources[0]) && Covered(files, store, sources[0]) && AllCovered(files, store, rest) {
      forall k | 0 <= k < |sources| ensures Ingestible(files, sources[k]) && Covered(files, store, sources[k]) {
        if k > 0 {
          assert sources[k] == rest[k - 1];
        }
      }
    }
  }

  /** A pass runs through exactly when every source can be ingested. */
  lemma {:induction false} ProcessCompletesIff(files: Files, search: Searcher, ids: Ids, store: Store, sources: seq<LogsDataSource>)
    ensures ProcessFrom(files, search, ids, store, sources).Completed? <==> AllIngestible(files, sources)
    decreases |sources|
  {
    if sources != [] {
      var first := IngestSource(files, search, ids, store, sources[0]);
      AllIngestibleCons(files, sources);
      if first.Completed? {
        ProcessCompletesIff(files, search, ids, first.store, sources[1..]);
      }
    }
  }

  /** A pass stops with the error of the first source that cannot be ingested. */
  lemma {:induction false} ProcessStopsAtFirstError(files: Files, search: Searcher, ids: Ids, store: Store, sources: seq<LogsDataSource>, bad: nat)
    requires bad < |sources| && !Ingestible(files, sources[bad])
    requires AllIngestible(files, sources[..bad])
    ensures ProcessFrom(files, search, ids, store, sources).Aborted?
    ensures ProcessFrom(files, search, ids, store, sources).error == SourceError(files, sources[bad])
    decreases bad
  {
    if bad > 0 {
      var first := IngestSource(files, search, ids, store, sources[0]);
      assert sources[..bad][0] == sources[0];
      assert sources[1..][..bad - 1] == sources[..bad][1..];
      AllIngestibleCons(files, sources[..bad]);
      ProcessStopsAtFirstError(files, search, ids, first.store, sources[1..], bad - 1);
    }
  }

  /** A pass that runs through ran through its first source, then through the rest. */
  lemma ProcessUnfold(files: Files, search: Searcher, ids: Ids, store: Store, sources: seq<LogsDataSource>)
    requires sources != [] && ProcessFrom(files, search, ids, store, sources).Completed?
    ensures var first := IngestSource(files, search, ids, store, sources[0]);
      && first.Completed?
      && ProcessFrom(files, search, ids, first.store, sources[1..]).Completed?
      && ProcessFrom(files, search, ids, store, sources).store == ProcessFrom(files, search, ids, first.store, sources[1..]).store
  {
  }

  /** After a pass that runs through, every group of every source has its key stored. */
  lemma {:induction false} ProcessCovers(files: Files, search: Searcher, ids: Ids, store: Store, sources: seq<LogsDataSource>)
    requires ProcessFrom(files, search, ids, store, sources).Completed?
    ensures AllCovered(files, ProcessFrom(files, search, ids, store, sources).store, sources)
    decreases |sources|
  {
    if sources != [] {
      var final := ProcessFrom(files, search, ids, store, sources).store;
      var first := IngestSource(files, search, ids, store, sources[0]);
      ProcessUnfold(files, search, ids, store, sources);
      IngestCovers(files, search, ids, store, sources[0]);
      CoveredKept(files, first.store, final, sources[0]);
      ProcessCovers(files, search, ids, first.store, sources[1..]);
      AllCoveredCons(files, final, sources);
    }
  }

  /** A pass over sources whose groups are all stored already saves nothing. */
  lemma {:induction false} CoveredProcessIsNoop(files: Files, search: Searcher, ids: Ids, store: Store, sources: seq<LogsDataSource>)
    requires AllCovered(files, store, sources)
    ensures ProcessFrom(files, search, ids, store, sources) == Completed(false, store)
    decreases |sources|
  {
    if sources != [] {
      AllCoveredCons(files, store, sources);
      CoveredIngestIsNoop(files, search, ids, store, sources[0]);
      CoveredProcessIsNoop(files, search, ids, store, sources[1..]);
    }
  }

  /** Passes keep stored keys unique and every metadata row attached to a stored log. */
  lemma {:induction false} ProcessKeepsInvariants(files: Files, search: Searcher, ids: Ids, store: Store, sources: seq<LogsDataSource>)
    requires UniqueKeys(store) && Attached(store)
    ensures UniqueKeys(ProcessFrom(files, search, ids, store, sources).store)
    ensures Attached(ProcessFrom(files, search, ids, store, sources).store)
    decreases |sources|
  {
    if sources != [] {
      var source := sources[0];
      var first := IngestSource(files, search, ids, store, source);
      if first.Completed? {
        if source.logFilePath in files && files[source.logFilePath] != "" {
          var groups := ComposeRawLogsTraceGroup(files[source.logFilePath]).value;
          AnchoredStampsValid(groups);
          SaveAllKeepsInvariants(store, ComposeLogsAndMetadata(search, ids, source, groups));
        }
        ProcessKeepsInvariants(files, search, ids, first.store, sources[1..]);
      }
    }
  }

  /** The sources of kind "local", in their order: `findBySourceType("local")`. */
  function LocalSources(sources: seq<LogsDataSource>): (local: seq<LogsDataSource>)
    ensures |local| <= |sources|
    ensures forall k :: 0 <= k < |local| ==> local[k].sourceType == "local" && local[k] in sources
    ensures forall k :: 0 <= k < |sources| && sources[k].sourceType == "local" ==> sources[k] in local
  {
    if sources == [] then []
    else if sources[0].sourceType == "local" then [sources[0]] + LocalSources(sources[1..])
    else LocalSources(sources[1..])
  }

  /** The local sources of two lists in a row are those of the first, then those of the second: the order is kept. */
  lemma {:induction false} LocalSourcesConcat(a: seq<LogsDataSource>, b: seq<LogsDataSource>)
    ensures LocalSources(a + b) == LocalSources(a) + LocalSources(b)
  {
    if a == [] {
      assert a + b == b;
    } else {
      assert (a + b)[0] == a[0];
      assert (a + b)[1..] == a[1..] + b;
      LocalSourcesConcat(a[1..], b);
    }
  }

  /**
   * `processLocalLogs`: one pass over the local sources. True when it saved
   * at least one log; an unreadable file or an invalid first line stops it.
   */
  function ProcessLocalLogs(files: Files, search: Searcher, ids: Ids, store: Store, sources: seq<LogsDataSource>): (r: Outcome)
    ensures Extends(r.store, store)
    ensures r.Completed? ==> (r.saved <==> |r.store.logs| > |store.logs|)
    ensures r.Completed? ==> r.store == WithSaved(store, Fresh(store, AllCandidates(files, search, ids, LocalSources(sources))))
    ensures r.Completed? ==> (r.saved <==> Fresh(store, AllCandidates(files, search, ids, LocalSources(sources))) != [])
  {
    ProcessFrom(files, search, ids, store, LocalSources(sources))
  }

  /** A completed pass over a store of whole-second rows leaves only whole-second rows. */
  lemma PassStoresWholeSeconds(files: Files, search: Searcher, ids: Ids, store: Store, sources: seq<LogsDataSource>)
    requires WholeSeconds(store.logs)
    ensures var r := ProcessLocalLogs(files, search, ids, store, sources);
      r.Completed? ==> WholeSeconds(r.store.logs)
  {
    WithSavedWholeSeconds(store, Fresh(store, AllCandidates(files, search, ids, LocalSources(sources))));
  }

  /**
   * Running the pass again over unchanged files saves nothing and leaves the
   * store as it is, whatever ids and searcher the second pass uses.
   */
  lemma ProcessIdempotent(files: Files, search: Searcher, ids: Ids, store: Store, sources: seq<LogsDataSource>, search2: Searcher, ids2: Ids)
    requires ProcessLocalLogs(files, search, ids, store, sources).Completed?
    ensures var once := ProcessLocalLogs(files, search, ids, store, sources).store;
      ProcessLocalLogs(files, search2, ids2, once, sources) == Completed(false, once)
  {
    var local := LocalSources(sources);
    ProcessCovers(files, search, ids, store, local);
    CoveredProcessIsNoop(files, search2, ids2, ProcessFrom(files, search, ids, store, local).store, local);
  }
}
