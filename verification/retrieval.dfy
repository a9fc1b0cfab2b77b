/**
 * The retrieval service: the read side the web pages call. Each repository
 * is an immutable snapshot of its table, in the order the table returns
 * its rows, and "today" is a parameter instead of a clock read.
 */
module Retrieval {

  import opened Wrappers
  import opened Temporal
  import opened DateTimeUtils
  import opened DateTimeProperties
  import opened Entities

  // ---------------------------------------------------------------------
  // Snapshots of the tables and the resources handed to the pages
  // ---------------------------------------------------------------------

  /** The rows of the four tables the service reads. */
  datatype Tables = Tables(
    logs: seq<AppLog>,
    applications: seq<Application>,
    dataSources: seq<LogsDataSource>,
    metadata: seq<LogsMetadata>)

  datatype ApplicationResource = ApplicationResource(uuid: string, name: string, runtimeEnvironment: string)

  datatype DatasourceResource = DatasourceResource(name: string, uuid: string)

  /** One log as a page shows it; `timestamp` is the text the page prints. */
  datatype LogResource = LogResource(
    timestamp: string,
    severity: string,
    application: ApplicationResource,
    datasource: DatasourceResource,
    logId: string,
    message: string)

  function ApplicationResourceOf(a: Application): ApplicationResource {
    ApplicationResource(a.uuid, a.name, a.runtimeEnvironment)
  }

  function DatasourceResourceOf(d: LogsDataSource): DatasourceResource {
    DatasourceResource(d.name, d.uuid)
  }

  /** The resource for a log of `source`, which belongs to `app`, with `time` as its printed timestamp. */
  function Describe(app: Application, source: LogsDataSource, log: AppLog, time: string): LogResource {
    LogResource(time, log.severity, ApplicationResourceOf(app), DatasourceResourceOf(source), log.uuid, log.message)
  }

  // ---------------------------------------------------------------------
  // Queries on a snapshot
  // ---------------------------------------------------------------------

  /** The rows that `keep` accepts, in table order: a `WHERE` clause or a stream filter. */
  function Filter<T>(xs: seq<T>, keep: T -> bool): (r: seq<T>)
    ensures |r| <= |xs|
    ensures forall i :: 0 <= i < |r| ==> keep(r[i])
  {
    if xs == [] then []
    else if keep(xs[0]) then [xs[0]] + Filter(xs[1..], keep)
    else Filter(xs[1..], keep)
  }

  /** A row is kept exactly when it is in the table and accepted. */
  lemma {:induction false} FilterMember<T>(xs: seq<T>, keep: T -> bool, x: T)
    ensures x in Filter(xs, keep) <==> x in xs && keep(x)
  {
    if xs != [] {
      FilterMember(xs[1..], keep, x);
      assert x in xs <==> x == xs[0] || x in xs[1..];
    }
  }

  lemma {:induction false} FilterConcat<T>(a: seq<T>, b: seq<T>, keep: T -> bool)
    ensures Filter(a + b, keep) == Filter(a, keep) + Filter(b, keep)
  {
    if a == [] {
      assert a + b == b;
    } else {
      assert (a + b)[0] == a[0];
      assert (a + b)[1..] == a[1..] + b;
      FilterConcat(a[1..], b, keep);
    }
  }

  /** `findById`: the row whose key is `key`; the first such row when the key is repeated. */
  function FindFirst<T>(xs: seq<T>, keyOf: T -> string, key: string): (r: Option<T>)
    ensures r.Some? ==> r.value in xs && keyOf(r.value) == key
    ensures r.None? <==> forall i :: 0 <= i < |xs| ==> keyOf(xs[i]) != key
  {
    if xs == [] then None
    else if keyOf(xs[0]) == key then Some(xs[0])
    else FindFirst(xs[1..], keyOf, key)
  }

  /** Keys are unique in a table: then the row found is the one row carrying the key. */
  lemma {:induction false} FindFirstUnique<T>(xs: seq<T>, keyOf: T -> string, k: nat)
    requires k < |xs|
    requires forall i, j :: 0 <= i < j < |xs| ==> keyOf(xs[i]) != keyOf(xs[j])
    ensures FindFirst(xs, keyOf, keyOf(xs[k])) == Some(xs[k])
  {
    if k > 0 {
      assert keyOf(xs[0]) != keyOf(xs[k]);
      assert xs[1..][k - 1] == xs[k];
      FindFirstUnique(xs[1..], keyOf, k - 1);
    }
  }

  function FindApplication(t: Tables, uuid: string): (r: Option<Application>)
    ensures r.Some? ==> r.value in t.applications && r.value.uuid == uuid
    ensures r.None? <==> forall i :: 0 <= i < |t.applications| ==> t.applications[i].uuid != uuid
  {
    FindFirst(t.applications, (a: Application) => a.uuid, uuid)
  }

  function FindDataSource(t: Tables, uuid: string): (r: Option<LogsDataSource>)
    ensures r.Some? ==> r.value in t.dataSources && r.value.uuid == uuid
    ensures r.None? <==> forall i :: 0 <= i < |t.dataSources| ==> t.dataSources[i].uuid != uuid
  {
    FindFirst(t.dataSources, (d: LogsDataSource) => d.uuid, uuid)
  }

  function FindLog(t: Tables, uuid: string): (r: Option<AppLog>)
    ensures r.Some? ==> r.value in t.logs && r.value.uuid == uuid
    ensures r.None? <==> forall i :: 0 <= i < |t.logs| ==> t.logs[i].uuid != uuid
  {
    FindFirst(t.logs, (l: AppLog) => l.uuid, uuid)
  }

  /** `findByApplicationId`: the data sources of an application. */
  function SourcesOf(t: Tables, applicationId: string): (r: seq<LogsDataSource>)
    ensures forall i :: 0 <= i < |r| ==> r[i].applicationId == applicationId
    ensures forall d :: d in r <==> d in t.dataSources && d.applicationId == applicationId
  {
    var keep := (d: LogsDataSource) => d.applicationId == applicationId;
    forall d ensures d in Filter(t.dataSources, keep) <==> d in t.dataSources && keep(d) {
      FilterMember(t.dataSources, keep, d);
    }
    Filter(t.dataSources, keep)
  }

  /** `findByApplicationAndDatasource`: the logs of one application read from one data source. */
  function LogsOf(t: Tables, applicationId: string, sourceId: string): (r: seq<AppLog>)
    ensures forall i :: 0 <= i < |r| ==> r[i].applicationId == applicationId && r[i].logSource == sourceId
    ensures forall l :: l in r <==> l in t.logs && l.applicationId == applicationId && l.logSource == sourceId
  {
    var keep := (l: AppLog) => l.applicationId == applicationId && l.logSource == sourceId;
    forall l ensures l in Filter(t.logs, keep) <==> l in t.logs && keep(l) {
      FilterMember(t.logs, keep, l);
    }
    Filter(t.logs, keep)
  }

  // ---------------------------------------------------------------------
  // listLogs
  // ---------------------------------------------------------------------

  /** The empty severity and "All" both leave the severity unfiltered. */
  predicate AnySeverity(severity: string) {
    severity == "" || severity == "All"
  }

  /** A log dated `date` whose severity passes the filter. */
  predicate Selected(log: AppLog, date: LocalDate, severity: string) {
    IsSameDay(log.timestamp.date, date) && (AnySeverity(severity) || log.severity == severity)
  }

  /** The logs the two stream filters of `listLogs` let through, in order. */
  function SelectLogs(logs: seq<AppLog>, date: LocalDate, severity: string): (r: seq<AppLog>)
    ensures forall i :: 0 <= i < |r| ==> Selected(r[i], date, severity)
    ensures forall l :: l in r <==> l in logs && Selected(l, date, severity)
  {
    var keep := (l: AppLog) => Selected(l, date, severity);
    forall l ensures l in Filter(logs, keep) <==> l in logs && keep(l) {
      FilterMember(logs, keep, l);
    }
    Filter(logs, keep)
  }

  /**
   * Filtering on the date and then, unless it is off, on the severity, as
   * the two stream filters do, selects the same logs in the same order.
   */
  lemma {:induction false} SelectLogsInTwoSteps(logs: seq<AppLog>, date: LocalDate, severity: string)
    ensures var onDate := Filter(logs, (l: AppLog) => IsSameDay(l.timestamp.date, date));
      SelectLogs(logs, date, severity)
      == if AnySeverity(severity) then onDate else Filter(onDate, (l: AppLog) => l.severity == severity)
  {
    if logs != [] {
      SelectLogsInTwoSteps(logs[1..], date, severity);
    }
  }

  /** The resources of some logs of one source, the time of day printed as `HH:mm:ss.SSS`. */
  function TimeResources(app: Application, source: LogsDataSource, logs: seq<AppLog>): (r: seq<LogResource>)
    ensures |r| == |logs|
    ensures forall i :: 0 <= i < |r| ==> r[i] == Describe(app, source, logs[i], LocalTimeString(logs[i].timestamp.time))
  {
    if logs == [] then []
    else [Describe(app, source, logs[0], LocalTimeString(logs[0].timestamp.time))] + TimeResources(app, source, logs[1..])
  }

  /** The selected logs of each source in turn. */
  function ListFromSources(t: Tables, app: Application, sources: seq<LogsDataSource>, date: LocalDate, severity: string): (r: seq<LogResource>)
    decreases |sources|
  {
    if sources == [] then []
    else TimeResources(app, sources[0], SelectLogs(LogsOf(t, app.uuid, sources[0].uuid), date, severity))
         + ListFromSources(t, app, sources[1..], date, severity)
  }

  /**
   * `listLogs`: the logs of an application on a date, source by source,
   * optionally of one severity. An unknown application gives nothing; the
   * data-source argument is accepted and never read.
   */
  function ListLogs(t: Tables, date: LocalDate, severity: string, applicationId: string, datasource: string): (r: seq<LogResource>)
    ensures FindApplication(t, applicationId).None? ==> r == []
  {
    match FindApplication(t, applicationId)
    case None => []
    case Some(app) => ListFromSources(t, app, SourcesOf(t, app.uuid), date, severity)
  }

  /** Every resource carries `severity`. */
  predicate AllOfSeverity(rs: seq<LogResource>, severity: string) {
    forall k :: 0 <= k < |rs| ==> rs[k].severity == severity
  }

  /** Resources made from logs of one severity all carry that severity. */
  lemma TimeResourcesSeverity(app: Application, source: LogsDataSource, logs: seq<AppLog>, severity: string)
    requires forall i :: 0 <= i < |logs| ==> logs[i].severity == severity
    ensures AllOfSeverity(TimeResources(app, source, logs), severity)
  {
  }

  /** Every resource listed from some sources carries the filtered severity. */
  lemma {:induction false} ListFromSourcesSeverity(t: Tables, app: Application, sources: seq<LogsDataSource>, date: LocalDate, severity: string)
    requires !AnySeverity(severity)
    ensures AllOfSeverity(ListFromSources(t, app, sources, date, severity), severity)
    decreases |sources|
  {
    if sources != [] {
      var logs := SelectLogs(LogsOf(t, app.uuid, sources[0].uuid), date, severity);
      TimeResourcesSeverity(app, sources[0], logs, severity);
      ListFromSourcesSeverity(t, app, sources[1..], date, severity);
      var head := TimeResources(app, sources[0], logs);
      var tail := ListFromSources(t, app, sources[1..], date, severity);
      var all: seq<LogResource> := head + tail;
      assert ListFromSources(t, app, sources, date, severity) == all;
      forall k | 0 <= k < |all| ensures all[k].severity == severity {
        if k < |head| {
          assert all[k] == head[k];
        } else {
          assert all[k] == tail[k - |head|];
        }
      }
    }
  }

  /** With a severity filter on, every log listed has exactly that severity. */
  lemma ListLogsSeverity(t: Tables, date: LocalDate, severity: string, applicationId: string, datasource: string)
    requires !AnySeverity(severity)
    ensures AllOfSeverity(ListLogs(t, date, severity, applicationId, datasource), severity)
  {
    match FindApplication(t, applicationId)
    case None =>
    case Some(app) => ListFromSourcesSeverity(t, app, SourcesOf(t, app.uuid), date, severity);
  }

  /** The resource that lists `log` of `source` under `app` on the log page. */
  function Listed(app: Application, source: LogsDataSource, log: AppLog): LogResource {
    Describe(app, source, log, LocalTimeString(log.timestamp.time))
  }

  /** A log of the application, read from one of its sources, that passes the filters. */
  predicate Qualifies(t: Tables, app: Application, source: LogsDataSource, log: AppLog, date: LocalDate, severity: string) {
    && source in t.dataSources && source.applicationId == app.uuid
    && log in t.logs && log.applicationId == app.uuid && log.logSource == source.uuid
    && Selected(log, date, severity)
  }

  lemma {:induction false} ListFromSourcesSound(t: Tables, app: Application, sources: seq<LogsDataSource>, date: LocalDate, severity: string, k: nat)
    returns (source: LogsDataSource, log: AppLog)
    requires forall j :: 0 <= j < |sources| ==> sources[j] in t.dataSources && sources[j].applicationId == app.uuid
    requires k < |ListFromSources(t, app, sources, date, severity)|
    ensures Qualifies(t, app, source, log, date, severity)
    ensures ListFromSources(t, app, sources, date, severity)[k] == Listed(app, source, log)
    decreases |sources|
  {
    var logs := SelectLogs(LogsOf(t, app.uuid, sources[0].uuid), date, severity);
    var head := TimeResources(app, sources[0], logs);
    var tail := ListFromSources(t, app, sources[1..], date, severity);
    assert ListFromSources(t, app, sources, date, severity) == head + tail;
    if k < |head| {
      source, log := sources[0], logs[k];
      FilterMember(LogsOf(t, app.uuid, sources[0].uuid), (l: AppLog) => Selected(l, date, severity), log);
      FilterMember(t.logs, (l: AppLog) => l.applicationId == app.uuid && l.logSource == sources[0].uuid, log);
    } else {
      source, log := ListFromSourcesSound(t, app, sources[1..], date, severity, k - |head|);
    }
  }

  /**
   * Every log `listLogs` returns is a stored log of the application, read
   * from one of the application's data sources, on the date and of the
   * severity asked for.
   */
  lemma ListLogsSound(t: Tables, date: LocalDate, severity: string, applicationId: string, datasource: string, k: nat)
    requires k < |ListLogs(t, date, severity, applicationId, datasource)|
    ensures FindApplication(t, applicationId).Some?
    ensures exists source, log ::
      && Qualifies(t, FindApplication(t, applicationId).value, source, log, date, severity)
      && ListLogs(t, date, severity, applicationId, datasource)[k] == Listed(FindApplication(t, applicationId).value, source, log)
  {
    var app := FindApplication(t, applicationId).value;
    var sources := SourcesOf(t, app.uuid);
    forall j | 0 <= j < |sources| ensures sources[j] in t.dataSources {
      FilterMember(t.dataSources, (d: LogsDataSource) => d.applicationId == app.uuid, sources[j]);
    }
    var source, log := ListFromSourcesSound(t, app, sources, date, severity, k);
  }

  /** Over a log table of whole seconds, as the table reads back, `listLogs` prints every time with `.000` milliseconds. */
  lemma ListLogsPrintWholeSeconds(t: Tables, date: LocalDate, severity: string, applicationId: string, datasource: string, k: nat)
    requires WholeSeconds(t.logs)
    requires k < |ListLogs(t, date, severity, applicationId, datasource)|
    ensures exists log ::
      && log in t.logs
      && ListLogs(t, date, severity, applicationId, datasource)[k].timestamp == ClockText(log.timestamp.time) + ".000"
  {
    ListLogsSound(t, date, severity, applicationId, datasource, k);
    var app := FindApplication(t, applicationId).value;
    var source, log :| Qualifies(t, app, source, log, date, severity)
      && ListLogs(t, date, severity, applicationId, datasource)[k] == Listed(app, source, log);
    WholeSecondTimeString(log.timestamp.time);
  }

  lemma {:induction false} ListFromSourcesComplete(t: Tables, app: Application, sources: seq<LogsDataSource>, date: LocalDate, severity: string, source: LogsDataSource, log: AppLog)
    requires source in sources && Qualifies(t, app, source, log, date, severity)
    ensures Listed(app, source, log) in ListFromSources(t, app, sources, date, severity)
    decreases |sources|
  {
    var logs := SelectLogs(LogsOf(t, app.uuid, sources[0].uuid), date, severity);
    var head := TimeResources(app, sources[0], logs);
    var tail := ListFromSources(t, app, sources[1..], date, severity);
    assert ListFromSources(t, app, sources, date, severity) == head + tail;
    if sources[0] == source {
      FilterMember(t.logs, (l: AppLog) => l.applicationId == app.uuid && l.logSource == sources[0].uuid, log);
      FilterMember(LogsOf(t, app.uuid, sources[0].uuid), (l: AppLog) => Selected(l, date, severity), log);
      var i :| 0 <= i < |logs| && logs[i] == log;
      assert head[i] == Listed(app, source, log);
    } else {
      assert source in sources[1..];
      ListFromSourcesComplete(t, app, sources[1..], date, severity, source, log);
    }
  }

  /**
   * Every stored log of a known application, read from one of its data
   * sources, on the date and of the severity asked for, is listed.
   */
  lemma ListLogsComplete(t: Tables, date: LocalDate, severity: string, applicationId: string, datasource: string, source: LogsDataSource, log: AppLog)
    requires FindApplication(t, applicationId).Some?
    requires Qualifies(t, FindApplication(t, applicationId).value, source, log, date, severity)
    ensures Listed(FindApplication(t, applicationId).value, source, log) in ListLogs(t, date, severity, applicationId, datasource)
  {
    var app := FindApplication(t, applicationId).value;
    FilterMember(t.dataSources, (d: LogsDataSource) => d.applicationId == app.uuid, source);
    ListFromSourcesComplete(t, app, SourcesOf(t, app.uuid), date, severity, source, log);
  }

  /** The resources of one severity, in order. */
  function KeepSeverity(rs: seq<LogResource>, severity: string): (r: seq<LogResource>)
    ensures AllOfSeverity(r, severity)
  {
    Filter(rs, (res: LogResource) => res.severity == severity)
  }

  lemma {:induction false} TimeResourcesKeepSeverity(app: Application, source: LogsDataSource, logs: seq<AppLog>, date: LocalDate, severity: string)
    requires !AnySeverity(severity)
    ensures KeepSeverity(TimeResources(app, source, SelectLogs(logs, date, "")), severity)
         == TimeResources(app, source, SelectLogs(logs, date, severity))
  {
    if logs != [] {
      TimeResourcesKeepSeverity(app, source, logs[1..], date, severity);
    }
  }

  lemma {:induction false} ListFromSourcesKeepSeverity(t: Tables, app: Application, sources: seq<LogsDataSource>, date: LocalDate, severity: string)
    requires !AnySeverity(severity)
    ensures KeepSeverity(ListFromSources(t, app, sources, date, ""), severity) == ListFromSources(t, app, sources, date, severity)
    decreases |sources|
  {
    if sources != [] {
      var logs := LogsOf(t, app.uuid, sources[0].uuid);
      TimeResourcesKeepSeverity(app, sources[0], logs, date, severity);
      ListFromSourcesKeepSeverity(t, app, sources[1..], date, severity);
      FilterConcat(TimeResources(app, sources[0], SelectLogs(logs, date, "")), ListFromSources(t, app, sources[1..], date, ""),
                   (res: LogResource) => res.severity == severity);
    }
  }

  /**
   * Asking for one severity lists exactly the logs of that severity among
   * those listed without a severity filter, in the same order.
   */
  lemma ListLogsBySeverity(t: Tables, date: LocalDate, severity: string, applicationId: string, datasource: string)
    requires !AnySeverity(severity)
    ensures ListLogs(t, date, severity, applicationId, datasource) == KeepSeverity(ListLogs(t, date, "", applicationId, datasource), severity)
  {
    match FindApplication(t, applicationId)
    case None =>
    case Some(app) => ListFromSourcesKeepSeverity(t, app, SourcesOf(t, app.uuid), date, severity);
  }

  lemma {:induction false} ListFromSourcesAll(t: Tables, app: Application, sources: seq<LogsDataSource>, date: LocalDate)
    ensures ListFromSources(t, app, sources, date, "All") == ListFromSources(t, app, sources, date, "")
    decreases |sources|
  {
    if sources != [] {
      SelectLogsAll(LogsOf(t, app.uuid, sources[0].uuid), date);
      ListFromSourcesAll(t, app, sources[1..], date);
    }
  }

  lemma {:induction false} SelectLogsAll(logs: seq<AppLog>, date: LocalDate)
    ensures SelectLogs(logs, date, "All") == SelectLogs(logs, date, "")
  {
    if logs != [] {
      SelectLogsAll(logs[1..], date);
    }
  }

  /**
   * "All" and the empty severity list the same logs, and which data source
   * is named makes no difference.
   */
  lemma ListLogsAllMeansAny(t: Tables, date: LocalDate, applicationId: string, datasource: string, other: string)
    ensures ListLogs(t, date, "All", applicationId, datasource) == ListLogs(t, date, "", applicationId, other)
  {
    match FindApplication(t, applicationId)
    case None =>
    case Some(app) => ListFromSourcesAll(t, app, SourcesOf(t, app.uuid), date);
  }

  // ---------------------------------------------------------------------
  // listAllTodayLogs and findLogsById
  // ---------------------------------------------------------------------

  /** The logs dated `today`, in table order. */
  function TodayLogs(t: Tables, today: LocalDate): (r: seq<AppLog>)
    ensures forall i :: 0 <= i < |r| ==> r[i].timestamp.date == today
    ensures forall l :: l in r <==> l in t.logs && l.timestamp.date == today
  {
    var keep := (l: AppLog) => IsSameDay(l.timestamp.date, today);
    forall l ensures l in Filter(t.logs, keep) <==> l in t.logs && keep(l) {
      FilterMember(t.logs, keep, l);
    }
    Filter(t.logs, keep)
  }

  /** The log's data source is stored, and so is that source's application. */
  predicate Resolvable(t: Tables, log: AppLog) {
    FindDataSource(t, log.logSource).Some?
    && FindApplication(t, FindDataSource(t, log.logSource).value.applicationId).Some?
  }

  /** The resource of a log whose source and application are stored, with `time` as its printed timestamp. */
  function Resolved(t: Tables, log: AppLog, time: string): LogResource
    requires Resolvable(t, log)
  {
    var source := FindDataSource(t, log.logSource).value;
    Describe(FindApplication(t, source.applicationId).value, source, log, time)
  }

  /** The loop of `listAllTodayLogs`: nothing at all as soon as one log cannot be resolved. */
  function ResolveAll(t: Tables, logs: seq<AppLog>): (r: Option<seq<LogResource>>)
    ensures r.Some? <==> forall i :: 0 <= i < |logs| ==> Resolvable(t, logs[i])
    ensures r.Some? ==> |r.value| == |logs|
    ensures r.Some? ==> forall i :: 0 <= i < |logs| ==>
      r.value[i] == Resolved(t, logs[i], LocalTimeString(logs[i].timestamp.time))
  {
    if logs == [] then Some([])
    else if !Resolvable(t, logs[0]) then None
    else
      match ResolveAll(t, logs[1..])
      case None => None
      case Some(rest) => Some([Resolved(t, logs[0], LocalTimeString(logs[0].timestamp.time))] + rest)
  }

  /**
   * `listAllTodayLogs`: every log dated today, in table order, with its data
   * source and application; the empty list as soon as one of those logs
   * names a data source or an application that is not stored.
   */
  function ListAllTodayLogs(t: Tables, today: LocalDate): (r: seq<LogResource>)
    ensures (exists i :: 0 <= i < |TodayLogs(t, today)| && !Resolvable(t, TodayLogs(t, today)[i])) ==> r == []
    ensures (forall i :: 0 <= i < |TodayLogs(t, today)| ==> Resolvable(t, TodayLogs(t, today)[i])) ==>
      |r| == |TodayLogs(t, today)|
    ensures forall k :: 0 <= k < |r| ==>
      && r[k].logId == TodayLogs(t, today)[k].uuid
      && r[k].severity == TodayLogs(t, today)[k].severity
      && r[k].message == TodayLogs(t, today)[k].message
      && r[k].timestamp == LocalTimeString(TodayLogs(t, today)[k].timestamp.time)
      && r[k].datasource.uuid == TodayLogs(t, today)[k].logSource
    ensures (forall i :: 0 <= i < |TodayLogs(t, today)| ==> Resolvable(t, TodayLogs(t, today)[i])) ==>
      forall k :: 0 <= k < |r| ==>
        r[k] == Resolved(t, TodayLogs(t, today)[k], LocalTimeString(TodayLogs(t, today)[k].timestamp.time))
  {
    ResolveAll(t, TodayLogs(t, today)).GetOr([])
  }

  /** Over a log table of whole seconds, as the table reads back, today's list prints every time with `.000` milliseconds. */
  lemma TodayLogsPrintWholeSeconds(t: Tables, today: LocalDate, k: nat)
    requires WholeSeconds(t.logs)
    requires k < |ListAllTodayLogs(t, today)|
    ensures ListAllTodayLogs(t, today)[k].timestamp == ClockText(TodayLogs(t, today)[k].timestamp.time) + ".000"
  {
    var log := TodayLogs(t, today)[k];
    assert log in TodayLogs(t, today);
    WholeSecondTimeString(log.timestamp.time);
  }

  /**
   * `findLogsById`: the log with its data source and application, its
   * timestamp printed as `yyyy-MM-dd HH:mm:ss`; nothing when the log, its
   * source or that source's application is not stored.
   */
  function FindLogsById(t: Tables, logId: string): (r: Option<LogResource>)
    ensures r.None? <==> FindLog(t, logId).None? || !Resolvable(t, FindLog(t, logId).value)
    ensures r.Some? ==>
      && r.value.logId == logId
      && r.value.severity == FindLog(t, logId).value.severity
      && r.value.message == FindLog(t, logId).value.message
      && r.value.timestamp == ConvertLocalDateTimeToString(FindLog(t, logId).value.timestamp)
      && r.value.datasource.uuid == FindLog(t, logId).value.logSource
  {
    match FindLog(t, logId)
    case None => None
    case Some(log) =>
      if Resolvable(t, log) then Some(Resolved(t, log, ConvertLocalDateTimeToString(log.timestamp))) else None
  }

  /** Log ids are unique in the log table. */
  predicate UniqueLogIds(t: Tables) {
    forall i, j :: 0 <= i < j < |t.logs| ==> t.logs[i].uuid != t.logs[j].uuid
  }

  /**
   * With unique log ids, looking up any log of today's list finds it with
   * the same source, application, severity and message; only the printed
   * timestamp differs, carrying the date as well.
   */
  lemma TodayLogFoundById(t: Tables, today: LocalDate, k: nat)
    requires UniqueLogIds(t)
    requires k < |ListAllTodayLogs(t, today)|
    ensures var listed := ListAllTodayLogs(t, today)[k];
      FindLogsById(t, listed.logId) == Some(listed.(timestamp := ConvertLocalDateTimeToString(TodayLogs(t, today)[k].timestamp)))
  {
    var logs := TodayLogs(t, today);
    var log := logs[k];
    FilterMember(t.logs, (l: AppLog) => IsSameDay(l.timestamp.date, today), log);
    var i :| 0 <= i < |t.logs| && t.logs[i] == log;
    FindFirstUnique(t.logs, (l: AppLog) => l.uuid, i);
    assert FindLog(t, log.uuid) == Some(log);
    assert ResolveAll(t, logs).Some?;
  }

  // ---------------------------------------------------------------------
  // listAllApplications, listAllDataSources, findMetadataByLogId
  // ---------------------------------------------------------------------

  /** `listAllApplications`: one resource per stored application, in table order. */
  function ListAllApplications(t: Tables): (r: seq<ApplicationResource>)
    ensures |r| == |t.applications|
    ensures forall i :: 0 <= i < |r| ==>
      r[i].uuid == t.applications[i].uuid && r[i].name == t.applications[i].name
      && r[i].runtimeEnvironment == t.applications[i].runtimeEnvironment
  {
    seq(|t.applications|, i requires 0 <= i < |t.applications| => ApplicationResourceOf(t.applications[i]))
  }

  /** `listAllDataSources`: one resource per stored data source, in table order. */
  function ListAllDataSources(t: Tables): (r: seq<DatasourceResource>)
    ensures |r| == |t.dataSources|
    ensures forall i :: 0 <= i < |r| ==> r[i].uuid == t.dataSources[i].uuid && r[i].name == t.dataSources[i].name
  {
    seq(|t.dataSources|, i requires 0 <= i < |t.dataSources| => DatasourceResourceOf(t.dataSources[i]))
  }

  lemma {:induction false} FindFirstOfMap<T, U>(xs: seq<T>, ys: seq<U>, keyOf: T -> string, keyOfImage: U -> string, image: T -> U, key: string)
    requires |ys| == |xs|
    requires forall i :: 0 <= i < |xs| ==> ys[i] == image(xs[i]) && keyOfImage(ys[i]) == keyOf(xs[i])
    ensures FindFirst(ys, keyOfImage, key) == match FindFirst(xs, keyOf, key) case None => None case Some(x) => Some(image(x))
  {
    if xs != [] {
      FindFirstOfMap(xs[1..], ys[1..], keyOf, keyOfImage, image, key);
    }
  }

  /** Looking an id up in the application list agrees with looking it up in the table. */
  lemma ApplicationListAgreesWithLookup(t: Tables, uuid: string)
    ensures FindFirst(ListAllApplications(t), (r: ApplicationResource) => r.uuid, uuid)
         == match FindApplication(t, uuid) case None => None case Some(a) => Some(ApplicationResourceOf(a))
  {
    FindFirstOfMap(t.applications, ListAllApplications(t), (a: Application) => a.uuid, (r: ApplicationResource) => r.uuid,
                   ApplicationResourceOf, uuid);
  }

  /** Looking an id up in the data-source list agrees with looking it up in the table. */
  lemma DataSourceListAgreesWithLookup(t: Tables, uuid: string)
    ensures FindFirst(ListAllDataSources(t), (r: DatasourceResource) => r.uuid, uuid)
         == match FindDataSource(t, uuid) case None => None case Some(d) => Some(DatasourceResourceOf(d))
  {
    FindFirstOfMap(t.dataSources, ListAllDataSources(t), (d: LogsDataSource) => d.uuid, (r: DatasourceResource) => r.uuid,
                   DatasourceResourceOf, uuid);
  }

  /** `findMetadataByLogId`: the metadata rows attached to one log, in table order. */
  function FindMetadataByLogId(t: Tables, logId: string): (r: seq<LogsMetadata>)
    ensures forall i :: 0 <= i < |r| ==> r[i].logId == logId
    ensures forall m :: m in r <==> m in t.metadata && m.logId == logId
  {
    forall m ensures m in Filter(t.metadata, (row: LogsMetadata) => row.logId == logId) <==> m in t.metadata && m.logId == logId {
      FilterMember(t.metadata, (row: LogsMetadata) => row.logId == logId, m);
    }
    Filter(t.metadata, (row: LogsMetadata) => row.logId == logId)
  }

  // ---------------------------------------------------------------------
  // composeChartDataBySeverity
  // ---------------------------------------------------------------------

  /** `findBySeverityAndDate`: the logs of one severity dated `date`. */
  function BySeverityAndDate(t: Tables, severity: string, date: LocalDate): (r: seq<AppLog>)
    ensures forall i :: 0 <= i < |r| ==> r[i].severity == severity && r[i].timestamp.date == date
    ensures forall l :: l in r <==> l in t.logs && l.severity == severity && l.timestamp.date == date
  {
    var keep := (l: AppLog) => l.severity == severity && IsSameDay(l.timestamp.date, date);
    forall l ensures l in Filter(t.logs, keep) <==> l in t.logs && keep(l) {
      FilterMember(t.logs, keep, l);
    }
    Filter(t.logs, keep)
  }

  /** How many of the logs fall in the hour `hour` of their day. */
  function HourCount(logs: seq<AppLog>, hour: int): (n: nat)
    ensures n <= |logs|
  {
    if logs == [] then 0
    else (if logs[0].timestamp.time.hour == hour then 1 else 0) + HourCount(logs[1..], hour)
  }

  /** The counts for each entry of `ALL_HOURS`, in order. */
  function HourlyCounts(logs: seq<AppLog>): (counts: seq<nat>)
    ensures |counts| == 24
    ensures forall h :: 0 <= h < 24 ==> counts[h] == HourCount(logs, h)
  {
    var hours := AllHours();
    seq(24, h requires 0 <= h < 24 => HourCount(logs, hours[h].hour))
  }

  function Sum(xs: seq<nat>): nat {
    if xs == [] then 0 else Sum(xs[..|xs| - 1]) + xs[|xs| - 1]
  }

  /** The counts of the first `n` hours. */
  function CountBelow(logs: seq<AppLog>, n: nat): nat {
    if n == 0 then 0 else CountBelow(logs, n - 1) + HourCount(logs, n - 1)
  }

  lemma {:induction false} CountBelowNone(n: nat)
    ensures CountBelow([], n) == 0
  {
    if n > 0 {
      CountBelowNone(n - 1);
    }
  }

  lemma {:induction false} CountBelowStep(logs: seq<AppLog>, n: nat)
    requires logs != []
    ensures CountBelow(logs, n)
         == CountBelow(logs[1..], n) + (if 0 <= logs[0].timestamp.time.hour < n then 1 else 0)
  {
    if n > 0 {
      CountBelowStep(logs, n - 1);
    }
  }

  /** Every log falls in exactly one of the 24 hours. */
  lemma {:induction false} CountBelowAll(logs: seq<AppLog>)
    ensures CountBelow(logs, 24) == |logs|
  {
    if logs == [] {
      CountBelowNone(24);
    } else {
      assert logs[0].timestamp.Valid();
      CountBelowStep(logs, 24);
      CountBelowAll(logs[1..]);
    }
  }

  lemma {:induction false} SumIsCountBelow(logs: seq<AppLog>, n: nat)
    requires n <= 24
    ensures Sum(HourlyCounts(logs)[..n]) == CountBelow(logs, n)
  {
    if n > 0 {
      var counts := HourlyCounts(logs);
      assert counts[..n][..n - 1] == counts[..n - 1];
      SumIsCountBelow(logs, n - 1);
    }
  }

  /** The 24 counts add up to the number of logs. */
  lemma HourlyCountsSum(logs: seq<AppLog>)
    ensures Sum(HourlyCounts(logs)) == |logs|
  {
    SumIsCountBelow(logs, 24);
    assert HourlyCounts(logs)[..24] == HourlyCounts(logs);
    CountBelowAll(logs);
  }

  lemma {:induction false} HourCountConcat(a: seq<AppLog>, b: seq<AppLog>, hour: int)
    ensures HourCount(a + b, hour) == HourCount(a, hour) + HourCount(b, hour)
  {
    if a == [] {
      assert a + b == b;
    } else {
      assert (a + b)[1..] == a[1..] + b;
      HourCountConcat(a[1..], b, hour);
    }
  }

  /** Taking one log out of a sequence takes it out of the multiset and out of its hour's count. */
  lemma RemoveOne(b: seq<AppLog>, j: nat, hour: int)
    requires j < |b|
    ensures multiset(b[..j] + b[j + 1..]) == multiset(b) - multiset{b[j]}
    ensures HourCount(b, hour) == HourCount(b[..j] + b[j + 1..], hour) + (if b[j].timestamp.time.hour == hour then 1 else 0)
  {
    assert b == b[..j] + [b[j]] + b[j + 1..];
    HourCountConcat(b[..j] + [b[j]], b[j + 1..], hour);
    HourCountConcat(b[..j], [b[j]], hour);
    HourCountConcat(b[..j], b[j + 1..], hour);
  }

  /** The counts depend only on which logs there are, not on their order. */
  lemma {:induction false} HourCountPermutation(a: seq<AppLog>, b: seq<AppLog>, hour: int)
    requires multiset(a) == multiset(b)
    ensures HourCount(a, hour) == HourCount(b, hour)
    decreases |a|
  {
    if a == [] {
      assert |b| == |multiset(b)| == 0;
    } else {
      var x := a[0];
      assert x in multiset(b);
      var j :| 0 <= j < |b| && b[j] == x;
      RemoveOne(b, j, hour);
      assert a == [x] + a[1..];
      assert multiset(a[1..]) == multiset(a) - multiset{x};
      HourCountPermutation(a[1..], b[..j] + b[j + 1..], hour);
    }
  }

  /**
   * `composeChartDataBySeverity`: for each hour of the day the number of
   * logs of the severity on the date that fall in that hour. The stream
   * sorts the logs by timestamp first; counting does not depend on order.
   */
  function ComposeChartDataBySeverity(t: Tables, logsDate: LocalDate, severity: string): (counts: seq<nat>)
    ensures |counts| == 24
    ensures Sum(counts) == |BySeverityAndDate(t, severity, logsDate)|
  {
    HourlyCountsSum(BySeverityAndDate(t, severity, logsDate));
    HourlyCounts(BySeverityAndDate(t, severity, logsDate))
  }

  /**
   * Bucket `h` counts the logs of the severity on the date whose hour is
   * `h`, in whatever order the logs are taken: sorting them first changes
   * no count.
   */
  lemma ChartCountsHours(t: Tables, logsDate: LocalDate, severity: string, sorted: seq<AppLog>, h: nat)
    requires multiset(sorted) == multiset(BySeverityAndDate(t, severity, logsDate))
    requires h < 24
    ensures ComposeChartDataBySeverity(t, logsDate, severity)[h] == HourCount(sorted, h)
  {
    HourCountPermutation(sorted, BySeverityAndDate(t, severity, logsDate), h);
  }
}
