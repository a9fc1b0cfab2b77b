/**
 * The metadata rule table: nineteen (name, pattern) pairs tried against
 * every log group, and the named pattern constants the table mirrors.
 * Only the severity and thread-name patterns get a matcher here; the
 * other patterns are kept as the text of the Java regular expression.
 */
module Constants {

  import opened Wrappers

  /** A rule of the table: the metadata name and the pattern that finds it. */
  datatype RegexTuple = RegexTuple(logName: string, regex: string)

  // ---------------------------------------------------------------------
  // The named pattern constants (Java escapes carried over as written)
  // ---------------------------------------------------------------------

  const ClientIpAddress: string := "(\\d{1,3}(?:\\.\\d{1,3}){3})"
  const RequestLatencyMs: string := "time(?:Taken)?[=: ]+(\\d+)(ms)?"
  const ConfiguredPort: string := "\\bport\\s*=\\s*(\\d{1,5})"
  const TomcatStartupPort: string := "Tomcat started on port\\(s\\): (\\d+)"
  const SessionId: string := "JSESSIONID=([A-Fa-f0-9]+)"
  const ExceptionClassAndMessage: string := "([a-zA-Z0-9_.]+Exception): (.+)"
  const ExceptionClass: string := "\\b([a-zA-Z0-9_.]+Exception)\\b"
  const TraceIdentifier: string := "traceId[=: ]?([a-f0-9\\-]+)"
  const ThreadName: string := "\\[(.*?)\\]"
  const LogSeverityLevel: string := "(INFO|DEBUG|ERROR|WARN)"
  const SourceLoggerClass: string := "(?:INFO|DEBUG|ERROR|WARN)\\s+([a-zA-Z0-9_.]+)\\s*-"
  const ProcessId: string := "\\bpid[=: ]?(\\d+)"
  const HttpQueryParameters: string := "\\?([^\\s]+)"
  const HttpHostHeader: string := "Host:\\s*([^\\s]+)"
  const ActiveProfiles: string := "The following profiles are active: ([\\w,\\s]+)"
  const UserAgentHeader: string := "User-Agent:\\s*([^\\r\\n]+)"
  const HttpRequestMethodAndPath: string := "\\\"(GET|POST|PUT|DELETE|PATCH|OPTIONS|HEAD)\\s+([^\\s]+)"
  const HttpRequestPath: string := "\"(?:GET|POST|PUT|DELETE|PATCH|OPTIONS|HEAD)\\s+([^\\s\\?]+)"
  const HttpResponseStatusCode: string := "\\\"\\s(\\d{3})\\s"

  // ---------------------------------------------------------------------
  // The ordered table, written out on its own as in the source
  // ---------------------------------------------------------------------

  const RegexTuples: seq<RegexTuple> := [
    RegexTuple("clientIpAddress", "(\\d{1,3}(?:\\.\\d{1,3}){3})"),
    RegexTuple("requestLatencyMs", "time(?:Taken)?[=: ]+(\\d+)(ms)?"),
    RegexTuple("configuredPort", "\\bport\\s*=\\s*(\\d{1,5})"),
    RegexTuple("tomcatStartupPort", "Tomcat started on port\\(s\\): (\\d+)"),
    RegexTuple("sessionId", "JSESSIONID=([A-Fa-f0-9]+)"),
    RegexTuple("exceptionClassAndMessage", "([a-zA-Z0-9_.]+Exception): (.+)"),
    RegexTuple("exceptionClass", "\\b([a-zA-Z0-9_.]+Exception)\\b"),
    RegexTuple("traceIdentifier", "traceId[=: ]?([a-f0-9\\-]+)"),
    RegexTuple("threadName", "\\[(.*?)\\]"),
    RegexTuple("logSeverityLevel", "(INFO|DEBUG|ERROR|WARN)"),
    RegexTuple("sourceLoggerClass", "(?:INFO|DEBUG|ERROR|WARN)\\s+([a-zA-Z0-9_.]+)\\s*-"),
    RegexTuple("processId", "\\bpid[=: ]?(\\d+)"),
    RegexTuple("httpQueryParameters", "\\?([^\\s]+)"),
    RegexTuple("httpHostHeader", "Host:\\s*([^\\s]+)"),
    RegexTuple("activeProfiles", "The following profiles are active: ([\\w,\\s]+)"),
    RegexTuple("userAgentHeader", "User-Agent:\\s*([^\\r\\n]+)"),
    RegexTuple("httpRequestMethodAndPath", "\\\"(GET|POST|PUT|DELETE|PATCH|OPTIONS|HEAD)\\s+([^\\s]+)"),
    RegexTuple("httpRequestPath", "\"(?:GET|POST|PUT|DELETE|PATCH|OPTIONS|HEAD)\\s+([^\\s\\?]+)"),
    RegexTuple("httpResponseStatusCode", "\\\"\\s(\\d{3})\\s")
  ]

  /** The named constant a rule name refers to, if any. */
  function NamedPattern(name: string): (p: Option<string>)
    ensures p.Some? <==> name in {
      "clientIpAddress", "requestLatencyMs", "configuredPort", "tomcatStartupPort",
      "sessionId", "exceptionClassAndMessage", "exceptionClass", "traceIdentifier",
      "threadName", "logSeverityLevel", "sourceLoggerClass", "processId",
      "httpQueryParameters", "httpHostHeader", "activeProfiles", "userAgentHeader",
      "httpRequestMethodAndPath", "httpRequestPath", "httpResponseStatusCode"}
  {
    match name
    case "clientIpAddress" => Some(ClientIpAddress)
    case "requestLatencyMs" => Some(RequestLatencyMs)
    case "configuredPort" => Some(ConfiguredPort)
    case "tomcatStartupPort" => Some(TomcatStartupPort)
    case "sessionId" => Some(SessionId)
    case "exceptionClassAndMessage" => Some(ExceptionClassAndMessage)
    case "exceptionClass" => Some(ExceptionClass)
    case "traceIdentifier" => Some(TraceIdentifier)
    case "threadName" => Some(ThreadName)
    case "logSeverityLevel" => Some(LogSeverityLevel)
    case "sourceLoggerClass" => Some(SourceLoggerClass)
    case "processId" => Some(ProcessId)
    case "httpQueryParameters" => Some(HttpQueryParameters)
    case "httpHostHeader" => Some(HttpHostHeader)
    case "activeProfiles" => Some(ActiveProfiles)
    case "userAgentHeader" => Some(UserAgentHeader)
    case "httpRequestMethodAndPath" => Some(HttpRequestMethodAndPath)
    case "httpRequestPath" => Some(HttpRequestPath)
    case "httpResponseStatusCode" => Some(HttpResponseStatusCode)
    case _ => None
  }

  /** Position of the first rule carrying `name`, or `|RegexTuples|` when none does. */
  function RuleIndex(name: string): (i: nat)
    ensures i <= |RegexTuples|
    ensures i < |RegexTuples| ==> RegexTuples[i].logName == name
    ensures forall j :: 0 <= j < i ==> RegexTuples[j].logName != name
  {
    RuleIndexFrom(name, 0)
  }

  function RuleIndexFrom(name: string, from: nat): (i: nat)
    requires from <= |RegexTuples|
    requires forall j :: 0 <= j < from ==> RegexTuples[j].logName != name
    ensures from <= i <= |RegexTuples|
    ensures i < |RegexTuples| ==> RegexTuples[i].logName == name
    ensures forall j :: 0 <= j < i ==> RegexTuples[j].logName != name
    decreases |RegexTuples| - from
  {
    if from == |RegexTuples| then from
    else if RegexTuples[from].logName == name then from
    else RuleIndexFrom(name, from + 1)
  }

  // ---------------------------------------------------------------------
  // Facts about the table
  // ---------------------------------------------------------------------

  lemma TableSize()
    ensures |RegexTuples| == 19
  {
  }

  /** No two rules share a name, so each name selects exactly one rule. */
  lemma NamesDistinct()
    ensures forall i, j :: 0 <= i < j < |RegexTuples| ==> RegexTuples[i].logName != RegexTuples[j].logName
  {
  }

  /** Every rule's pattern is the named constant of the same name. */
  lemma TableMirrorsConstants()
    ensures forall i :: 0 <= i < |RegexTuples| ==> NamedPattern(RegexTuples[i].logName) == Some(RegexTuples[i].regex)
  {
  }

  /** Looking a rule up by its name finds that very rule. */
  lemma RuleIndexOfName(i: nat)
    requires i < |RegexTuples|
    ensures RuleIndex(RegexTuples[i].logName) == i
  {
    NamesDistinct();
  }

  /** The message-carrying exception rule is tried right before the class-only one. */
  lemma ExceptionRulesAdjacent(withMessage: string, classOnly: string)
    requires withMessage == "exceptionClassAndMessage" && classOnly == "exceptionClass"
    ensures RuleIndex(withMessage) == 5
    ensures RuleIndex(classOnly) == RuleIndex(withMessage) + 1
  {
    var rules := RegexTuples;
    assert rules[5].logName == withMessage && rules[6].logName == classOnly;
    RuleIndexOfName(5);
    RuleIndexOfName(6);
  }
}
