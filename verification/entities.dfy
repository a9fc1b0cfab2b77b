/**
 * The persisted records the ingestion engine and the retrieval service
 * exchange. Each is an immutable record, as in the source.
 */
module Entities {

  import opened Temporal

  /** A monitored application. */
  datatype Application = Application(
    uuid: string,
    name: string,
    appVersion: string,
    runtimeEnvironment: string,
    ownerUuid: string,
    createdAt: ValidDateTime)

  /** A configured origin of log text belonging to one application. */
  datatype LogsDataSource = LogsDataSource(
    uuid: string,
    name: string,
    sourceType: string,
    applicationId: string,
    createdAt: ValidDateTime,
    logFilePath: string)

  /** One reconstructed log record; `logSource` holds the uuid of its data source. */
  datatype AppLog = AppLog(
    uuid: string,
    timestamp: ValidDateTime,
    severity: string,
    applicationId: string,
    logSource: string,
    message: string)

  /** One named field extracted from a record; `logId` is the uuid of that record. */
  datatype LogsMetadata = LogsMetadata(
    uuid: string,
    logId: string,
    metadataType: string,
    metadataValue: string)

  /**
   * Every log's timestamp is a whole second. The `app_logs` timestamp
   * column holds the UTC text, which has no fraction of a second, so every
   * row read back from it is of this form.
   */
  predicate WholeSeconds(logs: seq<AppLog>) {
    forall i :: 0 <= i < |logs| ==> logs[i].timestamp.time.nano == 0
  }
}
