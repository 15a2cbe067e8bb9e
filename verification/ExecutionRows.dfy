/** Rows and records that execution leaves behind: crates/persistence/src/models.rs,
    crates/app-live/src/negrisk_live.rs and crates/app-live/src/config.rs. */
module ExecutionRows {
  import opened Options
  import opened Text

  datatype ExecutionMode = Disabled | Shadow | Live | ReduceOnly | RecoveryOnly

  datatype ExecutionAttemptRow = ExecutionAttemptRow(
    attemptId: Bytes, planId: Bytes, snapshotId: Bytes, route: Bytes, scope: Bytes,
    matchedRuleId: Option<Bytes>, executionMode: ExecutionMode, attemptNo: int,
    idempotencyKey: Bytes, runSessionId: Option<Bytes>)

  datatype ShadowArtifactRow = ShadowArtifactRow(attemptId: Bytes, stream: Bytes, payload: Bytes)

  /** A live execution record without its artifacts and order requests. */
  datatype LiveRecord = LiveRecord(
    idempotencyKey: Bytes, attemptId: Bytes, planId: Bytes, snapshotId: Bytes, executionMode: ExecutionMode,
    attemptNo: nat, route: Bytes, scope: Bytes, matchedRuleId: Option<Bytes>,
    submissionRef: Option<Bytes>, pendingRef: Option<Bytes>)
}
