/** crates/state/src/facts.rs, crates/domain/src/facts.rs and crates/app-live/src/input_tasks.rs:
    the facts that inputs carry, and the effect each asks for. */
module StateFacts {
  import opened Options
  import opened Text

  datatype FactKey = FactKey(
    sourceKind: Bytes, sourceSessionId: Bytes, sourceEventId: Bytes, normalizerVersion: Bytes)

  datatype Payload =
    | NoPayload
    | FamilyDiscoveryObserved(familyId: Bytes)
    | FamilyBackfillObserved(familyId: Bytes, cursor: Bytes, complete: bool)
    | NegRiskLiveSubmitObserved(attemptId: Bytes, scope: Bytes, submissionRef: Bytes)
    | NegRiskLiveReconcileObserved(pendingRef: Bytes, scope: Bytes, terminal: bool)
    | RuntimeAttentionObserved(source: Bytes, scopeId: Bytes, attentionKind: Bytes, reason: Bytes)

  /** Timestamps are integers on one time line. */
  datatype ExternalFactEvent = ExternalFactEvent(
    key: FactKey, observedAt: int, rawPayloadHash: Option<Bytes>, payload: Payload)

  datatype InputTaskHint = NoHint | OutOfOrderUserTrade

  datatype InputTaskEvent = InputTaskEvent(journalSeq: int, event: ExternalFactEvent, hint: InputTaskHint)

  datatype PendingReconcileAnchor = PendingReconcileAnchor(
    pendingRef: Bytes, submissionRef: Bytes, familyId: Bytes, route: Bytes, reason: Bytes)

  datatype RuntimeAttentionAnchor = RuntimeAttentionAnchor(
    attentionRef: Bytes, source: Bytes, scopeId: Bytes, attentionKind: Bytes, reason: Bytes)

  datatype FamilyDiscoveryRecord = FamilyDiscoveryRecord(
    familyId: Bytes, source: FactKey, discoveredAt: int,
    backfillCursor: Option<Bytes>, backfillCompletedAt: Option<int>)

  datatype FactApplyHint =
    | NoEffect
    | FamilyDiscovery(record: FamilyDiscoveryRecord)
    | FamilyBackfill(familyId: Bytes, cursor: Bytes, completedAt: Option<int>)
    | PendingReconcile(anchor: PendingReconcileAnchor)
    | RuntimeAttention(attention: RuntimeAttentionAnchor)
    | LiveReconcileObserved(pendingRef: Bytes, terminal: bool)

  function RefFromKey(prefix: Bytes, key: FactKey): Bytes {
    prefix + ":" + key.sourceKind + ":" + key.sourceSessionId + ":" + key.sourceEventId + ":" + key.normalizerVersion
  }

  /** `InputTaskEvent::into_state_fact_input` and the constructors it calls. */
  function ApplyHint(input: InputTaskEvent): FactApplyHint {
    var key := input.event.key;
    var pendingRef := RefFromKey("pending", key);
    if input.hint == OutOfOrderUserTrade then
      PendingReconcile(PendingReconcileAnchor(pendingRef, pendingRef, key.sourceSessionId, key.sourceKind,
                                              "user trade arrived out of authoritative order"))
    else
      match input.event.payload
      case NoPayload => NoEffect
      case FamilyDiscoveryObserved(familyId) =>
        FamilyDiscovery(FamilyDiscoveryRecord(familyId, key, input.event.observedAt, None, None))
      case FamilyBackfillObserved(familyId, cursor, complete) =>
        FamilyBackfill(familyId, cursor, if complete then Some(input.event.observedAt) else None)
      case NegRiskLiveSubmitObserved(_, scope, submissionRef) =>
        PendingReconcile(PendingReconcileAnchor(pendingRef, submissionRef, scope, key.sourceKind,
                                                "live submit observed"))
      case NegRiskLiveReconcileObserved(reconciledRef, _, terminal) => LiveReconcileObserved(reconciledRef, terminal)
      case RuntimeAttentionObserved(source, scopeId, attentionKind, reason) =>
        if attentionKind == "metadata_stale" then
          RuntimeAttention(RuntimeAttentionAnchor(RefFromKey("attention", key), source, scopeId, attentionKind, reason))
        else
          PendingReconcile(PendingReconcileAnchor(pendingRef, pendingRef, scopeId, source, reason))
  }
}
