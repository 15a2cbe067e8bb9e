/** crates/state/src/store.rs and crates/state/src/apply.rs: the store of applied facts, and
    the applier that binds each journal sequence to one fact. */
module StateStores {
  import opened Options
  import opened Text
  import opened DirtyDomains
  import opened StateFacts

  datatype PendingFamilyBackfill = PendingFamilyBackfill(cursor: Bytes, completedAt: Option<int>)

  /** What the journal has established. The policy fields and the remote snapshot are apart:
      nothing below reads them. */
  datatype Facts = Facts(
    stateVersion: nat,
    lastConsumed: Option<int>,
    lastApplied: Option<int>,
    applied: map<FactKey, int>,
    consumed: map<int, FactKey>,
    discoveries: map<Bytes, FamilyDiscoveryRecord>,
    backfills: map<Bytes, PendingFamilyBackfill>,
    pending: map<Bytes, PendingReconcileAnchor>,
    attention: map<Bytes, RuntimeAttentionAnchor>)

  const NO_FACTS := Facts(0, None, None, map[], map[], map[], map[], map[], map[])

  datatype ApplyResult =
    | Applied(journalSeq: int, stateVersion: nat, dirtySet: set<DirtyDomain>)
    | Duplicate(journalSeq: int, duplicateOf: int, stateVersion: nat)
    | ReconcileRequired(journalSeq: int, pendingRef: Bytes, reason: Bytes)

  datatype ApplyError = AlreadyBound(journalSeq: int) | OutOfOrder(journalSeq: int, lastConsumed: int)

  datatype FactsStep = FactsStep(result: Result<ApplyResult, ApplyError>, facts: Facts)

  const ALL_LIVE_DOMAINS: set<DirtyDomain> := FULLSET_DOMAINS + NEGRISK_DOMAINS

  datatype JournalConsumption =
    | Consumed | AlreadyBoundToSameFact | AlreadyBoundToDifferentFact | RefusedOutOfOrder

  function Consumption(f: Facts, journalSeq: int, key: FactKey): JournalConsumption {
    if journalSeq in f.consumed then
      if f.consumed[journalSeq] == key then AlreadyBoundToSameFact else AlreadyBoundToDifferentFact
    else if f.lastConsumed.Some? && journalSeq <= f.lastConsumed.value then RefusedOutOfOrder
    else Consumed
  }

  function MaxTime(current: Option<int>, candidate: Option<int>): Option<int> {
    if current.Some? && candidate.Some?
    then Some(if current.value >= candidate.value then current.value else candidate.value)
    else current.Or(candidate)
  }

  function RecordBackfill(record: FamilyDiscoveryRecord, cursor: Bytes, completedAt: Option<int>): FamilyDiscoveryRecord
  {
    record.(backfillCursor := Some(cursor), backfillCompletedAt := MaxTime(record.backfillCompletedAt, completedAt))
  }

  function WithDiscovery(f: Facts, record: FamilyDiscoveryRecord): Facts {
    var kept :=
      if record.familyId in f.discoveries then
        record.(backfillCursor := f.discoveries[record.familyId].backfillCursor,
                backfillCompletedAt := f.discoveries[record.familyId].backfillCompletedAt)
      else record;
    var filled :=
      if record.familyId in f.backfills then
        RecordBackfill(kept, f.backfills[record.familyId].cursor, f.backfills[record.familyId].completedAt)
      else kept;
    f.(discoveries := f.discoveries[record.familyId := filled], backfills := f.backfills - {record.familyId})
  }

  function WithBackfill(f: Facts, familyId: Bytes, cursor: Bytes, completedAt: Option<int>): Facts {
    if familyId in f.discoveries then
      f.(discoveries := f.discoveries[familyId := RecordBackfill(f.discoveries[familyId], cursor, completedAt)])
    else if familyId in f.backfills then
      f.(backfills := f.backfills[familyId :=
          PendingFamilyBackfill(cursor, MaxTime(f.backfills[familyId].completedAt, completedAt))])
    else
      f.(backfills := f.backfills[familyId := PendingFamilyBackfill(cursor, completedAt)])
  }

  function RecordApplied(f: Facts, journalSeq: int, key: FactKey): Facts {
    f.(stateVersion := f.stateVersion + 1, lastApplied := Some(journalSeq), applied := f.applied[key := journalSeq])
  }

  function Effect(f: Facts, seqNo: int, key: FactKey, hint: FactApplyHint): FactsStep {
    match hint
    case NoEffect =>
      FactsStep(Ok(Applied(seqNo, f.stateVersion + 1, ALL_LIVE_DOMAINS)), RecordApplied(f, seqNo, key))
    case FamilyDiscovery(record) =>
      FactsStep(Ok(Applied(seqNo, f.stateVersion + 1, {Candidates})),
                RecordApplied(WithDiscovery(f, record), seqNo, key))
    case FamilyBackfill(familyId, cursor, completedAt) =>
      FactsStep(Ok(Applied(seqNo, f.stateVersion + 1, {Candidates})),
                RecordApplied(WithBackfill(f, familyId, cursor, completedAt), seqNo, key))
    case PendingReconcile(anchor) =>
      FactsStep(Ok(ReconcileRequired(seqNo, anchor.pendingRef, anchor.reason)),
                f.(pending := f.pending[anchor.pendingRef := anchor]))
    case RuntimeAttention(anchor) =>
      FactsStep(Ok(Applied(seqNo, f.stateVersion + 1, {Runtime, NegRiskFamilies})),
                RecordApplied(f.(attention := f.attention[anchor.attentionRef := anchor]), seqNo, key))
    case LiveReconcileObserved(pendingRef, terminal) =>
      if terminal then
        FactsStep(Ok(Applied(seqNo, f.stateVersion + 1, ALL_LIVE_DOMAINS)),
                  RecordApplied(f.(pending := f.pending - {pendingRef}), seqNo, key))
      else
        FactsStep(Ok(ReconcileRequired(seqNo, pendingRef, "live reconcile remains pending")), f)
  }

  /** One `StateApplier::apply`, as far as facts go. */
  function ApplyFacts(f: Facts, input: InputTaskEvent): FactsStep {
    var key := input.event.key;
    var consumption := Consumption(f, input.journalSeq, key);
    if consumption.AlreadyBoundToDifferentFact? then FactsStep(Err(AlreadyBound(input.journalSeq)), f)
    else if consumption.RefusedOutOfOrder? then
      FactsStep(Err(OutOfOrder(input.journalSeq, f.lastConsumed.value)), f)
    else
      var f1 := if consumption.Consumed?
                then f.(lastConsumed := Some(input.journalSeq), consumed := f.consumed[input.journalSeq := key]) else f;
      if key in f1.applied then FactsStep(Ok(Duplicate(input.journalSeq, f1.applied[key], f1.stateVersion)), f1)
      else Effect(f1, input.journalSeq, key, ApplyHint(input))
  }

  /** An effect never touches what the journal has consumed, and always succeeds. */
  lemma EffectConsumesNothing(f: Facts, seqNo: int, key: FactKey, hint: FactApplyHint)
    ensures var e := Effect(f, seqNo, key, hint);
            && e.result.Ok? && e.facts.consumed == f.consumed && e.facts.lastConsumed == f.lastConsumed
  {
    match hint
    case FamilyDiscovery(record) => assert WithDiscovery(f, record).consumed == f.consumed;
    case FamilyBackfill(familyId, cursor, completedAt) =>
      assert WithBackfill(f, familyId, cursor, completedAt).consumed == f.consumed;
    case _ =>
  }

  /** A sequence is accepted if it is new and above everything consumed, or already bound to
      this very fact; accepting it binds it, and refusing it changes nothing. */
  lemma AcceptanceIff(f: Facts, input: InputTaskEvent)
    ensures var step := ApplyFacts(f, input); var n := input.journalSeq;
            && (step.result.Ok? <==>
                if n in f.consumed then f.consumed[n] == input.event.key
                else f.lastConsumed.None? || n > f.lastConsumed.value)
            && (step.result.Ok? ==>
                && step.facts.consumed == f.consumed[n := input.event.key]
                && step.facts.lastConsumed == if n in f.consumed then f.lastConsumed else Some(n))
            && (step.result.Err? ==> step.facts == f)
  {
    var n := input.journalSeq;
    var f1 := if n in f.consumed then f
              else f.(lastConsumed := Some(n), consumed := f.consumed[n := input.event.key]);
    EffectConsumesNothing(f1, n, input.event.key, ApplyHint(input));
    if n in f.consumed && f.consumed[n] == input.event.key {
      assert f.consumed[n := input.event.key] == f.consumed;
    }
  }

  /** Handing the store an accepted input again, right away, changes nothing. What was applied is now a
      duplicate of itself; what was a duplicate, or only asked for reconciling, is answered as before. */
  lemma RepeatIsNoOp(f: Facts, input: InputTaskEvent)
    requires ApplyFacts(f, input).result.Ok?
    ensures var first := ApplyFacts(f, input); var second := ApplyFacts(first.facts, input);
            && second.facts == first.facts
            && second.result == if first.result.value.Applied?
                                then Ok(Duplicate(input.journalSeq, input.journalSeq, first.result.value.stateVersion))
                                else first.result
  {
    var n, key, hint := input.journalSeq, input.event.key, ApplyHint(input);
    var f1 := if n in f.consumed then f else f.(lastConsumed := Some(n), consumed := f.consumed[n := key]);
    AcceptanceIff(f, input);
    if key !in f1.applied {
      EffectOnce(f1, n, key, hint);
      EffectAdvances(f1, n, key, hint);
      AppliedIsRecorded(f1, n, key, hint);
    }
  }

  lemma EffectOnce(f: Facts, n: int, key: FactKey, hint: FactApplyHint)
    ensures var g := Effect(f, n, key, hint).facts;
            key in g.applied || Effect(g, n, key, hint) == Effect(f, n, key, hint)
  {
  }

  lemma AppliedIsRecorded(f: Facts, n: int, key: FactKey, hint: FactApplyHint)
    ensures var e := Effect(f, n, key, hint);
            e.result.value.Applied? ==>
              key in e.facts.applied && e.facts.applied[key] == n && e.result.value.stateVersion == e.facts.stateVersion
  {
    EffectAdvances(f, n, key, hint);
  }

  /** Two stores that differ only in the anchors of their last applied and last consumed
      sequences answer a fresh input alike, and agree on both anchors once it is applied. */
  lemma AnchorsDoNotMatter(f: Facts, g: Facts, input: InputTaskEvent)
    requires f == g.(lastConsumed := f.lastConsumed, lastApplied := f.lastApplied)
    requires input.journalSeq in f.consumed ==> f.lastConsumed == g.lastConsumed
    requires ApplyFacts(f, input).result.Ok? && ApplyFacts(g, input).result.Ok?
    ensures var f' := ApplyFacts(f, input); var g' := ApplyFacts(g, input);
            && f'.result == g'.result
            && f'.facts.lastConsumed == g'.facts.lastConsumed
            && f'.facts == g'.facts.(lastApplied := f'.facts.lastApplied)
            && (f'.result.value.Applied? ==> f'.facts == g'.facts)
            && (!f'.result.value.Applied? ==>
                f'.facts.lastApplied == f.lastApplied && g'.facts.lastApplied == g.lastApplied)
  {
    var n, key, hint := input.journalSeq, input.event.key, ApplyHint(input);
    AcceptanceIff(f, input);
    AcceptanceIff(g, input);
    var f1 := if n in f.consumed then f else f.(lastConsumed := Some(n), consumed := f.consumed[n := key]);
    var g1 := if n in g.consumed then g else g.(lastConsumed := Some(n), consumed := g.consumed[n := key]);
    assert f1 == g1.(lastApplied := f1.lastApplied);
    if key !in f1.applied {
      EffectIgnoresLastApplied(f1, g1, n, key, hint);
    }
  }

  lemma DiscoveryIgnoresLastApplied(f: Facts, g: Facts, record: FamilyDiscoveryRecord)
    requires f == g.(lastApplied := f.lastApplied)
    ensures WithDiscovery(f, record) == WithDiscovery(g, record).(lastApplied := f.lastApplied)
  {
  }

  lemma BackfillIgnoresLastApplied(f: Facts, g: Facts, familyId: Bytes, cursor: Bytes, completedAt: Option<int>)
    requires f == g.(lastApplied := f.lastApplied)
    ensures WithBackfill(f, familyId, cursor, completedAt)
         == WithBackfill(g, familyId, cursor, completedAt).(lastApplied := f.lastApplied)
  {
    assert f.discoveries == g.discoveries && f.backfills == g.backfills;
    if familyId in f.discoveries {
    } else if familyId in f.backfills {
    } else {
    }
  }

  lemma EffectIgnoresLastApplied(f: Facts, g: Facts, n: int, key: FactKey, hint: FactApplyHint)
    requires f == g.(lastApplied := f.lastApplied)
    ensures var f' := Effect(f, n, key, hint); var g' := Effect(g, n, key, hint);
            && f'.result == g'.result
            && f'.facts == g'.facts.(lastApplied := f'.facts.lastApplied)
            && (f'.result.value.Applied? ==> f'.facts == g'.facts)
            && (!f'.result.value.Applied? ==>
                f'.facts.lastApplied == f.lastApplied && g'.facts.lastApplied == g.lastApplied)
  {
    match hint
    case NoEffect =>
    case FamilyDiscovery(record) => DiscoveryIgnoresLastApplied(f, g, record);
    case FamilyBackfill(familyId, cursor, completedAt) =>
      BackfillIgnoresLastApplied(f, g, familyId, cursor, completedAt);
    case PendingReconcile(anchor) =>
    case RuntimeAttention(anchor) =>
    case LiveReconcileObserved(pendingRef, terminal) =>
  }

  /** Applying is the only thing that moves the version, by one, and the applied anchor. */
  lemma OnlyApplyingAdvances(f: Facts, input: InputTaskEvent)
    requires ApplyFacts(f, input).result.Ok?
    ensures var step := ApplyFacts(f, input); var g := step.facts;
            && (step.result.value.Applied? ==>
                g.stateVersion == f.stateVersion + 1 && g.lastApplied == Some(input.journalSeq))
            && (!step.result.value.Applied? ==>
                g.stateVersion == f.stateVersion && g.lastApplied == f.lastApplied && g.applied == f.applied)
            && (step.result.value.Duplicate? <==> input.event.key in f.applied)
  {
    var n, key, hint := input.journalSeq, input.event.key, ApplyHint(input);
    var f1 := if n in f.consumed then f else f.(lastConsumed := Some(n), consumed := f.consumed[n := key]);
    EffectAdvances(f1, n, key, hint);
  }

  lemma EffectAdvances(f: Facts, n: int, key: FactKey, hint: FactApplyHint)
    ensures var e := Effect(f, n, key, hint);
            && e.result.Ok? && !e.result.value.Duplicate?
            && (e.result.value.Applied? ==>
                  e.facts.stateVersion == f.stateVersion + 1 && e.facts.lastApplied == Some(n))
            && (!e.result.value.Applied? ==>
                e.facts.stateVersion == f.stateVersion && e.facts.lastApplied == f.lastApplied
                && e.facts.applied == f.applied)
  {
    match hint
    case FamilyDiscovery(record) => assert WithDiscovery(f, record).stateVersion == f.stateVersion;
    case FamilyBackfill(familyId, cursor, completedAt) =>
      assert WithBackfill(f, familyId, cursor, completedAt).stateVersion == f.stateVersion;
    case _ =>
  }

  // ----- The store as an object -----

  datatype RuntimeMode = Bootstrapping | Healthy | Reconciling

  datatype RuntimeOverlay = CancelOnly

  /** `FullSetAnchor`, without the open order ids. */
  datatype FullSetAnchor = FullSetAnchor(stateVersion: nat, committedJournalSeq: int)

  class StateStore {
    var stateVersion: nat
    var lastConsumedJournalSeq: Option<int>
    var lastAppliedJournalSeq: Option<int>
    var fullsetAnchor: Option<FullSetAnchor>
    var runtimeMode: RuntimeMode
    var overlay: Option<RuntimeOverlay>
    var firstReconcileSucceeded: bool
    var appliedFactJournal: map<FactKey, int>
    var consumedJournal: map<int, FactKey>
    var familyDiscoveryRecords: map<Bytes, FamilyDiscoveryRecord>
    var pendingFamilyBackfills: map<Bytes, PendingFamilyBackfill>
    var pendingReconcileAnchors: map<Bytes, PendingReconcileAnchor>
    var runtimeAttentionAnchors: map<Bytes, RuntimeAttentionAnchor>

    ghost function FactState(): Facts
      reads this
    {
      Facts(stateVersion, lastConsumedJournalSeq, lastAppliedJournalSeq, appliedFactJournal, consumedJournal,
            familyDiscoveryRecords, pendingFamilyBackfills, pendingReconcileAnchors, runtimeAttentionAnchors)
    }

    /** Outstanding reconcile work keeps a reconciled store cancel-only. */
    ghost predicate Guarded()
      reads this
    {
      && (firstReconcileSucceeded && pendingReconcileAnchors != map[] ==> runtimeMode == Reconciling)
      && (runtimeMode != Healthy ==> overlay == Some(CancelOnly))
      && (runtimeMode == Healthy ==> firstReconcileSucceeded && overlay == None)
    }

    /** A store that has applied something can publish its full-set view at the current version. */
    ghost predicate Anchored()
      reads this
    {
      lastAppliedJournalSeq.Some? ==> fullsetAnchor == Some(FullSetAnchor(stateVersion, lastAppliedJournalSeq.value))
    }

    constructor ()
      ensures FactState() == NO_FACTS && Guarded() && Anchored() && !firstReconcileSucceeded
    {
      stateVersion, lastConsumedJournalSeq, lastAppliedJournalSeq := 0, None, None;
      fullsetAnchor := None;
      runtimeMode, overlay, firstReconcileSucceeded := Bootstrapping, Some(CancelOnly), false;
      appliedFactJournal, consumedJournal := map[], map[];
      familyDiscoveryRecords, pendingFamilyBackfills := map[], map[];
      pendingReconcileAnchors, runtimeAttentionAnchors := map[], map[];
    }

    /** `*self = StateStore::new()`. */
    method Reset()
      modifies this
      ensures FactState() == NO_FACTS && Guarded() && Anchored() && !firstReconcileSucceeded
    {
      stateVersion, lastConsumedJournalSeq, lastAppliedJournalSeq := 0, None, None;
      fullsetAnchor := None;
      runtimeMode, overlay, firstReconcileSucceeded := Bootstrapping, Some(CancelOnly), false;
      appliedFactJournal, consumedJournal := map[], map[];
      familyDiscoveryRecords, pendingFamilyBackfills := map[], map[];
      pendingReconcileAnchors, runtimeAttentionAnchors := map[], map[];
    }

    method EnterReconciling()
      modifies this`runtimeMode, this`overlay
      ensures runtimeMode == Reconciling && overlay == Some(CancelOnly)
    {
      runtimeMode, overlay := Reconciling, Some(CancelOnly);
    }

    method ApplyRestorePosture()
      modifies this`runtimeMode, this`overlay
      ensures if !firstReconcileSucceeded then runtimeMode == old(runtimeMode) && overlay == old(overlay)
              else if pendingReconcileAnchors != map[] then runtimeMode == Reconciling && overlay == Some(CancelOnly)
              else runtimeMode == Healthy && overlay == None
    {
      if !firstReconcileSucceeded {
        return;
      }
      if pendingReconcileAnchors != map[] {
        EnterReconciling();
      } else {
        runtimeMode, overlay := Healthy, None;
      }
    }

    method MarkReconcileRequired()
      modifies this`runtimeMode, this`overlay, this`firstReconcileSucceeded
      ensures firstReconcileSucceeded && runtimeMode == Reconciling && overlay == Some(CancelOnly)
    {
      firstReconcileSucceeded := true;
      EnterReconciling();
    }

    method RestoreReconciledPolicy()
      modifies this`runtimeMode, this`overlay, this`firstReconcileSucceeded
      ensures firstReconcileSucceeded && runtimeMode == Healthy && overlay == None
    {
      firstReconcileSucceeded := true;
      runtimeMode, overlay := Healthy, None;
    }

    method MarkReconciledAfterRestore(baselineJournalSeq: int)
      modifies this
      ensures FactState() == Baseline(old(FactState()), baselineJournalSeq)
      ensures old(Anchored()) ==> Anchored()
      ensures firstReconcileSucceeded && runtimeMode == Healthy && overlay == None
    {
      if lastAppliedJournalSeq.None? {
        lastConsumedJournalSeq := Some(baselineJournalSeq);
        lastAppliedJournalSeq := Some(baselineJournalSeq);
        fullsetAnchor := Some(FullSetAnchor(stateVersion, baselineJournalSeq));
      }
      pendingReconcileAnchors := map[];
      firstReconcileSucceeded := true;
      runtimeMode, overlay := Healthy, None;
    }

    method ClearPendingReconcileAfterRestore()
      modifies this`pendingReconcileAnchors, this`runtimeMode, this`overlay
      ensures pendingReconcileAnchors == map[]
      ensures old(Guarded()) ==> Guarded()
      ensures firstReconcileSucceeded ==> runtimeMode == Healthy
    {
      pendingReconcileAnchors := map[];
      if firstReconcileSucceeded {
        ApplyRestorePosture();
      }
    }

    /** `restore_committed_anchor`. */
    method RestoreCommittedAnchor(version: nat, journalSeq: int)
      modifies this
      ensures FactState() == old(FactState()).(stateVersion := version, lastConsumed := Some(journalSeq),
                                               lastApplied := Some(journalSeq))
      ensures firstReconcileSucceeded && Guarded() && Anchored()
    {
      stateVersion := version;
      lastConsumedJournalSeq, lastAppliedJournalSeq := Some(journalSeq), Some(journalSeq);
      fullsetAnchor := Some(FullSetAnchor(version, journalSeq));
      firstReconcileSucceeded := true;
      ApplyRestorePosture();
    }

    /** `restore_pending_reconcile_anchor`. */
    method RestorePendingReconcileAnchor(anchor: PendingReconcileAnchor)
      modifies this`pendingReconcileAnchors, this`firstReconcileSucceeded, this`runtimeMode, this`overlay
      ensures pendingReconcileAnchors == old(pendingReconcileAnchors)[anchor.pendingRef := anchor]
      ensures firstReconcileSucceeded && Guarded()
    {
      pendingReconcileAnchors := pendingReconcileAnchors[anchor.pendingRef := anchor];
      firstReconcileSucceeded := true;
      ApplyRestorePosture();
    }

    /** `reconcile_store`: `clean` says that comparing with the remote snapshot raised nothing. */
    method Reconcile(clean: bool) returns (succeeded: bool)
      modifies this`fullsetAnchor, this`firstReconcileSucceeded, this`runtimeMode, this`overlay
      ensures succeeded == clean
      ensures firstReconcileSucceeded == (clean || old(firstReconcileSucceeded))
      ensures old(Guarded()) ==> Guarded()
      ensures old(Anchored()) ==> Anchored()
    {
      if !clean {
        EnterReconciling();
        return false;
      }
      fullsetAnchor := None;
      if lastAppliedJournalSeq.Some? {
        fullsetAnchor := Some(FullSetAnchor(stateVersion, lastAppliedJournalSeq.value));
      }
      firstReconcileSucceeded := true;
      ApplyRestorePosture();
      return true;
    }

    method ClearPendingReconcile(pendingRef: Bytes)
      modifies this`pendingReconcileAnchors, this`runtimeMode, this`overlay
      ensures pendingReconcileAnchors == old(pendingReconcileAnchors) - {pendingRef}
      ensures old(Guarded()) ==> Guarded()
    {
      pendingReconcileAnchors := pendingReconcileAnchors - {pendingRef};
      ApplyRestorePosture();
    }

    method ConsumeJournalSeq(journalSeq: int, key: FactKey) returns (consumption: JournalConsumption)
      modifies this`lastConsumedJournalSeq, this`consumedJournal
      ensures consumption == Consumption(old(FactState()), journalSeq, key)
      ensures FactState() ==
              if consumption.Consumed?
              then old(FactState()).(lastConsumed := Some(journalSeq),
                                     consumed := old(consumedJournal)[journalSeq := key])
              else old(FactState())
    {
      if journalSeq in consumedJournal {
        return if consumedJournal[journalSeq] == key then AlreadyBoundToSameFact else AlreadyBoundToDifferentFact;
      }
      if lastConsumedJournalSeq.Some? && journalSeq <= lastConsumedJournalSeq.value {
        return RefusedOutOfOrder;
      }
      lastConsumedJournalSeq := Some(journalSeq);
      consumedJournal := consumedJournal[journalSeq := key];
      return Consumed;
    }

    method RecordAppliedFact(journalSeq: int, key: FactKey) returns (version: nat)
      modifies this
      ensures FactState() == RecordApplied(old(FactState()), journalSeq, key)
      ensures version == stateVersion && Anchored()
      ensures firstReconcileSucceeded == old(firstReconcileSucceeded)
      ensures old(Guarded()) ==> Guarded()
    {
      stateVersion := stateVersion + 1;
      lastAppliedJournalSeq := Some(journalSeq);
      appliedFactJournal := appliedFactJournal[key := journalSeq];
      fullsetAnchor := Some(FullSetAnchor(stateVersion, journalSeq));
      ApplyRestorePosture();
      version := stateVersion;
    }

    method RecordFamilyDiscovery(record: FamilyDiscoveryRecord)
      modifies this`familyDiscoveryRecords, this`pendingFamilyBackfills
      ensures FactState() == WithDiscovery(old(FactState()), record)
    {
      var updated := record;
      if record.familyId in familyDiscoveryRecords {
        var existing := familyDiscoveryRecords[record.familyId];
        updated := updated.(backfillCursor := existing.backfillCursor,
                            backfillCompletedAt := existing.backfillCompletedAt);
      }
      if record.familyId in pendingFamilyBackfills {
        var backfill := pendingFamilyBackfills[record.familyId];
        updated := RecordBackfill(updated, backfill.cursor, backfill.completedAt);
      }
      pendingFamilyBackfills := pendingFamilyBackfills - {record.familyId};
      familyDiscoveryRecords := familyDiscoveryRecords[record.familyId := updated];
    }

    method RecordFamilyBackfill(familyId: Bytes, cursor: Bytes, completedAt: Option<int>)
      modifies this`familyDiscoveryRecords, this`pendingFamilyBackfills
      ensures FactState() == WithBackfill(old(FactState()), familyId, cursor, completedAt)
    {
      if familyId in familyDiscoveryRecords {
        familyDiscoveryRecords :=
          familyDiscoveryRecords[familyId := RecordBackfill(familyDiscoveryRecords[familyId], cursor, completedAt)];
        return;
      }
      var merged := completedAt;
      if familyId in pendingFamilyBackfills {
        merged := MaxTime(pendingFamilyBackfills[familyId].completedAt, completedAt);
      }
      pendingFamilyBackfills := pendingFamilyBackfills[familyId := PendingFamilyBackfill(cursor, merged)];
    }

    /** The part of `apply` that every applied fact shares. */
    method Commit(seqNo: int, key: FactKey, dirtySet: set<DirtyDomain>) returns (result: ApplyResult)
      modifies this
      ensures FactState() == RecordApplied(old(FactState()), seqNo, key)
      ensures result == Applied(seqNo, old(stateVersion) + 1, dirtySet)
      ensures old(Guarded()) ==> Guarded()
      ensures Anchored()
      ensures firstReconcileSucceeded == old(firstReconcileSucceeded)
    {
      var version := RecordAppliedFact(seqNo, key);
      result := Applied(seqNo, version, dirtySet);
    }

    /** The part of `apply` that outstanding work shares. */
    method Require(seqNo: int, anchor: Option<PendingReconcileAnchor>, pendingRef: Bytes, reason: Bytes)
      returns (result: ApplyResult)
      modifies this`pendingReconcileAnchors, this`runtimeMode, this`overlay, this`firstReconcileSucceeded
      ensures pendingReconcileAnchors ==
              if anchor.Some? then old(pendingReconcileAnchors)[anchor.value.pendingRef := anchor.value]
              else old(pendingReconcileAnchors)
      ensures result == ReconcileRequired(seqNo, pendingRef, reason)
      ensures firstReconcileSucceeded && runtimeMode == Reconciling && overlay == Some(CancelOnly)
    {
      if anchor.Some? {
        pendingReconcileAnchors := pendingReconcileAnchors[anchor.value.pendingRef := anchor.value];
      }
      MarkReconcileRequired();
      result := ReconcileRequired(seqNo, pendingRef, reason);
    }

    method PerformEffect(seqNo: int, key: FactKey, hint: FactApplyHint) returns (result: ApplyResult)
      modifies this
      ensures FactsStep(Ok(result), FactState()) == Effect(old(FactState()), seqNo, key, hint)
      ensures old(Guarded()) ==> Guarded()
      ensures old(Anchored()) ==> Anchored()
      ensures firstReconcileSucceeded == (old(firstReconcileSucceeded) || result.ReconcileRequired?)
      ensures result.ReconcileRequired? ==> runtimeMode == Reconciling
    {
      match hint {
        case NoEffect =>
          result := Commit(seqNo, key, ALL_LIVE_DOMAINS);
        case FamilyDiscovery(record) =>
          RecordFamilyDiscovery(record);
          result := Commit(seqNo, key, {Candidates});
        case FamilyBackfill(familyId, cursor, completedAt) =>
          RecordFamilyBackfill(familyId, cursor, completedAt);
          result := Commit(seqNo, key, {Candidates});
        case PendingReconcile(anchor) =>
          result := Require(seqNo, Some(anchor), anchor.pendingRef, anchor.reason);
        case RuntimeAttention(anchor) =>
          runtimeAttentionAnchors := runtimeAttentionAnchors[anchor.attentionRef := anchor];
          result := Commit(seqNo, key, {Runtime, NegRiskFamilies});
        case LiveReconcileObserved(pendingRef, terminal) =>
          if terminal {
            ClearPendingReconcile(pendingRef);
            result := Commit(seqNo, key, ALL_LIVE_DOMAINS);
          } else {
            result := Require(seqNo, None, pendingRef, "live reconcile remains pending");
          }
      }
    }

    /** `StateApplier::apply`. A refused input leaves the whole store as it was. */
    method Apply(input: InputTaskEvent) returns (result: Result<ApplyResult, ApplyError>)
      modifies this
      ensures FactsStep(result, FactState()) == ApplyFacts(old(FactState()), input)
      ensures old(Guarded()) ==> Guarded()
      ensures old(Anchored()) ==> Anchored()
      ensures firstReconcileSucceeded ==
              (old(firstReconcileSucceeded) || (result.Ok? && result.value.ReconcileRequired?))
      ensures result.Err? ==> unchanged(this)
      ensures result.Ok? && result.value.ReconcileRequired? ==> runtimeMode == Reconciling
    {
      var seqNo := input.journalSeq;
      var key := input.event.key;
      var consumption := ConsumeJournalSeq(seqNo, key);
      if consumption.AlreadyBoundToDifferentFact? {
        return Err(AlreadyBound(seqNo));
      }
      if consumption.RefusedOutOfOrder? {
        return Err(OutOfOrder(seqNo, lastConsumedJournalSeq.value));
      }
      if key in appliedFactJournal {
        return Ok(Duplicate(seqNo, appliedFactJournal[key], stateVersion));
      }
      var applied := PerformEffect(seqNo, key, ApplyHint(input));
      return Ok(applied);
    }
  }

  /** `mark_reconciled_after_restore`, as far as facts go. */
  function Baseline(f: Facts, journalSeq: int): Facts {
    var f1 := if f.lastApplied.None? then f.(lastConsumed := Some(journalSeq), lastApplied := Some(journalSeq)) else f;
    f1.(pending := map[])
  }
}
