/** What one call of each supervisor operation does, as functions on the supervisor's state:
    crates/app-live/src/supervisor.rs, runtime.rs, queues.rs and snapshot_meta.rs. */
module SupervisorModel {
  import opened Options
  import opened Text
  import opened Ingress
  import opened StateFacts
  import opened StateStores
  import opened ExecutionRows
  import opened OrderedKeys
  import D = Dispatch

  datatype RolloutEvidence = RolloutEvidence(
    snapshotId: Bytes, liveReadyFamilies: nat, blockedFamilies: nat, parityMismatches: nat)

  datatype RuntimeSeed = RuntimeSeed(
    lastJournalSeq: Option<int>,
    lastStateVersion: nat,
    committedStateVersion: Option<nat>,
    publishedSnapshotId: Option<Bytes>,
    pendingReconcileCount: Option<nat>,
    pendingReconcileAnchors: seq<PendingReconcileAnchor>,
    evidence: Option<RolloutEvidence>,
    liveRecords: seq<LiveRecord>,
    shadowAttempts: seq<ExecutionAttemptRow>,
    shadowArtifacts: seq<ShadowArtifactRow>)

  /** What the seeding and enabling calls fix before the first run. */
  datatype Config = Config(
    liveMode: bool, smoke: bool, durableLive: bool, durableShadow: bool,
    targets: set<Bytes>, approved: set<Bytes>, ready: set<Bytes>,
    bootstrapClean: bool, seed: RuntimeSeed)

  /** Everything an input can change besides the log and the queue. */
  datatype Core = Core(
    facts: Facts,
    reconciled: bool,
    published: Option<D.PublishedSnapshot>,
    evidence: Option<RolloutEvidence>,
    dispatch: D.DispatchState,
    liveRecords: seq<LiveRecord>,
    shadowAttempts: seq<ExecutionAttemptRow>,
    shadowArtifacts: seq<ShadowArtifactRow>)

  datatype State = State(core: Core, log: seq<InputTaskEvent>, queue: seq<InputTaskEvent>)

  const FRESH := State(Core(NO_FACTS, false, None, None, D.INITIAL, [], [], []), [], [])

  /** What the outside world answers during one tick: the live backend per snapshot and
      family, the shadow planner per snapshot, both durable writes, and the clock. */
  datatype World = World(
    live: (Bytes, Bytes) -> Result<LiveRecord, Bytes>,
    shadow: Bytes -> Result<(seq<ExecutionAttemptRow>, seq<ShadowArtifactRow>), Bytes>,
    liveWriteOk: bool, shadowWriteOk: bool,
    clock: int -> int)

  datatype Failure =
    | ApplyFailed(error: ApplyError)
    | BackendFailed(reason: Bytes)
    | PersistenceFailed
    | Divergence(reason: Bytes)

  // ----- Publication -----

  function SnapshotId(version: nat): Bytes {
    "snapshot-" + Digits(version)
  }

  function SnapshotOf(f: Facts): D.PublishedSnapshot
    requires f.lastApplied.Some?
  {
    D.PublishedSnapshot(SnapshotId(f.stateVersion), f.stateVersion, f.lastApplied.value, true, false)
  }

  function SyntheticReadyCount(c: Config): nat {
    |c.targets * c.ready * c.approved|
  }

  function EvidenceFor(c: Config, snapshotId: Bytes, allowSynthesis: bool): RolloutEvidence {
    if !allowSynthesis && c.seed.evidence.Some? && c.seed.evidence.value.snapshotId == snapshotId then
      c.seed.evidence.value
    else if allowSynthesis then
      var live := SyntheticReadyCount(c);
      RolloutEvidence(snapshotId, live, if |c.targets| >= live then |c.targets| - live else 0, 0)
    else RolloutEvidence(snapshotId, 0, 0, 0)
  }

  function KeepLive(records: seq<LiveRecord>, snapshotId: Bytes): seq<LiveRecord> {
    if records == [] then []
    else if records[0].snapshotId == snapshotId then [records[0]] + KeepLive(records[1..], snapshotId)
    else KeepLive(records[1..], snapshotId)
  }

  function KeepAttempts(attempts: seq<ExecutionAttemptRow>, snapshotId: Bytes): seq<ExecutionAttemptRow> {
    if attempts == [] then []
    else if attempts[0].snapshotId == snapshotId then [attempts[0]] + KeepAttempts(attempts[1..], snapshotId)
    else KeepAttempts(attempts[1..], snapshotId)
  }

  function KeepArtifacts(artifacts: seq<ShadowArtifactRow>, attemptIds: set<Bytes>): seq<ShadowArtifactRow> {
    if artifacts == [] then []
    else if artifacts[0].attemptId in attemptIds then [artifacts[0]] + KeepArtifacts(artifacts[1..], attemptIds)
    else KeepArtifacts(artifacts[1..], attemptIds)
  }

  /** `retain_current_neg_risk_live_execution_records`. */
  function RetainLive(s: Core): Core {
    if s.published.None? then s.(liveRecords := [])
    else
      var id := s.published.value.snapshotId;
      s.(liveRecords := if s.evidence.Some? && s.evidence.value.snapshotId != id then []
                        else KeepLive(s.liveRecords, id))
  }

  /** `retain_current_neg_risk_shadow_execution_records`. */
  function RetainShadow(s: Core): Core {
    if s.published.None? then s.(shadowAttempts := [], shadowArtifacts := [])
    else
      var kept := KeepAttempts(s.shadowAttempts, s.published.value.snapshotId);
      s.(shadowAttempts := kept, shadowArtifacts := KeepArtifacts(s.shadowArtifacts, set a | a in kept :: a.attemptId))
  }

  /** `publish_current_snapshot`. */
  function Publish(c: Config, s: Core, allowSynthesis: bool): Core {
    if s.facts.lastApplied.Some? then
      var snapshot := SnapshotOf(s.facts);
      var s1 := s.(published := Some(snapshot), evidence := Some(EvidenceFor(c, snapshot.snapshotId, allowSynthesis)));
      var s2 := RetainShadow(RetainLive(s1));
      s2.(dispatch := D.Step(s2.dispatch, D.ObserveSnapshot(snapshot)))
    else
      RetainShadow(RetainLive(s.(evidence := None)))
  }

  // ----- Draining -----

  /** What an accepted input does besides being committed. */
  function Land(c: Config, s: Core, result: ApplyResult, facts: Facts): Core {
    match result
    case Applied(_, version, dirtySet) =>
      Publish(c, s.(facts := facts, published := None,
                    dispatch := D.Step(s.dispatch, D.RecordApply(version, dirtySet))), false)
    case Duplicate(_, _, _) => s.(facts := facts)
    case ReconcileRequired(_, _, _) => s.(facts := facts, reconciled := true)
  }

  function AcceptInput(c: Config, s: Core, input: InputTaskEvent): Result<Core, ApplyError> {
    var step := ApplyFacts(s.facts, input);
    if step.result.Err? then Err(step.result.error) else Ok(Land(c, s, step.result.value, step.facts))
  }

  /** `apply_input` and what the drain loop does with its result. */
  function Accept(c: Config): Applier<Core, ApplyError> {
    (s: Core, input: InputTaskEvent) => AcceptInput(c, s, input)
  }

  /** An applier that answers as `AcceptInput` does, without saying how. */
  ghost predicate Applies(c: Config, apply: Applier<Core, ApplyError>) {
    forall s, input {:trigger AcceptInput(c, s, input)} :: apply(s, input) == AcceptInput(c, s, input)
  }

  datatype Outcome = Outcome(result: Result<nat, Failure>, state: State)

  /** `drain_input_tasks`. */
  function DrainAll(c: Config, s: State): Outcome {
    var d := Drain(Accept(c), s.core, s.log, s.queue, s.core.facts.lastConsumed);
    Outcome(if d.result.Ok? then Ok(d.result.value) else Err(ApplyFailed(d.result.error)),
            State(d.core, d.log, d.queue))
  }

  // ----- Live and shadow execution -----

  predicate Approved(c: Config, family: Bytes) {
    family in c.approved || "default" in c.approved
  }

  /** The ready and approved targets, in target map order. */
  function Eligible(c: Config, families: seq<Bytes>): seq<Bytes> {
    if families == [] then []
    else if families[0] in c.ready && Approved(c, families[0]) then [families[0]] + Eligible(c, families[1..])
    else Eligible(c, families[1..])
  }

  /** `eligible_live_records_with_backend`: one backend call a family, up to the first error. */
  function LiveRecords(w: World, snapshotId: Bytes, families: seq<Bytes>): Result<seq<LiveRecord>, Bytes> {
    if families == [] then Ok([])
    else
      var first := w.live(snapshotId, families[0]);
      if first.Err? then Err(first.error)
      else
        var rest := LiveRecords(w, snapshotId, families[1..]);
        if rest.Err? then rest else Ok([first.value] + rest.value)
  }

  /** The families a run of calls reached: all of them, or up to and including the one that failed. */
  function Reached(w: World, snapshotId: Bytes, families: seq<Bytes>): seq<Bytes> {
    if families == [] then []
    else if w.live(snapshotId, families[0]).Err? then [families[0]]
    else [families[0]] + Reached(w, snapshotId, families[1..])
  }

  lemma Regroup(done: seq<Bytes>, family: Bytes, rest: seq<Bytes>)
    ensures done + ([family] + rest) == done + [family] + rest
  {
  }

  /** Calls made so far followed by one more: an answer extends the records, an error ends them. */
  lemma {:induction false} LiveRecordsExtend(
      w: World, snapshotId: Bytes, done: seq<Bytes>, family: Bytes, tail: seq<Bytes>)
    requires LiveRecords(w, snapshotId, done).Ok?
    ensures Reached(w, snapshotId, done) == done
    ensures var answer := w.live(snapshotId, family);
            && (answer.Ok? ==> LiveRecords(w, snapshotId, done + [family]) ==
                               Ok(LiveRecords(w, snapshotId, done).value + [answer.value])
                               && Reached(w, snapshotId, done + [family]) == done + [family])
            && (answer.Err? ==> LiveRecords(w, snapshotId, done + [family] + tail) == Err(answer.error)
                                && Reached(w, snapshotId, done + [family] + tail) == done + [family])
  {
    if done != [] {
      LiveRecordsExtend(w, snapshotId, done[1..], family, tail);
      assert (done + [family])[1..] == done[1..] + [family];
      assert (done + [family] + tail)[1..] == done[1..] + [family] + tail;
      var head, rest := w.live(snapshotId, done[0]), LiveRecords(w, snapshotId, done[1..]);
      var answer := w.live(snapshotId, family);
      if answer.Ok? {
        assert [head.value] + (rest.value + [answer.value]) == ([head.value] + rest.value) + [answer.value];
      }
    } else {
      assert done + [family] == [family] && [family][1..] == [];
      assert done + [family] + tail == [family] + tail && ([family] + tail)[1..] == tail;
      var none := LiveRecords(w, snapshotId, []);
      assert none == Ok([]);
      var answer := w.live(snapshotId, family);
      if answer.Ok? {
        assert LiveRecords(w, snapshotId, [family]) == Ok([answer.value] + none.value);
        assert [answer.value] + none.value == none.value + [answer.value];
      }
    }
  }

  function SubmitRef(record: LiveRecord): Option<Bytes> {
    record.submissionRef.Or(record.pendingRef)
  }

  function SubmitFact(journalSeq: int, record: LiveRecord, submitRef: Bytes, now: int): InputTaskEvent {
    var key := FactKey("negrisk_live_submit", "app-live-bootstrap",
                       "live-submit-" + record.attemptId, "v1-negrisk-live-submit");
    InputTaskEvent(journalSeq,
                   ExternalFactEvent(key, now, None,
                                     NegRiskLiveSubmitObserved(record.attemptId, record.scope, submitRef)),
                   NoHint)
  }

  /** Commits the submit fact of one record under the given sequence. */
  function SubmitOne(c: Config, w: World, s: State, record: LiveRecord, journalSeq: int): Result<State, ApplyError>
    requires SubmitRef(record).Some?
  {
    var input := SubmitFact(journalSeq, record, SubmitRef(record).value, w.clock(journalSeq));
    var landed := AcceptInput(c, s.core, input);
    if landed.Err? then Err(landed.error) else Ok(s.(core := landed.value, log := Commit(s.log, input)))
  }

  type Submitter = (State, LiveRecord, int) --> Result<State, ApplyError>

  function Submitting(c: Config, w: World): (submit: Submitter)
    ensures forall s, record, n :: SubmitRef(record).Some? ==> submit.requires(s, record, n)
  {
    (s: State, record: LiveRecord, journalSeq: int) requires SubmitRef(record).Some? =>
      SubmitOne(c, w, s, record, journalSeq)
  }

  /** A submitter that does what `SubmitOne` does, without saying how. */
  ghost predicate Submits(c: Config, w: World, submit: Submitter) {
    && (forall s, record, n :: SubmitRef(record).Some? ==> submit.requires(s, record, n))
    && (forall s, record, n {:trigger SubmitOne(c, w, s, record, n)} ::
          SubmitRef(record).Some? ==> submit(s, record, n) == SubmitOne(c, w, s, record, n))
  }

  /** `apply_live_submit_facts`: the count is of the records that carried a reference. */
  function ApplySubmits(submit: Submitter, s: State, records: seq<LiveRecord>, lastSeq: int): Outcome
    requires forall t, record, n :: SubmitRef(record).Some? ==> submit.requires(t, record, n)
    decreases |records|
  {
    if records == [] then Outcome(Ok(0), s)
    else if SubmitRef(records[0]).None? then ApplySubmits(submit, s, records[1..], lastSeq)
    else
      var landed := submit(s, records[0], lastSeq + 1);
      if landed.Err? then Outcome(Err(ApplyFailed(landed.error)), s)
      else if landed.value.core.facts.pending != map[] then Outcome(Ok(1), landed.value)
      else
        var rest := ApplySubmits(submit, landed.value, records[1..], lastSeq + 1);
        rest.(result := if rest.result.Ok? then Ok(rest.result.value + 1) else rest.result)
  }

  /** What a refresh did: the families handed to the live backend, and how it ended. */
  datatype Refreshed = Refreshed(result: Result<nat, Failure>, state: State, submitted: seq<Bytes>)

  predicate RefreshDue(c: Config, s: Core, allowSynthesis: bool) {
    && c.liveMode && allowSynthesis
    && (if c.smoke then s.shadowAttempts == [] else s.liveRecords == [])
    && s.published.Some? && s.evidence.Some? && s.evidence.value.liveReadyFamilies != 0
  }

  function Take<T>(s: seq<T>, n: nat): seq<T> {
    if n <= |s| then s[..n] else s
  }

  /** `refresh_neg_risk_live_execution_records`. */
  ghost function Refresh(c: Config, s: State, w: World, allowSynthesis: bool): Refreshed {
    if !RefreshDue(c, s.core, allowSynthesis) then Refreshed(Ok(0), s, [])
    else
      var snapshotId := s.core.published.value.snapshotId;
      if c.smoke then
        var planned := w.shadow(snapshotId);
        if planned.Err? then Refreshed(Err(BackendFailed(planned.error)), s, [])
        else if c.durableShadow && !w.shadowWriteOk then Refreshed(Err(PersistenceFailed), s, [])
        else
          Refreshed(Ok(0), s.(core := s.core.(shadowAttempts := planned.value.0, shadowArtifacts := planned.value.1,
                                              liveRecords := [])), [])
      else
        var families := Eligible(c, Ascending(c.targets));
        var records := LiveRecords(w, snapshotId, families);
        var submitted := Reached(w, snapshotId, families);
        if records.Err? then Refreshed(Err(BackendFailed(records.error)), s, submitted)
        else
          var applied := ApplySubmits(Submitting(c, w), s, records.value, s.core.facts.lastConsumed.GetOr(0));
          if applied.result.Err? then Refreshed(applied.result, applied.state, submitted)
          else
            var kept := Take(records.value, applied.result.value);
            if c.durableLive && !(w.liveWriteOk && forall r :: r in kept ==> SubmitRef(r).Some?) then
              Refreshed(Err(PersistenceFailed), applied.state, submitted)
            else Refreshed(Ok(0), applied.state.(core := applied.state.core.(liveRecords := kept)), submitted)
  }

  predicate HasSeed(seed: RuntimeSeed) {
    || seed.lastJournalSeq.Some? || seed.committedStateVersion.Some? || seed.publishedSnapshotId.Some?
    || seed.pendingReconcileCount.Some? || seed.pendingReconcileAnchors != []
    || seed.liveRecords != [] || seed.shadowAttempts != []
  }

  /** `allow_operator_rollout_evidence_synthesis`. */
  predicate AllowSynthesis(c: Config, s: State) {
    || (!HasSeed(c.seed) && c.seed.evidence.None? && s.log == []
        && s.core.facts.lastConsumed == Some(0) && s.core.facts.stateVersion == 0)
    || (HasSeed(c.seed) && s.core.facts.pending == map[] && s.core.liveRecords == [] && s.core.shadowAttempts == []
        && c.seed.pendingReconcileAnchors == [] && c.seed.evidence.None?)
  }

  // ----- Startup, ticks and resume -----

  /** `bootstrap_once` on the configured snapshot, and the baseline it anchors. */
  function Bootstrap(c: Config, s: Core): Core {
    if !c.bootstrapClean then s
    else s.(reconciled := true,
            facts := if s.facts.lastApplied.None? then Baseline(s.facts, 0) else s.facts)
  }

  function RestoreAnchors(pending: map<Bytes, PendingReconcileAnchor>, anchors: seq<PendingReconcileAnchor>)
    : map<Bytes, PendingReconcileAnchor>
    decreases |anchors|
  {
    if anchors == [] then pending
    else RestoreAnchors(pending[anchors[0].pendingRef := anchors[0]], anchors[1..])
  }

  function CommittedVersion(seed: RuntimeSeed): nat {
    seed.committedStateVersion.GetOr(seed.lastStateVersion)
  }

  function Forget(s: Core): Core {
    s.(facts := NO_FACTS, reconciled := false, published := None, evidence := None,
       liveRecords := [], shadowAttempts := [], shadowArtifacts := [])
  }

  function AdoptSeedRecords(c: Config, s: Core): Core {
    RetainShadow(RetainLive(s.(liveRecords := c.seed.liveRecords,
                               shadowAttempts := c.seed.shadowAttempts, shadowArtifacts := c.seed.shadowArtifacts)))
  }

  /** `validate_neg_risk_shadow_execution_anchor`. */
  predicate ShadowAnchorValid(c: Config, s: Core) {
    || !c.smoke
    || (c.seed.shadowAttempts == [] && c.seed.shadowArtifacts == [])
    || (&& s.published.Some? && s.shadowAttempts != [] && s.shadowArtifacts != []
        && forall a :: a in s.shadowAttempts ==> a.snapshotId == s.published.value.snapshotId)
  }

  /** `validate_neg_risk_live_execution_anchor`. */
  predicate LiveAnchorValid(c: Config, s: Core) {
    || !c.liveMode || c.smoke
    || s.evidence.None? || s.evidence.value.liveReadyFamilies == 0
    || (&& s.liveRecords != [] && s.published.Some?
        && forall r :: r in s.liveRecords ==> r.snapshotId == s.published.value.snapshotId)
  }

  /** `validate_rollout_evidence_anchor`. */
  predicate EvidenceAnchorValid(c: Config, s: Core) {
    || !c.liveMode
    || (c.seed.lastJournalSeq.None? && CommittedVersion(c.seed) == 0 && s.facts.lastConsumed == Some(0)
        && s.facts.stateVersion == 0 && c.seed.evidence.None?)
    || (s.facts.stateVersion == 0 && c.seed.publishedSnapshotId.None? && s.evidence.None?)
    || c.seed.evidence == s.evidence
  }

  function SeededFacts(seed: RuntimeSeed, journalSeq: int): Facts {
    NO_FACTS.(stateVersion := CommittedVersion(seed), lastConsumed := Some(journalSeq), lastApplied := Some(journalSeq),
              pending := RestoreAnchors(map[], seed.pendingReconcileAnchors))
  }

  datatype Restored = Restored(result: Result<nat, Failure>, core: Core)

  /** `restore_seeded_startup_state`. */
  function RestoreSeeded(c: Config, s: Core): Restored {
    var s0 := Forget(s);
    if c.seed.lastJournalSeq.None? then Restored(Err(Divergence("missing last journal sequence")), s0)
    else
      var seqNo := c.seed.lastJournalSeq.value;
      var s1 := s0.(reconciled := true, facts := SeededFacts(c.seed, seqNo));
      if c.seed.pendingReconcileCount.Some? && c.seed.pendingReconcileCount.value != |s1.facts.pending| then
        Restored(Err(Divergence("pending reconcile count")), s1)
      else
        var s2 := AdoptSeedRecords(c, Publish(c, s1, false));
        if ShadowAnchorValid(c, s2) then Restored(Ok(0), s2) else Restored(Err(Divergence("shadow anchor")), s2)
  }

  function FlushDispatch(s: State): State {
    s.(core := s.core.(dispatch := D.Step(s.core.dispatch, D.Flush)))
  }

  /** What a tick did: how it ended, the state it left, and the families it submitted live. */
  datatype Ticked = Ticked(result: Result<nat, Failure>, state: State, submitted: seq<Bytes>)

  /** The part of `run_once` after the refresh. */
  function FinishTick(c: Config, s: State, submitted: seq<Bytes>, restoring: bool): Ticked {
    if restoring && c.seed.evidence.Some? && !EvidenceAnchorValid(c, s.core) then
      Ticked(Err(Divergence("rollout evidence")), s, submitted)
    else if restoring && c.seed.liveRecords != [] && !LiveAnchorValid(c, s.core) then
      Ticked(Err(Divergence("live anchor")), s, submitted)
    else
      var drained := DrainAll(c, s);
      if drained.result.Err? then Ticked(drained.result, drained.state, submitted)
      else if !LiveAnchorValid(c, drained.state.core) then
        Ticked(Err(Divergence("live anchor")), drained.state, submitted)
      else
        Ticked(Ok(0), FlushDispatch(drained.state), submitted)
  }

  /** The part of `run_once` after startup. */
  ghost function RunStarted(c: Config, s: State, w: World, restoring: bool): Ticked {
    var allow := AllowSynthesis(c, s);
    var refreshed := Refresh(c, s.(core := Publish(c, s.core, allow)), w, allow);
    if refreshed.result.Err? then Ticked(refreshed.result, refreshed.state, refreshed.submitted)
    else FinishTick(c, refreshed.state, refreshed.submitted, restoring)
  }

  /** `run_once`. */
  ghost function RunOnce(c: Config, s: State, w: World): Ticked {
    if s.core.reconciled then RunStarted(c, s, w, false)
    else if HasSeed(c.seed) then
      var restored := RestoreSeeded(c, s.core);
      if restored.result.Err? then Ticked(restored.result, s.(core := restored.core), [])
      else RunStarted(c, s.(core := restored.core), w, true)
    else RunStarted(c, s.(core := Bootstrap(c, s.core)), w, false)
  }

  /** `replay_committed_history` from a new store: the facts, whether any input still wanted
      reconciling, and the first error. */
  datatype Replayed = Replayed(result: Result<nat, Failure>, facts: Facts, reconcileRequired: bool)

  function ReplayStep(r: Replayed, input: InputTaskEvent): Replayed {
    if r.result.Err? then r
    else
      var step := ApplyFacts(r.facts, input);
      if step.result.Err? then r.(result := Err(ApplyFailed(step.result.error)))
      else Replayed(Ok(0), step.facts, r.reconcileRequired || step.result.value.ReconcileRequired?)
  }

  function Replay(history: seq<InputTaskEvent>): Replayed {
    if history == [] then Replayed(Ok(0), NO_FACTS, false)
    else ReplayStep(Replay(history[..|history| - 1]), history[|history| - 1])
  }

  /** An empty history still gets a baseline; one that applied nothing does not. */
  function Rebuilt(r: Replayed): Facts {
    if !r.reconcileRequired && r.facts.lastApplied.None? then Baseline(r.facts, 0) else r.facts
  }

  /** The publication of `resume_once` and the checks around it. */
  function PublishRestored(c: Config, s: Core): Restored {
    if s.facts.stateVersion != CommittedVersion(c.seed) then Restored(Err(Divergence("state version")), s)
    else if s.facts.lastConsumed != Some(c.seed.lastJournalSeq.GetOr(0)) then
      Restored(Err(Divergence("last journal sequence")), s)
    else
      var publishes := s.facts.stateVersion > 0 || c.seed.publishedSnapshotId.Some? || c.seed.lastStateVersion == 0;
      var s1 := AdoptSeedRecords(c, if publishes then Publish(c, s, false) else s);
      if !ShadowAnchorValid(c, s1) then Restored(Err(Divergence("shadow anchor")), s1)
      else if !EvidenceAnchorValid(c, s1) then Restored(Err(Divergence("rollout evidence")), s1)
      else Restored(Ok(0), s1)
  }

  /** What `resume_once` does between the replay and the drain. */
  function Revalidate(c: Config, s: Core): Restored {
    var pendingCount := c.seed.pendingReconcileCount;
    if pendingCount.Some? && pendingCount.value != 0 && pendingCount.value != |s.facts.pending| then
      Restored(Err(Divergence("pending reconcile count")), s)
    else if pendingCount.None? && s.facts.pending != map[] then
      Restored(Err(Divergence("missing pending reconcile count")), s)
    else
      PublishRestored(c, if pendingCount == Some(0) then s.(facts := s.facts.(pending := map[])) else s)
  }

  /** The drain of `resume_once` and what follows it. */
  function FinishResume(c: Config, s: State): Outcome {
    var drained := DrainAll(c, s);
    if drained.result.Err? then drained
    else
      var core := drained.state.core;
      var published := if core.published.None? && core.facts.stateVersion > 0 then Publish(c, core, false) else core;
      var t := drained.state.(core := published);
      if LiveAnchorValid(c, t.core) then Outcome(drained.result, FlushDispatch(t))
      else Outcome(Err(Divergence("live anchor")), t)
  }

  /** `resume_once`. */
  function Resume(c: Config, s: State): Outcome {
    var s0 := Forget(s.core);
    if c.seed.lastJournalSeq.None? && !(CommittedVersion(c.seed) == 0 && s.log == []) then
      Outcome(Err(Divergence("missing last journal sequence")), s.(core := s0))
    else
      var replayed := Replay(s.log);
      if replayed.result.Err? then
        Outcome(replayed.result, s.(core := s0.(facts := replayed.facts, reconciled := replayed.reconcileRequired)))
      else
        var valid := Revalidate(c, s0.(facts := Rebuilt(replayed), reconciled := true));
        if valid.result.Err? then Outcome(valid.result, s.(core := valid.core))
        else FinishResume(c, s.(core := valid.core))
  }
}
