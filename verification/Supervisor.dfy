/** crates/app-live/src/runtime.rs: the store behind the supervisor. */
module Runtime {
  import opened Options
  import opened StateFacts
  import opened StateStores
  import opened SupervisorModel
  import D = Dispatch
  import Text

  /** Nothing waits for reconciling unless some replayed input asked for it. */
  lemma {:induction false} ReplayPendingMeansRequired(history: seq<InputTaskEvent>)
    ensures Replay(history).facts.pending != map[] ==> Replay(history).reconcileRequired
  {
    if history != [] {
      ReplayPendingMeansRequired(history[..|history| - 1]);
      PendingNeedsRequired(Replay(history[..|history| - 1]), history[|history| - 1]);
    }
  }

  lemma PendingNeedsRequired(r: Replayed, input: InputTaskEvent)
    requires r.facts.pending != map[] ==> r.reconcileRequired
    ensures var t := ReplayStep(r, input); t.facts.pending != map[] ==> t.reconcileRequired
  {
    var n, key, hint := input.journalSeq, input.event.key, ApplyHint(input);
    var f := r.facts;
    var f1 := if n in f.consumed then f else f.(lastConsumed := Some(n), consumed := f.consumed[n := key]);
    EffectPending(f1, n, key, hint);
  }

  lemma EffectPending(f: Facts, n: int, key: FactKey, hint: FactApplyHint)
    ensures var e := Effect(f, n, key, hint);
            e.result.Ok? && (!e.result.value.ReconcileRequired? && f.pending == map[] ==> e.facts.pending == map[])
  {
    match hint
    case FamilyDiscovery(record) => assert WithDiscovery(f, record).pending == f.pending;
    case FamilyBackfill(familyId, cursor, completedAt) =>
      assert WithBackfill(f, familyId, cursor, completedAt).pending == f.pending;
    case _ =>
  }

  class AppRuntime {
    const store: StateStore
    var publishedSnapshot: Option<D.PublishedSnapshot>

    /** The store's safety: reconcile work keeps it cancel-only, and its full-set view is current. */
    ghost predicate Valid()
      reads this, store
    {
      store.Guarded() && store.Anchored()
    }

    constructor ()
      ensures Valid() && store.FactState() == NO_FACTS && publishedSnapshot == None
      ensures !store.firstReconcileSucceeded && fresh(store)
    {
      store := new StateStore();
      publishedSnapshot := None;
    }

    /** `*self = AppRuntime::new(..)`. */
    method Reset()
      modifies this, store
      ensures Valid() && store.FactState() == NO_FACTS && publishedSnapshot == None
      ensures !store.firstReconcileSucceeded
    {
      store.Reset();
      publishedSnapshot := None;
    }

    method ApplyInput(input: InputTaskEvent) returns (result: Result<ApplyResult, ApplyError>)
      requires Valid()
      modifies this, store
      ensures Valid()
      ensures FactsStep(result, store.FactState()) == ApplyFacts(old(store.FactState()), input)
      ensures publishedSnapshot == if result.Ok? && result.value.Applied? then None else old(publishedSnapshot)
      ensures store.firstReconcileSucceeded ==
              (old(store.firstReconcileSucceeded) || (result.Ok? && result.value.ReconcileRequired?))
    {
      result := store.Apply(input);
      if result.Ok? {
        match result.value {
          case Applied(_, _, _) => publishedSnapshot := None;
          case ReconcileRequired(_, _, _) => store.MarkReconcileRequired();
          case Duplicate(_, _, _) =>
        }
      }
    }

    method PublishSnapshot(snapshotId: Text.Bytes) returns (snapshot: Option<D.PublishedSnapshot>)
      requires Valid() && snapshotId == SnapshotId(store.stateVersion)
      modifies this`publishedSnapshot
      ensures snapshot == if store.FactState().lastApplied.Some? then Some(SnapshotOf(store.FactState())) else None
      ensures publishedSnapshot == if snapshot.Some? then snapshot else old(publishedSnapshot)
    {
      if store.lastAppliedJournalSeq.None? {
        return None;
      }
      var seqNo := store.lastAppliedJournalSeq.value;
      var fullsetReady := store.fullsetAnchor == Some(FullSetAnchor(store.stateVersion, seqNo));
      snapshot := Some(D.PublishedSnapshot(snapshotId, store.stateVersion, seqNo, fullsetReady, false));
      publishedSnapshot := snapshot;
    }

    method BootstrapOnce(clean: bool)
      requires Valid()
      modifies this, store
      ensures Valid() && publishedSnapshot == old(publishedSnapshot)
      ensures store.firstReconcileSucceeded == (clean || old(store.firstReconcileSucceeded))
      ensures store.FactState() ==
              if clean && old(store.FactState()).lastApplied.None? then Baseline(old(store.FactState()), 0)
              else old(store.FactState())
    {
      var succeeded := store.Reconcile(clean);
      if succeeded && store.lastAppliedJournalSeq.None? {
        store.MarkReconciledAfterRestore(0);
      }
    }

    /** One input of a replay. */
    method ReplayOne(input: InputTaskEvent, required: bool) returns (result: Result<nat, Failure>, requiredNow: bool)
      requires Valid() && store.firstReconcileSucceeded == required
      modifies store
      ensures Valid() && store.firstReconcileSucceeded == requiredNow
      ensures Replayed(result, store.FactState(), requiredNow)
              == ReplayStep(Replayed(Ok(0), old(store.FactState()), required), input)
    {
      var applied := store.Apply(input);
      result := if applied.Err? then Err(ApplyFailed(applied.error)) else Ok(0);
      requiredNow := required || (applied.Ok? && applied.value.ReconcileRequired?);
    }

    /** The inputs of a replay, from a new store. */
    method ReplayInputs(history: seq<InputTaskEvent>) returns (result: Result<nat, Failure>, reconcileRequired: bool)
      modifies this, store
      ensures Valid() && publishedSnapshot == None
      ensures Replayed(result, store.FactState(), reconcileRequired) == Replay(history)
      ensures store.firstReconcileSucceeded == reconcileRequired
    {
      store.Reset();
      publishedSnapshot := None;
      result, reconcileRequired := Ok(0), false;
      var i := 0;
      while i < |history| && result.Ok?
        invariant 0 <= i <= |history| && Valid() && publishedSnapshot == None
        invariant Replayed(result, store.FactState(), reconcileRequired) == Replay(history[..i])
        invariant store.firstReconcileSucceeded == reconcileRequired && (result.Ok? ==> result == Ok(0))
        decreases |history| - i
      {
        result, reconcileRequired := ReplayOne(history[i], reconcileRequired);
        ReplayTurn(history, i);
        i := i + 1;
      }
      ReplayFinishes(history, i);
    }

    /** A successful replay leaves the store reconciling if any input still wanted it, even one
        that a later input of the history settled. */
    method ReplayCommittedHistory(history: seq<InputTaskEvent>) returns (result: Result<nat, Failure>)
      modifies this, store
      ensures Valid() && publishedSnapshot == None
      ensures var r := Replay(history);
              && result == r.result
              && store.FactState() == (if r.result.Ok? then Rebuilt(r) else r.facts)
              && store.firstReconcileSucceeded == (r.result.Ok? || r.reconcileRequired)
              && (result.Ok? ==> store.runtimeMode == if r.reconcileRequired then Reconciling else Healthy)
    {
      var reconcileRequired;
      result, reconcileRequired := ReplayInputs(history);
      if result.Err? {
        return;
      }
      ReplayPendingMeansRequired(history);
      if reconcileRequired {
        store.RestoreReconciledPolicy();
        store.MarkReconcileRequired();
      } else if store.lastAppliedJournalSeq.None? {
        store.MarkReconciledAfterRestore(0);
      } else {
        store.RestoreReconciledPolicy();
      }
      return Ok(0);
    }
  }

  lemma ReplayTurn(history: seq<InputTaskEvent>, i: nat)
    requires i < |history|
    ensures Replay(history[..i + 1]) == ReplayStep(Replay(history[..i]), history[i])
    ensures Replay(history[..i]).result.Ok? ==> Replay(history[..i]).result == Ok(0)
  {
    assert history[..i + 1][..i] == history[..i];
    ReplaySuccessIsZero(history[..i]);
  }

  lemma {:induction false} ReplaySuccessIsZero(history: seq<InputTaskEvent>)
    ensures Replay(history).result.Ok? ==> Replay(history).result == Ok(0)
  {
    if history != [] {
      ReplaySuccessIsZero(history[..|history| - 1]);
    }
  }

  /** A replay that fails, or reaches the end, is decided. */
  lemma {:induction false} ReplayFinishes(history: seq<InputTaskEvent>, i: nat)
    requires i <= |history| && (i == |history| || Replay(history[..i]).result.Err?)
    ensures Replay(history) == Replay(history[..i])
    decreases |history| - i
  {
    if i < |history| {
      ReplayTurn(history, i);
      ReplayFinishes(history, i + 1);
    } else {
      assert history[..i] == history;
    }
  }
}

/** crates/app-live/src/supervisor.rs: the supervisor's operations, each equal to its function
    in `SupervisorModel`. */
module Supervisor {
  import opened Options
  import opened Text
  import opened StableSort
  import opened StateFacts
  import opened StateStores
  import opened ExecutionRows
  import opened OrderedKeys
  import opened Ingress
  import opened Runtime
  import M = SupervisorModel
  import D = Dispatch

  class AppSupervisor {
    const config: M.Config
    const dispatcher: D.DispatchLoop
    const runtime: AppRuntime
    const inputTasks: IngressQueue
    var committedLog: seq<InputTaskEvent>
    var evidence: Option<M.RolloutEvidence>
    var liveRecords: seq<LiveRecord>
    var shadowAttempts: seq<ExecutionAttemptRow>
    var shadowArtifacts: seq<ShadowArtifactRow>

    ghost const Repr: set<object> := {this, dispatcher, runtime, runtime.store, inputTasks}

    ghost predicate Valid()
      reads Repr
    {
      runtime.Valid()
    }

    ghost function Core(): M.Core
      reads Repr
    {
      M.Core(runtime.store.FactState(), runtime.store.firstReconcileSucceeded, runtime.publishedSnapshot,
             evidence, dispatcher.State(), liveRecords, shadowAttempts, shadowArtifacts)
    }

    ghost function State(): M.State
      reads Repr
    {
      M.State(Core(), committedLog, inputTasks.backlog)
    }

    constructor (config: M.Config)
      ensures Valid() && State() == M.FRESH && this.config == config
      ensures fresh(Repr)
    {
      this.config := config;
      dispatcher := new D.DispatchLoop();
      runtime := new AppRuntime();
      inputTasks := new IngressQueue();
      committedLog, evidence := [], None;
      liveRecords, shadowAttempts, shadowArtifacts := [], [], [];
    }

    method SeedUnappliedJournalEntry(journalSeq: int, input: InputTaskEvent)
      requires Valid()
      modifies inputTasks
      ensures Valid()
      ensures State() == old(State()).(queue := Enqueued(old(inputTasks.backlog), input.(journalSeq := journalSeq)))
    {
      inputTasks.Push(input.(journalSeq := journalSeq));
    }

    method RecordCommittedInput(input: InputTaskEvent)
      modifies this`committedLog
      ensures committedLog == Commit(old(committedLog), input)
    {
      if input in committedLog {
        return;
      }
      committedLog := committedLog + [input];
      committedLog := Sort(committedLog, BySeq);
    }

    method RetainCurrentLiveRecords()
      modifies this`liveRecords
      ensures Core() == M.RetainLive(old(Core()))
    {
      if runtime.publishedSnapshot.None? {
        liveRecords := [];
        return;
      }
      var id := runtime.publishedSnapshot.value.snapshotId;
      if evidence.Some? && evidence.value.snapshotId != id {
        liveRecords := [];
      } else {
        liveRecords := M.KeepLive(liveRecords, id);
      }
    }

    method RetainCurrentShadowRecords()
      modifies this`shadowAttempts, this`shadowArtifacts
      ensures Core() == M.RetainShadow(old(Core()))
    {
      if runtime.publishedSnapshot.None? {
        shadowAttempts, shadowArtifacts := [], [];
        return;
      }
      shadowAttempts := M.KeepAttempts(shadowAttempts, runtime.publishedSnapshot.value.snapshotId);
      shadowArtifacts := M.KeepArtifacts(shadowArtifacts, set a | a in shadowAttempts :: a.attemptId);
    }

    method PublishCurrentSnapshot(allowSynthesis: bool)
      requires Valid()
      modifies this`evidence, this`liveRecords, this`shadowAttempts, this`shadowArtifacts,
               runtime`publishedSnapshot, dispatcher
      ensures Valid() && Core() == M.Publish(config, old(Core()), allowSynthesis)
    {
      var snapshot := runtime.PublishSnapshot(M.SnapshotId(runtime.store.stateVersion));
      if snapshot.Some? {
        evidence := Some(M.EvidenceFor(config, snapshot.value.snapshotId, allowSynthesis));
        RetainCurrentLiveRecords();
        RetainCurrentShadowRecords();
        dispatcher.ObserveSnapshot(snapshot.value);
      } else {
        evidence := None;
        RetainCurrentLiveRecords();
        RetainCurrentShadowRecords();
      }
    }

    /** Applies one input and lets its result land; the caller commits it. */
    method LandInput(input: InputTaskEvent) returns (result: Result<ApplyResult, ApplyError>)
      requires Valid()
      modifies this`evidence, this`liveRecords, this`shadowAttempts, this`shadowArtifacts,
               runtime, runtime.store, dispatcher
      ensures Valid()
      ensures var landed := M.AcceptInput(config, old(Core()), input);
              && (result.Err? <==> landed.Err?)
              && (result.Err? ==> landed.error == result.error && Core() == old(Core()))
              && (result.Ok? ==> Core() == landed.value)
    {
      result := runtime.ApplyInput(input);
      if result.Ok? && result.value.Applied? {
        dispatcher.RecordApply(result.value.stateVersion, result.value.dirtySet);
        PublishCurrentSnapshot(false);
      }
    }

    /** Applies one input, lets its result land, and commits it. */
    method CommitInput(input: InputTaskEvent) returns (result: Result<ApplyResult, ApplyError>)
      requires Valid()
      modifies this, runtime, runtime.store, dispatcher
      ensures Valid()
      ensures var landed := M.AcceptInput(config, old(Core()), input);
              && (result.Err? <==> landed.Err?)
              && (result.Err? ==> landed.error == result.error && State() == old(State()))
              && (result.Ok? ==>
                    State() == M.State(landed.value, Commit(old(committedLog), input), old(inputTasks.backlog)))
    {
      result := LandInput(input);
      if result.Ok? {
        RecordCommittedInput(input);
      }
    }

    /** Commits an input and takes it off the queue. */
    method ConsumeInput(input: InputTaskEvent) returns (result: Result<ApplyResult, ApplyError>)
      requires Valid()
      modifies Repr
      ensures Valid()
      ensures var landed := M.AcceptInput(config, old(Core()), input);
              && (result.Err? <==> landed.Err?)
              && (result.Err? ==> landed.error == result.error && State() == old(State()))
              && (result.Ok? ==> State() == M.State(landed.value, Commit(old(committedLog), input),
                                                    RemoveFirst(old(inputTasks.backlog), input)))
    {
      result := CommitInput(input);
      if result.Ok? {
        var _ := inputTasks.Remove(input);
      }
    }

    /** What is left of a drain with this anchor. */
    ghost function Rest(apply: Applier<M.Core, ApplyError>, anchor: Option<int>): Drained<M.Core, ApplyError>
      reads Repr
    {
      Drain(apply, Core(), committedLog, inputTasks.backlog, anchor)
    }

    /** The body of the drain loop: nothing left, refused, or consumed. */
    method DrainNext(ghost apply: Applier<M.Core, ApplyError>, anchor: Option<int>)
      returns (turn: Option<Result<nat, ApplyError>>)
      requires Valid() && M.Applies(config, apply)
      modifies Repr
      ensures Valid()
      ensures var k := FirstAfter(old(inputTasks.backlog), anchor);
              && (turn.None? <==> k == |old(inputTasks.backlog)|)
              && (turn.None? ==> State() == old(State()))
              && (turn.Some? ==>
                  var input := old(inputTasks.backlog)[k];
                  var landed := apply(old(Core()), input);
                  && (turn.value.Err? ==> landed == Err(turn.value.error) && State() == old(State()))
                  && (turn.value.Ok? ==>
                      landed.Ok? && State() == M.State(landed.value, Commit(old(committedLog), input),
                                                       RemoveFirst(old(inputTasks.backlog), input))))
    {
      var next := inputTasks.NextAfter(anchor);
      if next.None? {
        return None;
      }
      assert apply(Core(), next.value) == M.AcceptInput(config, Core(), next.value);
      var landed := ConsumeInput(next.value);
      return Some(if landed.Err? then Err(landed.error) else Ok(1));
    }

    /** One turn of the loop, seen from what is left to drain. */
    method DrainOnce(ghost apply: Applier<M.Core, ApplyError>, anchor: Option<int>)
      returns (turn: Option<Result<nat, ApplyError>>)
      requires Valid() && M.Applies(config, apply)
      modifies Repr
      ensures Valid()
      ensures turn.None? ==> old(Rest(apply, anchor)) == Drained(Ok(0), Core(), committedLog, inputTasks.backlog)
      ensures turn.Some? && turn.value.Err? ==>
              old(Rest(apply, anchor)) == Drained(Err(turn.value.error), Core(), committedLog, inputTasks.backlog)
      ensures turn.Some? && turn.value.Ok? ==>
              |inputTasks.backlog| < |old(inputTasks.backlog)|
              && old(Rest(apply, anchor)) == Counted(1, Rest(apply, anchor))
    {
      DrainTurn(apply, Core(), committedLog, inputTasks.backlog, anchor);
      turn := DrainNext(apply, anchor);
    }

    lemma CountedAgain(n: nat, d: Drained<M.Core, ApplyError>)
      ensures Counted(n, Counted(1, d)) == Counted(n + 1, d)
    {
    }

    method DrainFrom(ghost apply: Applier<M.Core, ApplyError>, anchor: Option<int>,
                     ghost whole: Drained<M.Core, ApplyError>)
      returns (result: Result<nat, ApplyError>)
      requires Valid() && M.Applies(config, apply) && whole == Rest(apply, anchor)
      modifies Repr
      ensures Valid() && Drained(result, Core(), committedLog, inputTasks.backlog) == whole
    {
      var processedCount := 0;
      var done := false;
      ghost var rest := whole;
      result := Ok(0);
      while !done
        invariant Valid()
        invariant !done ==> rest == Rest(apply, anchor) && whole == Counted(processedCount, rest)
        invariant done ==> whole == Drained(result, Core(), committedLog, inputTasks.backlog)
        decreases !done, |inputTasks.backlog|
      {
        var turn := DrainOnce(apply, anchor);
        if turn.Some? && turn.value.Ok? {
          CountedAgain(processedCount, Rest(apply, anchor));
          processedCount := processedCount + 1;
          rest := Rest(apply, anchor);
        } else {
          result := if turn.None? then Ok(processedCount) else Err(turn.value.error);
          done := true;
        }
      }
    }

    method DrainInputTasks() returns (result: Result<nat, M.Failure>)
      requires Valid()
      modifies Repr
      ensures Valid() && M.Outcome(result, State()) == M.DrainAll(config, old(State()))
    {
      var drained := DrainFrom(
        M.Accept(config), runtime.store.lastConsumedJournalSeq,
        Rest(M.Accept(config), runtime.store.lastConsumedJournalSeq));
      return if drained.Ok? then Ok(drained.value) else Err(M.ApplyFailed(drained.error));
    }

    /** One backend call a family, in order, up to the first error. */
    method EligibleLiveRecords(snapshotId: Bytes, w: M.World)
      returns (result: Result<seq<LiveRecord>, Bytes>, submitted: seq<Bytes>)
      ensures var families := M.Eligible(config, Ascending(config.targets));
              && result == M.LiveRecords(w, snapshotId, families)
              && submitted == M.Reached(w, snapshotId, families)
    {
      ghost var families := M.Eligible(config, Ascending(config.targets));
      ghost var rest := families;
      var records: seq<LiveRecord> := [];
      submitted := [];
      var keys := InOrder(config.targets);
      assert keys[0..] == keys;
      for n := 0 to |keys|
        invariant families == submitted + rest && rest == M.Eligible(config, keys[n..])
        invariant M.LiveRecords(w, snapshotId, submitted) == Ok(records)
      {
        var family := keys[n];
        ghost var before := rest;
        rest := M.Eligible(config, keys[n + 1..]);
        assert keys[n..][1..] == keys[n + 1..];
        if family in config.ready && M.Approved(config, family) {
          assert before == [family] + rest;
          var record := w.live(snapshotId, family);
          M.LiveRecordsExtend(w, snapshotId, submitted, family, rest);
          M.Regroup(submitted, family, rest);
          submitted := submitted + [family];
          if record.Err? {
            return Err(record.error), submitted;
          }
          records := records + [record.value];
        }
      }
      assert families == submitted;
      M.LiveRecordsExtend(w, snapshotId, submitted, [], []);
      return Ok(records), submitted;
    }

    method SubmitRecord(record: LiveRecord, submitRef: Bytes, journalSeq: int, w: M.World, ghost submit: M.Submitter)
      returns (result: Result<ApplyResult, ApplyError>)
      requires Valid() && M.SubmitRef(record) == Some(submitRef) && M.Submits(config, w, submit)
      modifies Repr
      ensures Valid()
      ensures var submitted := submit(old(State()), record, journalSeq);
              && (result.Err? <==> submitted.Err?)
              && (result.Err? ==> submitted.error == result.error && State() == old(State()))
              && (result.Ok? ==> State() == submitted.value)
    {
      assert submit(State(), record, journalSeq) == M.SubmitOne(config, w, State(), record, journalSeq);
      result := CommitInput(M.SubmitFact(journalSeq, record, submitRef, w.clock(journalSeq)));
    }

    method ApplyLiveSubmitFacts(records: seq<LiveRecord>, w: M.World) returns (result: Result<nat, M.Failure>)
      requires Valid()
      modifies Repr
      ensures Valid()
      ensures M.Outcome(result, State()) ==
              M.ApplySubmits(M.Submitting(config, w), old(State()), records,
                             old(State()).core.facts.lastConsumed.GetOr(0))
    {
      var lastSeq := runtime.store.lastConsumedJournalSeq.GetOr(0);
      result := SubmitAll(records, w, lastSeq, M.Submitting(config, w),
                          M.ApplySubmits(M.Submitting(config, w), State(), records, lastSeq));
    }

    ghost function Plus(n: nat, o: M.Outcome): M.Outcome {
      o.(result := if o.result.Ok? then Ok(n + o.result.value) else o.result)
    }

    lemma PlusAgain(n: nat, o: M.Outcome)
      ensures Plus(n, Plus(1, o)) == Plus(n + 1, o)
    {
    }

    /** The loop of `apply_live_submit_facts`, from the last consumed sequence on. */
    method SubmitAll(records: seq<LiveRecord>, w: M.World, lastSeq: int, ghost submit: M.Submitter,
                     ghost whole: M.Outcome)
      returns (result: Result<nat, M.Failure>)
      requires Valid() && M.Submits(config, w, submit)
      requires whole == M.ApplySubmits(submit, State(), records, lastSeq)
      modifies Repr
      ensures Valid() && M.Outcome(result, State()) == whole
    {
      var nextSeq, appliedCount, i := lastSeq, 0, 0;
      ghost var rest := whole;
      assert records[i..] == records;
      while i < |records|
        invariant 0 <= i <= |records| && Valid()
        invariant rest == M.ApplySubmits(submit, State(), records[i..], nextSeq)
        invariant whole == Plus(appliedCount, rest)
      {
        var record := records[i];
        assert records[i..][0] == record && records[i..][1..] == records[i + 1..];
        i := i + 1;
        var submitRef := M.SubmitRef(record);
        if submitRef.None? {
          continue;
        }
        appliedCount := appliedCount + 1;
        nextSeq := nextSeq + 1;
        var landed := SubmitRecord(record, submitRef.value, nextSeq, w, submit);
        if landed.Err? {
          return Err(M.ApplyFailed(landed.error));
        }
        if runtime.store.pendingReconcileAnchors != map[] {
          return Ok(appliedCount);
        }
        ghost var after := M.ApplySubmits(submit, State(), records[i..], nextSeq);
        assert rest == Plus(1, after);
        PlusAgain(appliedCount - 1, after);
        rest := after;
      }
      return Ok(appliedCount);
    }

    method RefreshLiveExecutionRecords(w: M.World, allowSynthesis: bool)
      returns (result: Result<nat, M.Failure>, submitted: seq<Bytes>)
      requires Valid()
      modifies Repr
      ensures Valid()
      ensures M.Refreshed(result, State(), submitted) == M.Refresh(config, old(State()), w, allowSynthesis)
    {
      submitted := [];
      if !config.liveMode || !allowSynthesis {
        return Ok(0), [];
      }
      if (if config.smoke then shadowAttempts != [] else liveRecords != []) {
        return Ok(0), [];
      }
      if runtime.publishedSnapshot.None? || evidence.None? || evidence.value.liveReadyFamilies == 0 {
        return Ok(0), [];
      }
      var snapshotId := runtime.publishedSnapshot.value.snapshotId;
      if config.smoke {
        var planned := w.shadow(snapshotId);
        if planned.Err? {
          return Err(M.BackendFailed(planned.error)), [];
        }
        if config.durableShadow && !w.shadowWriteOk {
          return Err(M.PersistenceFailed), [];
        }
        shadowAttempts, shadowArtifacts := planned.value.0, planned.value.1;
        liveRecords := [];
        return Ok(0), [];
      }
      var records;
      records, submitted := EligibleLiveRecords(snapshotId, w);
      if records.Err? {
        return Err(M.BackendFailed(records.error)), submitted;
      }
      var applied := ApplyLiveSubmitFacts(records.value, w);
      if applied.Err? {
        return applied, submitted;
      }
      var kept := M.Take(records.value, applied.value);
      if config.durableLive && !(w.liveWriteOk && forall r :: r in kept ==> M.SubmitRef(r).Some?) {
        return Err(M.PersistenceFailed), submitted;
      }
      liveRecords := kept;
      return Ok(0), submitted;
    }

    method FlushDispatch() returns (summary: D.DispatchSummary)
      requires Valid()
      modifies dispatcher
      ensures Valid() && State() == M.FlushDispatch(old(State()))
      ensures summary == D.Report(old(State()).core.dispatch)
    {
      summary := dispatcher.Flush();
    }

    method FinishTick(ghost submitted: seq<Bytes>, restoring: bool) returns (result: Result<nat, M.Failure>)
      requires Valid()
      modifies Repr
      ensures Valid()
              && M.Ticked(result, State(), submitted) == M.FinishTick(config, old(State()), submitted, restoring)
    {
      if restoring && config.seed.evidence.Some? {
        var valid := CheckEvidenceAnchor();
        if !valid {
          return Err(M.Divergence("rollout evidence"));
        }
      }
      if restoring && config.seed.liveRecords != [] {
        var valid := CheckLiveAnchor();
        if !valid {
          return Err(M.Divergence("live anchor"));
        }
      }
      var drained := DrainInputTasks();
      if drained.Err? {
        return drained;
      }
      var anchored := CheckLiveAnchor();
      if !anchored {
        return Err(M.Divergence("live anchor"));
      }
      var _ := FlushDispatch();
      return Ok(0);
    }

    method CheckLiveAnchor() returns (valid: bool)
      ensures valid == M.LiveAnchorValid(config, Core())
    {
      var published := runtime.publishedSnapshot;
      valid := !config.liveMode || config.smoke || evidence.None? || evidence.value.liveReadyFamilies == 0
        || (liveRecords != [] && published.Some?
            && forall r :: r in liveRecords ==> r.snapshotId == published.value.snapshotId);
    }

    method CheckEvidenceAnchor() returns (valid: bool)
      ensures valid == M.EvidenceAnchorValid(config, Core())
    {
      var store := runtime.store;
      var seed := config.seed;
      valid := !config.liveMode
        || (seed.lastJournalSeq.None? && M.CommittedVersion(seed) == 0 && store.lastConsumedJournalSeq == Some(0)
            && store.stateVersion == 0 && seed.evidence.None?)
        || (store.stateVersion == 0 && seed.publishedSnapshotId.None? && evidence.None?)
        || seed.evidence == evidence;
    }

    method CheckShadowAnchor() returns (valid: bool)
      ensures valid == M.ShadowAnchorValid(config, Core())
    {
      var published := runtime.publishedSnapshot;
      valid := !config.smoke || (config.seed.shadowAttempts == [] && config.seed.shadowArtifacts == [])
        || (published.Some? && shadowAttempts != [] && shadowArtifacts != []
            && forall a :: a in shadowAttempts ==> a.snapshotId == published.value.snapshotId);
    }

    method AdoptSeedRecords()
      modifies this`liveRecords, this`shadowAttempts, this`shadowArtifacts
      ensures Core() == M.AdoptSeedRecords(config, old(Core()))
    {
      liveRecords := config.seed.liveRecords;
      shadowAttempts, shadowArtifacts := config.seed.shadowAttempts, config.seed.shadowArtifacts;
      RetainCurrentLiveRecords();
      RetainCurrentShadowRecords();
    }

    method Forget()
      modifies this, runtime, runtime.store
      ensures Valid() && State() == old(State()).(core := M.Forget(old(Core())))
    {
      runtime.Reset();
      evidence := None;
      liveRecords, shadowAttempts, shadowArtifacts := [], [], [];
    }

    method RestoreSeededFacts(journalSeq: int)
      requires Valid() && State().core.facts == NO_FACTS
      modifies runtime.store
      ensures Valid()
      ensures State() == old(State()).(core := old(Core()).(
                reconciled := true, facts := M.SeededFacts(config.seed, journalSeq)))
    {
      var store := runtime.store;
      var anchors := config.seed.pendingReconcileAnchors;
      store.RestoreCommittedAnchor(M.CommittedVersion(config.seed), journalSeq);
      ghost var anchored := State();
      var i := 0;
      while i < |anchors|
        invariant 0 <= i <= |anchors| && Valid()
        invariant M.RestoreAnchors(map[], anchors) == M.RestoreAnchors(store.pendingReconcileAnchors, anchors[i..])
        invariant State() == anchored.(core := anchored.core.(
                    facts := anchored.core.facts.(pending := store.pendingReconcileAnchors)))
      {
        assert anchors[i..][1..] == anchors[i + 1..];
        store.RestorePendingReconcileAnchor(anchors[i]);
        i := i + 1;
      }
    }

    method RestoreSeededStartupState() returns (result: Result<nat, M.Failure>)
      requires Valid()
      modifies Repr
      ensures Valid() && committedLog == old(committedLog) && inputTasks.backlog == old(inputTasks.backlog)
      ensures M.Restored(result, Core()) == M.RestoreSeeded(config, old(Core()))
    {
      Forget();
      var seed := config.seed;
      if seed.lastJournalSeq.None? {
        return Err(M.Divergence("missing last journal sequence"));
      }
      RestoreSeededFacts(seed.lastJournalSeq.value);
      var expected := seed.pendingReconcileCount;
      if expected.Some? && expected.value != |runtime.store.pendingReconcileAnchors| {
        return Err(M.Divergence("pending reconcile count"));
      }
      PublishCurrentSnapshot(false);
      AdoptSeedRecords();
      var valid := CheckShadowAnchor();
      return if valid then Ok(0) else Err(M.Divergence("shadow anchor"));
    }

    method CheckSynthesisAllowed() returns (allowed: bool)
      ensures allowed == M.AllowSynthesis(config, State())
    {
      var store := runtime.store;
      var seed := config.seed;
      allowed :=
        || (!M.HasSeed(seed) && seed.evidence.None? && committedLog == []
            && store.lastConsumedJournalSeq == Some(0) && store.stateVersion == 0)
        || (M.HasSeed(seed) && store.pendingReconcileAnchors == map[] && liveRecords == [] && shadowAttempts == []
            && seed.pendingReconcileAnchors == [] && seed.evidence.None?);
    }

    method RunOnce(w: M.World) returns (result: Result<nat, M.Failure>, submitted: seq<Bytes>)
      requires Valid()
      modifies Repr
      ensures Valid() && M.Ticked(result, State(), submitted) == M.RunOnce(config, old(State()), w)
    {
      var restoring := !runtime.store.firstReconcileSucceeded && M.HasSeed(config.seed);
      if restoring {
        var restored := RestoreSeededStartupState();
        if restored.Err? {
          return restored, [];
        }
      } else if !runtime.store.firstReconcileSucceeded {
        runtime.BootstrapOnce(config.bootstrapClean);
      }
      result, submitted := RunStarted(w, restoring);
    }

    /** The part of `run_once` after startup. */
    method RunStarted(w: M.World, restoring: bool) returns (result: Result<nat, M.Failure>, submitted: seq<Bytes>)
      requires Valid()
      modifies Repr
      ensures Valid() && M.Ticked(result, State(), submitted) == M.RunStarted(config, old(State()), w, restoring)
    {
      var allow := CheckSynthesisAllowed();
      PublishCurrentSnapshot(allow);
      result, submitted := RefreshLiveExecutionRecords(w, allow);
      if result.Ok? {
        result := FinishTick(submitted, restoring);
      }
    }

    method PublishRestored() returns (result: Result<nat, M.Failure>)
      requires Valid()
      modifies this`evidence, this`liveRecords, this`shadowAttempts, this`shadowArtifacts,
               runtime`publishedSnapshot, dispatcher
      ensures Valid() && M.Restored(result, Core()) == M.PublishRestored(config, old(Core()))
    {
      var store := runtime.store;
      var seed := config.seed;
      if store.stateVersion != M.CommittedVersion(seed) {
        return Err(M.Divergence("state version"));
      }
      if store.lastConsumedJournalSeq != Some(seed.lastJournalSeq.GetOr(0)) {
        return Err(M.Divergence("last journal sequence"));
      }
      if store.stateVersion > 0 || seed.publishedSnapshotId.Some? || seed.lastStateVersion == 0 {
        PublishCurrentSnapshot(false);
      }
      AdoptSeedRecords();
      var shadowValid := CheckShadowAnchor();
      if !shadowValid {
        return Err(M.Divergence("shadow anchor"));
      }
      var evidenceValid := CheckEvidenceAnchor();
      return if evidenceValid then Ok(0) else Err(M.Divergence("rollout evidence"));
    }

    method Revalidate() returns (result: Result<nat, M.Failure>)
      requires Valid()
      modifies Repr
      ensures Valid() && committedLog == old(committedLog) && inputTasks.backlog == old(inputTasks.backlog)
      ensures M.Restored(result, Core()) == M.Revalidate(config, old(Core()))
    {
      var store := runtime.store;
      var expected := config.seed.pendingReconcileCount;
      if expected == Some(0) {
        store.ClearPendingReconcileAfterRestore();
      } else if expected.Some? && expected.value != |store.pendingReconcileAnchors| {
        return Err(M.Divergence("pending reconcile count"));
      } else if expected.None? && store.pendingReconcileAnchors != map[] {
        return Err(M.Divergence("missing pending reconcile count"));
      }
      result := PublishRestored();
    }

    method FinishResume() returns (result: Result<nat, M.Failure>)
      requires Valid()
      modifies Repr
      ensures Valid() && M.Outcome(result, State()) == M.FinishResume(config, old(State()))
    {
      result := DrainInputTasks();
      if result.Err? {
        return;
      }
      if runtime.publishedSnapshot.None? && runtime.store.stateVersion > 0 {
        PublishCurrentSnapshot(false);
      }
      var valid := CheckLiveAnchor();
      if !valid {
        return Err(M.Divergence("live anchor"));
      }
      var _ := FlushDispatch();
    }

    method ResumeOnce() returns (result: Result<nat, M.Failure>)
      requires Valid()
      modifies Repr
      ensures Valid() && M.Outcome(result, State()) == M.Resume(config, old(State()))
    {
      Forget();
      var seed := config.seed;
      if seed.lastJournalSeq.None? && !(M.CommittedVersion(seed) == 0 && committedLog == []) {
        return Err(M.Divergence("missing last journal sequence"));
      }
      var replayed := runtime.ReplayCommittedHistory(committedLog);
      if replayed.Err? {
        return replayed;
      }
      var valid := Revalidate();
      if valid.Err? {
        return valid;
      }
      result := FinishResume();
    }
  }
}
