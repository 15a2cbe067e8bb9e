/** A resume rebuilds the live run from the committed log: crates/app-live/src/supervisor.rs
    and runtime.rs over the store of crates/state. */
module ResumeProperties {
  import opened Options
  import opened StableSort
  import opened StateFacts
  import opened StateStores
  import opened Ingress
  import opened DrainProperties
  import opened FactFolds
  import opened FactAgreement
  import opened Healing
  import opened Redelivery
  import opened SupervisorModel
  import Text

  lemma AcceptProjects(c: Config, s: Core, input: InputTaskEvent)
    ensures AcceptInput(c, s, input).Ok? ==> ApplyOnly(s.facts, input) == Ok(AcceptInput(c, s, input).value.facts)
    ensures AcceptInput(c, s, input).Err? ==> ApplyOnly(s.facts, input) == Err(AcceptInput(c, s, input).error)
  {
  }

  /** Publishing, dispatching and record keeping never feed back into the facts. */
  lemma {:induction false} FoldProjects(c: Config, s: Core, batch: seq<InputTaskEvent>)
    ensures var whole := Fold(Accept(c), s, batch); var facts := Fold(FactsApplier(), s.facts, batch);
            && (whole.Ok? ==> facts == Ok(whole.value.facts))
            && (whole.Err? ==> facts == Err(whole.error))
    decreases |batch|
  {
    if batch != [] {
      AcceptProjects(c, s, batch[0]);
      assert Accept(c)(s, batch[0]) == AcceptInput(c, s, batch[0]);
      assert FactsApplier()(s.facts, batch[0]) == ApplyOnly(s.facts, batch[0]);
      if AcceptInput(c, s, batch[0]).Ok? {
        FoldProjects(c, AcceptInput(c, s, batch[0]).value, batch[1..]);
      }
    }
  }

  lemma {:induction false} TakenProjects(c: Config, s: Core, batch: seq<InputTaskEvent>)
    ensures Taken(Accept(c), s, batch) == Taken(FactsApplier(), s.facts, batch)
    decreases |batch|
  {
    if batch != [] {
      AcceptProjects(c, s, batch[0]);
      assert Accept(c)(s, batch[0]) == AcceptInput(c, s, batch[0]);
      assert FactsApplier()(s.facts, batch[0]) == ApplyOnly(s.facts, batch[0]);
      if AcceptInput(c, s, batch[0]).Ok? {
        TakenProjects(c, AcceptInput(c, s, batch[0]).value, batch[1..]);
      }
    }
  }

  /** What a drain of this state consumes: everything above the anchor, up to the first refusal. */
  function DrainedBatch(s: State): seq<InputTaskEvent> {
    var batch := Batch(s.queue, s.core.facts.lastConsumed);
    batch[..Taken(FactsApplier(), s.core.facts, batch)]
  }

  /** The facts, log and queue a drain leaves. */
  lemma DrainLeaves(c: Config, s: State)
    requires Sorted(s.queue, BySeq)
    ensures var t := DrainAll(c, s).state; var batch := DrainedBatch(s);
            && Fold(FactsApplier(), s.core.facts, batch) == Ok(t.core.facts)
            && t.log == CommitAll(s.log, batch)
            && (forall x :: x in t.queue ==> x in s.queue)
  {
    var anchor := s.core.facts.lastConsumed;
    TakenProjects(c, s.core, Batch(s.queue, anchor));
    DrainConsumesBatch(Accept(c), s.core, s.log, s.queue, anchor);
    FoldProjects(c, s.core, DrainedBatch(s));
  }

  lemma DrainedIsFresh(s: State)
    requires Sorted(s.queue, BySeq)
    ensures FreshBatch(s.core.facts, DrainedBatch(s))
    ensures forall x :: x in DrainedBatch(s) ==> x in s.queue
  {
    var anchor := s.core.facts.lastConsumed;
    BatchIsEverythingAfter(s.queue, anchor);
    TakenFolds(FactsApplier(), s.core.facts, Batch(s.queue, anchor));
    assert forall x :: x in DrainedBatch(s) ==> x in Batch(s.queue, anchor);
  }

  // ----- When a drain succeeds -----

  /** A drain succeeds if and only if no two pending entries above its anchor bind one
      sequence to different facts. */
  lemma DrainSucceedsIff(c: Config, s: State)
    requires Sorted(s.queue, BySeq) && BoundedBy(s.core.facts.consumed, s.core.facts.lastConsumed)
    ensures DrainAll(c, s).result.Ok? <==> OneFactPerSeq(Batch(s.queue, s.core.facts.lastConsumed))
  {
    var anchor := s.core.facts.lastConsumed;
    var batch := Batch(s.queue, anchor);
    BatchIsEverythingAfter(s.queue, anchor);
    DrainFolds(Accept(c), s.core, s.log, s.queue, anchor);
    FoldProjects(c, s.core, batch);
    FoldAboveSucceedsIff(s.core.facts, batch);
  }

  // ----- The committed log carries the whole fact state -----

  /** The facts a supervisor starts from: a new store, anchored at sequence 0 once bootstrapped. */
  function StartFacts(bootstrapped: bool): Facts {
    if bootstrapped then Baseline(NO_FACTS, 0) else NO_FACTS
  }

  /** Exactly when every sequence a drain consumes leaves the log a faithful record of the facts, and
      exactly when the drain as a whole does, however it ends. */
  lemma DrainKeepsLogged(c: Config, s: State, start: Facts)
    requires Sorted(s.queue, BySeq) && Logged(start, s.core.facts, s.log)
    ensures FaithfulThroughout(start, s.core.facts, s.log, DrainedBatch(s))
            <==> HarmlessBatch(s.core.facts.applied.Keys, DrainedBatch(s))
    ensures Logged(start, DrainAll(c, s).state.core.facts, DrainAll(c, s).state.log)
            <==> Stale(s.core.facts.applied.Keys, DrainedBatch(s)) == {}
  {
    DrainedIsFresh(s);
    DrainLeaves(c, s);
    BatchReplaysIff(start, s.core.facts, s.log, DrainedBatch(s));
    EndsFaithfulIff(start, s.core.facts, s.log, DrainedBatch(s));
  }

  // ----- Replaying the log -----

  lemma ReplayStepIsApply(r: Replayed, input: InputTaskEvent)
    ensures ReplayStep(r, input).result.Ok? <==> r.result.Ok? && ApplyOnly(r.facts, input).Ok?
    ensures ReplayStep(r, input).result.Ok? ==> ApplyOnly(r.facts, input) == Ok(ReplayStep(r, input).facts)
  {
  }

  lemma {:induction false} ReplayIsAnyFold(apply: Applier<Facts, ApplyError>, history: seq<InputTaskEvent>)
    requires AppliesFacts(apply)
    ensures var folded := Fold(apply, NO_FACTS, history);
            && (Replay(history).result.Ok? <==> folded.Ok?)
            && (folded.Ok? ==> Replay(history).facts == folded.value)
  {
    if history != [] {
      var n := |history| - 1;
      var front := Replay(history[..n]);
      ReplayIsAnyFold(apply, history[..n]);
      assert history == history[..n] + [history[n]];
      FoldAppend(apply, NO_FACTS, history[..n], history[n]);
      ReplayStepIsApply(front, history[n]);
    }
  }

  /** The facts of a replay are the fold of the history from a new store. */
  lemma ReplayIsFold(history: seq<InputTaskEvent>)
    ensures Replay(history).result.Ok? <==> Fold(FactsApplier(), NO_FACTS, history).Ok?
    ensures Replay(history).result.Ok? ==> Fold(FactsApplier(), NO_FACTS, history) == Ok(Replay(history).facts)
  {
    FactsApplierApplies();
    ReplayIsAnyFold(FactsApplier(), history);
  }

  /** A replay without an applied anchor applied nothing, and wanted reconciling if it saw anything. */
  lemma {:induction false} ReplayWithoutAnchor(history: seq<InputTaskEvent>)
    requires Replay(history).result.Ok?
    ensures var r := Replay(history);
            && (r.facts.lastApplied.None? <==> r.facts.stateVersion == 0)
            && (r.facts.lastApplied.None? ==> r.facts.applied == map[] && (history == [] || r.reconcileRequired))
  {
    if history != [] {
      var n := |history| - 1;
      ReplayWithoutAnchor(history[..n]);
      ReplayStepApplied(Replay(history[..n]), history[n]);
    }
  }

  lemma ReplayStepApplied(r: Replayed, input: InputTaskEvent)
    requires r.result.Ok? && ApplyFacts(r.facts, input).result.Ok?
    requires r.facts.lastApplied.None? <==> r.facts.stateVersion == 0
    requires r.facts.lastApplied.None? ==> r.facts.applied == map[]
    ensures var t := ReplayStep(r, input);
            && (t.facts.lastApplied.None? <==> t.facts.stateVersion == 0)
            && (t.facts.lastApplied.None? ==> t.facts.applied == map[] && t.reconcileRequired)
  {
    OnlyApplyingAdvances(r.facts, input);
  }

  /** Folding one log from a new store and from the bootstrapped baseline gives the same
      facts, except that a log in which nothing was ever applied leaves no applied anchor. */
  lemma {:induction false} BaselineDoesNotMatter(log: seq<InputTaskEvent>, f: Facts)
    requires Fold(FactsApplier(), StartFacts(true), log) == Ok(f)
    ensures var g := Fold(FactsApplier(), NO_FACTS, log);
            && g.Ok?
            && g.value == f.(lastConsumed := if log == [] then None else f.lastConsumed,
                             lastApplied := if f.stateVersion == 0 then None else f.lastApplied)
            && (f.stateVersion == 0 ==> f.lastApplied == Some(0))
            && (log != [] ==> f.lastConsumed.Some?)
  {
    if log != [] {
      var n := |log| - 1;
      var front, last := log[..n], log[n];
      assert log == front + [last];
      FoldAppend(FactsApplier(), StartFacts(true), front, last);
      FoldAppend(FactsApplier(), NO_FACTS, front, last);
      var f0 := Fold(FactsApplier(), StartFacts(true), front).value;
      BaselineDoesNotMatter(front, f0);
      var g0 := Fold(FactsApplier(), NO_FACTS, front).value;
      assert FactsApplier()(f0, last) == ApplyOnly(f0, last);
      assert FactsApplier()(g0, last) == ApplyOnly(g0, last);
      AcceptanceIff(f0, last);
      AcceptanceIff(g0, last);
      assert front == [] ==> f0 == StartFacts(true) && g0 == NO_FACTS;
      AnchorsDoNotMatter(f0, g0, last);
      OnlyApplyingAdvances(f0, last);
    }
  }

  /** What a resume rebuilds from a faithful log: exactly the live facts, if and only if the
      log is empty or the live run had applied something. Otherwise only the applied anchor is
      missing, and with it everything that waits for one, such as publishing a snapshot. */
  lemma ResumeRebuildsFacts(f: Facts, log: seq<InputTaskEvent>)
    requires Logged(StartFacts(true), f, log)
    ensures Replay(log).result.Ok?
    ensures Rebuilt(Replay(log)) == f <==> log == [] || f.stateVersion > 0
    ensures log != [] ==> Rebuilt(Replay(log)) == f.(lastApplied := if f.stateVersion == 0 then None else f.lastApplied)
  {
    BaselineDoesNotMatter(log, f);
    ReplayIsFold(log);
    ReplayWithoutAnchor(log);
    if log == [] {
      assert Replay(log) == Replayed(Ok(0), NO_FACTS, false);
    }
  }

  /** After such a resume no snapshot is published, though the live run had one. */
  lemma UnappliedResumePublishesNothing(c: Config, s: State)
    requires Logged(StartFacts(true), s.core.facts, s.log) && s.log != [] && s.core.facts.stateVersion == 0
    ensures var resumed := Forget(s.core).(facts := Rebuilt(Replay(s.log)), reconciled := true);
            Publish(c, resumed, false).published.None? && Publish(c, s.core, false).published.Some?
  {
    ResumeRebuildsFacts(s.core.facts, s.log);
    BaselineDoesNotMatter(s.log, s.core.facts);
  }

  // ----- Resuming and then draining -----

  lemma {:induction false} FoldIgnoresLastApplied(f: Facts, g: Facts, batch: seq<InputTaskEvent>)
    requires f == g.(lastApplied := f.lastApplied)
    ensures var f' := Fold(FactsApplier(), f, batch); var g' := Fold(FactsApplier(), g, batch);
            && (f'.Ok? <==> g'.Ok?)
            && (f'.Ok? ==>
                && f'.value == g'.value.(lastApplied := f'.value.lastApplied)
                && f'.value.stateVersion >= f.stateVersion
                && (f == g || f'.value.stateVersion > f.stateVersion ==> f'.value == g'.value))
    decreases |batch|
  {
    if batch != [] {
      AcceptanceIff(f, batch[0]);
      AcceptanceIff(g, batch[0]);
      assert FactsApplier()(f, batch[0]) == ApplyOnly(f, batch[0]);
      assert FactsApplier()(g, batch[0]) == ApplyOnly(g, batch[0]);
      if ApplyOnly(f, batch[0]).Ok? {
        AnchorsDoNotMatter(f, g, batch[0]);
        OnlyApplyingAdvances(f, batch[0]);
        FoldIgnoresLastApplied(ApplyOnly(f, batch[0]).value, ApplyOnly(g, batch[0]).value, batch[1..]);
      }
    }
  }

  lemma PublishMovesNoFacts(c: Config, s: Core, allow: bool)
    ensures Publish(c, s, allow).facts == s.facts && Publish(c, s, allow).reconciled == s.reconciled
  {
  }

  lemma PublishRestoredMovesNoFacts(c: Config, s: Core)
    ensures PublishRestored(c, s).core.facts == s.facts && PublishRestored(c, s).core.reconciled == s.reconciled
  {
    PublishMovesNoFacts(c, s, false);
  }

  /** The rebuilt facts, less the pending items when the seed counts none. */
  function Recounted(seed: RuntimeSeed, f: Facts): Facts {
    if seed.pendingReconcileCount == Some(0) then f.(pending := map[]) else f
  }

  /** What a resume has before it drains. */
  lemma RevalidateRecounts(seeded: Config, s: Core)
    ensures Revalidate(seeded, s).core.facts == Recounted(seeded.seed, s.facts)
    ensures Revalidate(seeded, s).core.reconciled == s.reconciled
  {
    PublishRestoredMovesNoFacts(seeded, s.(facts := Recounted(seeded.seed, s.facts)));
  }

  lemma RevalidateKeepsFacts(seeded: Config, s: Core)
    requires seeded.seed.pendingReconcileCount == Some(0) ==> s.facts.pending == map[]
    ensures Revalidate(seeded, s).core.facts == s.facts && Revalidate(seeded, s).core.reconciled == s.reconciled
  {
    PublishRestoredMovesNoFacts(seeded, s);
  }

  /** The pending items a resume drops: all, if its seed counts none. */
  function Dropped(seed: RuntimeSeed, f: Facts): map<Text.Bytes, PendingReconcileAnchor> {
    if seed.pendingReconcileCount == Some(0) then f.pending else map[]
  }

  /** What folding one batch from the live facts and from the resumed ones leaves in common. */
  ghost predicate SameAfter(live: Facts, resumed: Facts, dropped: map<Text.Bytes, PendingReconcileAnchor>,
                            log: seq<InputTaskEvent>)
  {
    && live == resumed.(lastApplied := live.lastApplied, pending := live.pending)
    && AgreesUpTo(live, resumed, 0) && RestIsFrom(live.pending, resumed.pending, dropped)
    && (dropped == map[] && (live.stateVersion > 0 || log == []) ==> live == resumed)
  }

  lemma FoldAfterResume(seed: RuntimeSeed, f: Facts, g: Facts, batch: seq<InputTaskEvent>, log: seq<InputTaskEvent>)
    requires f == g.(lastApplied := f.lastApplied)
    requires f == g || (log != [] && f.stateVersion == 0)
    ensures var f' := Fold(FactsApplier(), f, batch); var g' := Fold(FactsApplier(), Recounted(seed, g), batch);
            && (f'.Ok? <==> g'.Ok?)
            && (f'.Ok? ==> SameAfter(f'.value, g'.value, Dropped(seed, f), log))
  {
    FoldSucceedsIffBinds(f, batch);
    FoldSucceedsIffBinds(Recounted(seed, g), batch);
    if Fold(FactsApplier(), f, batch).Ok? {
      FactsApplierApplies();
      FoldAgrees(FactsApplier(), f, Recounted(seed, g), 0, batch, Dropped(seed, f));
      FoldIgnoresLastApplied(f, g, batch);
      FoldKeepsAnchor(f, Recounted(seed, g), batch);
    }
  }

  /** The consumed anchor after a fold depends on nothing but the consumed sequences. */
  lemma {:induction false} FoldKeepsAnchor(f: Facts, g: Facts, batch: seq<InputTaskEvent>)
    requires f.consumed == g.consumed && f.lastConsumed == g.lastConsumed
    requires Fold(FactsApplier(), f, batch).Ok? && Fold(FactsApplier(), g, batch).Ok?
    ensures Fold(FactsApplier(), f, batch).value.lastConsumed == Fold(FactsApplier(), g, batch).value.lastConsumed
    decreases |batch|
  {
    if batch != [] {
      AcceptanceIff(f, batch[0]);
      AcceptanceIff(g, batch[0]);
      assert FactsApplier()(f, batch[0]) == ApplyOnly(f, batch[0]);
      assert FactsApplier()(g, batch[0]) == ApplyOnly(g, batch[0]);
      FoldKeepsAnchor(ApplyOnly(f, batch[0]).value, ApplyOnly(g, batch[0]).value, batch[1..]);
    }
  }

  /** A successful resume is a drain from the rebuilt facts. */
  lemma ResumeIsDrain(c: Config, s: State)
    requires Replay(s.log).result.Ok? && Resume(c, s).result.Ok?
    ensures var rebuilt := Forget(s.core).(facts := Rebuilt(Replay(s.log)), reconciled := true);
            var r := s.(core := Revalidate(c, rebuilt).core); var t := Resume(c, s); var d := DrainAll(c, r);
            && r.core.facts == Recounted(c.seed, Rebuilt(Replay(s.log)))
            && t.result == d.result && t.state.log == d.state.log && t.state.queue == d.state.queue
            && t.state.core.facts == d.state.core.facts
  {
    var rebuilt := Forget(s.core).(facts := Rebuilt(Replay(s.log)), reconciled := true);
    RevalidateRecounts(c, rebuilt);
    FinishResumeKeeps(c, s.(core := Revalidate(c, rebuilt).core));
  }

  /** Two drains of one queue whose facts fold alike. */
  lemma DrainsAgree(c: Config, s: State, seeded: Config, r: State)
    requires Sorted(s.queue, BySeq) && r.log == s.log && r.queue == s.queue
    requires r.core.facts.lastConsumed == s.core.facts.lastConsumed && DrainAll(seeded, r).result.Ok?
    requires Fold(FactsApplier(), s.core.facts, Batch(s.queue, s.core.facts.lastConsumed)).Ok?
             <==> Fold(FactsApplier(), r.core.facts, Batch(s.queue, s.core.facts.lastConsumed)).Ok?
    ensures var batch := Batch(s.queue, s.core.facts.lastConsumed);
            var live := DrainAll(c, s); var resumed := DrainAll(seeded, r);
            && live.result == resumed.result && live.state.log == resumed.state.log
            && live.state.queue == resumed.state.queue
            && Fold(FactsApplier(), s.core.facts, batch) == Ok(live.state.core.facts)
            && Fold(FactsApplier(), r.core.facts, batch) == Ok(resumed.state.core.facts)
  {
    var anchor := s.core.facts.lastConsumed;
    var batch := Batch(s.queue, anchor);
    DrainFolds(Accept(c), s.core, s.log, s.queue, anchor);
    DrainFolds(Accept(seeded), r.core, s.log, s.queue, anchor);
    FoldProjects(c, s.core, batch);
    FoldProjects(seeded, r.core, batch);
  }

  /** Resuming from a faithful log and then draining ends with the same result, log and queue as never
      having stopped, and with the same facts up to the applied anchor and the pending items the seed
      dropped. If it dropped none, the facts are equal as soon as either run has applied anything. */
  lemma ResumeEqualsNeverStopping(c: Config, s: State, seeded: Config)
    requires Sorted(s.queue, BySeq) && Logged(StartFacts(true), s.core.facts, s.log)
    requires Resume(seeded, s).result.Ok?
    ensures var live := DrainAll(c, s); var resumed := Resume(seeded, s);
            && live.result == resumed.result
            && live.state.log == resumed.state.log && live.state.queue == resumed.state.queue
            && SameAfter(live.state.core.facts, resumed.state.core.facts, Dropped(seeded.seed, s.core.facts), s.log)
  {
    var f := s.core.facts;
    ResumeRebuildsFacts(f, s.log);
    ResumeIsDrain(seeded, s);
    var rebuilt := Forget(s.core).(facts := Rebuilt(Replay(s.log)), reconciled := true);
    FoldAfterResume(seeded.seed, f, rebuilt.facts, Batch(s.queue, f.lastConsumed), s.log);
    DrainsAgree(c, s, seeded, s.(core := Revalidate(seeded, rebuilt).core));
  }

  lemma FinishResumeKeeps(c: Config, s: State)
    requires FinishResume(c, s).result.Ok?
    ensures var t := FinishResume(c, s); var d := DrainAll(c, s);
            && t.result == d.result && t.state.log == d.state.log && t.state.queue == d.state.queue
            && t.state.core.facts == d.state.core.facts
  {
  }

  // ----- When a resume succeeds -----

  /** What the seed says agrees with what the log rebuilds. */
  predicate SeedFits(seed: RuntimeSeed, f: Facts, log: seq<InputTaskEvent>) {
    && (seed.lastJournalSeq.Some? || (CommittedVersion(seed) == 0 && log == []))
    && f.lastConsumed == Some(seed.lastJournalSeq.GetOr(0))
    && f.stateVersion == CommittedVersion(seed)
    && (seed.pendingReconcileCount.None? ==> f.pending == map[])
    && (seed.pendingReconcileCount.Some? && seed.pendingReconcileCount.value != 0 ==>
          seed.pendingReconcileCount.value == |f.pending|)
  }

  /** The core a resume validates: rebuilt, published if it is to be, and with the seed's records. */
  function Republished(c: Config, s: State): Core {
    var core := Forget(s.core).(facts := Recounted(c.seed, Rebuilt(Replay(s.log))), reconciled := true);
    var publishes := core.facts.stateVersion > 0 || c.seed.publishedSnapshotId.Some? || c.seed.lastStateVersion == 0;
    AdoptSeedRecords(c, if publishes then Publish(c, core, false) else core)
  }

  /** The core a resume ends with, once it has drained. */
  function ResumedCore(c: Config, s: State): Core {
    var core := DrainAll(c, s.(core := Republished(c, s))).state.core;
    if core.published.None? && core.facts.stateVersion > 0 then Publish(c, core, false) else core
  }

  lemma RevalidateIff(c: Config, s: State)
    requires Replay(s.log).result.Ok?
    ensures var facts := Rebuilt(Replay(s.log));
            var valid := Revalidate(c, Forget(s.core).(facts := facts, reconciled := true));
            && (valid.result.Ok? ==> valid.core == Republished(c, s))
            && (valid.result.Ok? && (c.seed.lastJournalSeq.Some? || (CommittedVersion(c.seed) == 0 && s.log == [])) <==>
                && SeedFits(c.seed, facts, s.log)
                && ShadowAnchorValid(c, Republished(c, s)) && EvidenceAnchorValid(c, Republished(c, s)))
  {
  }

  lemma FinishResumeIff(c: Config, s: State)
    ensures var core := DrainAll(c, s).state.core;
            FinishResume(c, s).result.Ok? <==>
              && DrainAll(c, s).result.Ok?
              && LiveAnchorValid(c, if core.published.None? && core.facts.stateVersion > 0
                                    then Publish(c, core, false) else core)
  {
  }

  lemma ResumeIff(c: Config, s: State)
    requires Replay(s.log).result.Ok?
    ensures Resume(c, s).result.Ok? <==>
              && SeedFits(c.seed, Rebuilt(Replay(s.log)), s.log)
              && ShadowAnchorValid(c, Republished(c, s)) && EvidenceAnchorValid(c, Republished(c, s))
              && DrainAll(c, s.(core := Republished(c, s))).result.Ok?
              && LiveAnchorValid(c, ResumedCore(c, s))
  {
    RevalidateIff(c, s);
    FinishResumeIff(c, s.(core := Republished(c, s)));
  }

  /** From a faithful log a resume succeeds exactly when its seed fits what the log says, the seed's
      records and evidence fit the snapshot it publishes, nothing queued above the log binds one
      sequence to two facts, and the live records fit what is published in the end. */
  lemma ResumeSucceedsIff(c: Config, s: State)
    requires Sorted(s.queue, BySeq) && Logged(StartFacts(true), s.core.facts, s.log)
    ensures Resume(c, s).result.Ok? <==>
              && SeedFits(c.seed, s.core.facts, s.log)
              && ShadowAnchorValid(c, Republished(c, s)) && EvidenceAnchorValid(c, Republished(c, s))
              && OneFactPerSeq(Batch(s.queue, s.core.facts.lastConsumed))
              && LiveAnchorValid(c, ResumedCore(c, s))
  {
    ResumeRebuildsFacts(s.core.facts, s.log);
    LoggedShape(StartFacts(true), s.core.facts, s.log);
    ResumeIff(c, s);
    RepublishedFacts(c, s);
    DrainSucceedsIff(c, s.(core := Republished(c, s)));
  }

  lemma RepublishedFacts(c: Config, s: State)
    ensures Republished(c, s).facts == Recounted(c.seed, Rebuilt(Replay(s.log)))
  {
    PublishMovesNoFacts(c, Forget(s.core).(facts := Recounted(c.seed, Rebuilt(Replay(s.log))), reconciled := true),
                        false);
  }

  /** Without live or smoke mode only the seed and the queue decide. */
  lemma PlainResumeSucceedsIff(c: Config, s: State)
    requires Sorted(s.queue, BySeq) && Logged(StartFacts(true), s.core.facts, s.log)
    requires !c.liveMode && !c.smoke
    ensures Resume(c, s).result.Ok? <==>
              SeedFits(c.seed, s.core.facts, s.log) && OneFactPerSeq(Batch(s.queue, s.core.facts.lastConsumed))
  {
    ResumeSucceedsIff(c, s);
  }

  // ----- When the replay and the live run part -----

  /** Any number of deliveries under one new sequence, all of one fact: the live run and a replay of
      its log leave the same pending items if and only if the deliveries are harmless. */
  lemma RedeliveryReplaysIff(f: Facts, log: seq<InputTaskEvent>, n: int, key: FactKey, group: seq<InputTaskEvent>)
    requires Logged(StartFacts(true), f, log)
    requires Group(group, n, key) && group != [] && After(group[0], f.lastConsumed)
    ensures Fold(FactsApplier(), f, group).Ok? && Replay(CommitAll(log, group)).result.Ok?
    ensures Rebuilt(Replay(CommitAll(log, group))).pending == Fold(FactsApplier(), f, group).value.pending
            <==> Harmless(f.applied.Keys, group)
  {
    var log' := CommitAll(log, group);
    GroupReplaysIff(StartFacts(true), f, log, n, key, group);
    GroupFactsOnceIff(f, n, key, group);
    var once := GroupFacts(f, n, key, Once(group));
    BaselineDoesNotMatter(log', once);
    ReplayIsFold(log');
    ReplayWithoutAnchor(log');
    GroupIsLogged(log, group);
  }

  lemma GroupIsLogged(log: seq<InputTaskEvent>, batch: seq<InputTaskEvent>)
    requires batch != []
    ensures CommitAll(log, batch) != []
    decreases |batch|
  {
    if |batch| > 1 {
      GroupIsLogged(Commit(log, batch[0]), batch[1..]);
    } else {
      assert CommitAll(log, batch) == Commit(log, batch[0]);
    }
  }
}
