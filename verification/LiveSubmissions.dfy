/** When a supervisor goes live, and when it does so again: crates/app-live/src/supervisor.rs. */
module LiveSubmissions {
  import opened Options
  import opened Text
  import opened StateStores
  import opened OrderedKeys
  import opened Ingress
  import opened DrainProperties
  import opened SupervisorModel
  import opened ResumeProperties
  import opened SupervisorRuns

  // ----- When a started tick goes live -----

  /** The configuration asks for live submissions. */
  ghost predicate Willing(c: Config) {
    c.liveMode && !c.smoke && SyntheticReadyCount(c) != 0 && Eligible(c, Ascending(c.targets)) != []
  }

  lemma PublishWithSynthesis(c: Config, s: Core)
    requires s.liveRecords == []
    ensures var p := Publish(c, s, true);
            && p.liveRecords == []
            && (s.facts.lastApplied.None? ==> p.evidence.None?)
            && (s.facts.lastApplied.Some? ==>
                  && p.published == Some(SnapshotOf(s.facts))
                  && p.evidence == Some(EvidenceFor(c, SnapshotId(s.facts.stateVersion), true)))
  {
  }

  lemma SubmittedByRefresh(c: Config, s: State, w: World, restoring: bool)
    ensures RunStarted(c, s, w, restoring).submitted == RefreshOfTick(c, s, w).submitted
  {
    var r := RefreshOfTick(c, s, w);
    FinishIsDrain(c, r.state, r.submitted, restoring);
  }

  lemma ReachedSome(w: World, snapshotId: Bytes, families: seq<Bytes>)
    ensures Reached(w, snapshotId, families) == [] <==> families == []
  {
  }

  lemma RefreshSubmitsIff(c: Config, s: State, w: World, allow: bool)
    ensures Refresh(c, s, w, allow).submitted != [] <==>
              RefreshDue(c, s.core, allow) && !c.smoke && Eligible(c, Ascending(c.targets)) != []
  {
    if RefreshDue(c, s.core, allow) {
      ReachedSome(w, s.core.published.value.snapshotId, Eligible(c, Ascending(c.targets)));
    }
  }

  lemma DueIff(c: Config, s: Core)
    requires s.liveRecords == [] && !c.smoke
    ensures RefreshDue(c, Publish(c, s, true), true) <==>
              c.liveMode && SyntheticReadyCount(c) != 0 && s.facts.lastApplied.Some?
  {
    PublishWithSynthesis(c, s);
  }

  lemma AllowedRefreshSubmitsIff(c: Config, s: State, w: World)
    requires s.core.liveRecords == [] && AllowSynthesis(c, s)
    ensures RefreshOfTick(c, s, w).submitted != [] <==> Willing(c) && s.core.facts.lastApplied.Some?
  {
    RefreshSubmitsIff(c, s.(core := Publish(c, s.core, true)), w, true);
    if !c.smoke {
      DueIff(c, s.core);
    }
  }

  lemma StartedSubmitsIff(c: Config, s: State, w: World, restoring: bool)
    requires s.core.liveRecords == []
    ensures RunStarted(c, s, w, restoring).submitted != [] <==>
              Willing(c) && AllowSynthesis(c, s) && s.core.facts.lastApplied.Some?
  {
    SubmittedByRefresh(c, s, w, restoring);
    if AllowSynthesis(c, s) {
      AllowedRefreshSubmitsIff(c, s, w);
    }
  }

  // ----- When an unseeded supervisor goes live -----

  lemma FreshPublish(c: Config, s: Core)
    requires s.facts == StartFacts(true) && s.liveRecords == []
    ensures var p := Publish(c, s, true);
            && p.published.Some? && p.published.value.snapshotId == SnapshotId(0)
            && p.evidence == Some(EvidenceFor(c, SnapshotId(0), true)) && p.liveRecords == []
  {
  }

  ghost predicate Fresh(s: State) {
    s.log == [] && s.core.reconciled && s.core.facts == StartFacts(true) && s.core.liveRecords == []
  }

  /** Nothing has happened yet, as in `FRESH`, or only arrivals. */
  ghost predicate Unstarted(s: State) {
    s.log == [] && !s.core.reconciled && s.core.facts == NO_FACTS && s.core.liveRecords == []
  }

  /** A fresh tick goes live exactly when the configuration asks for it; the very first one, only if
      the bootstrap was clean. */
  lemma FreshTickSubmitsIff(c: Config, s: State, w: World)
    requires Unseeded(c) && (Fresh(s) || Unstarted(s))
    ensures RunOnce(c, s, w).submitted != [] <==> Willing(c) && (s.core.reconciled || c.bootstrapClean)
  {
    var s1 := if s.core.reconciled then s else s.(core := Bootstrap(c, s.core));
    StartedSubmitsIff(c, s1, w, false);
    assert AllowSynthesis(c, s1) <==> s.core.reconciled || c.bootstrapClean;
  }

  /** A fresh drain of anything at all commits something. */
  lemma FreshDrainCommitsIff(c: Config, s: State)
    requires s.log == [] && s.core.facts == StartFacts(true)
    ensures DrainAll(c, s).state.log == [] <==> Batch(s.queue, Some(0)) == []
  {
    var k := FirstAfter(s.queue, Some(0));
    DrainTurn(Accept(c), s.core, s.log, s.queue, Some(0));
    if k < |s.queue| {
      var input := s.queue[k];
      AcceptanceIff(s.core.facts, input);
      assert Accept(c)(s.core, input) == AcceptInput(c, s.core, input);
      CommitAddsSomething(s.log, input);
      DrainOnlyAddsToLog(c, AcceptInput(c, s.core, input).value, Commit(s.log, input), RemoveFirst(s.queue, input),
                         Some(0));
    }
  }

  /** What is left of a fresh tick after a refresh that kept no record, though records are called for. */
  lemma FreshFinish(c: Config, s: State, submitted: seq<Bytes>)
    requires s.log == [] && s.core.facts == StartFacts(true) && !LiveAnchorValid(c, s.core)
    ensures var t := FinishTick(c, s, submitted, false);
            && (t.state.log == [] <==> Batch(s.queue, Some(0)) == [])
            && (t.state.log == [] ==> t.result.Err? && t.state.core == s.core)
  {
    FreshDrainCommitsIff(c, s);
    DrainOnlyAddsToLog(c, s.core, s.log, s.queue, Some(0));
  }

  lemma NoRecordsNoAnchor(c: Config, s: Core, allow: bool)
    requires !c.smoke && RefreshDue(c, s, allow)
    ensures !LiveAnchorValid(c, s.(liveRecords := []))
  {
  }

  /** Exactly when a tick that goes live commits nothing, from a state in which nothing was committed. */
  lemma NothingCommittedFrom(c: Config, s: State, w: World)
    requires Unseeded(c) && (Fresh(s) || Unstarted(s)) && RunOnce(c, s, w).submitted != []
    ensures var records := RecordsOf(c, w);
            RunOnce(c, s, w).state.log == [] <==>
              || records.Err?
              || (FirstRef(records.value) == |records.value|
                  && ((c.durableLive && !w.liveWriteOk) || Batch(s.queue, Some(0)) == []))
    ensures RunOnce(c, s, w).state.log == [] ==> RunOnce(c, s, w).result.Err? && Fresh(RunOnce(c, s, w).state)
  {
    FreshTickSubmitsIff(c, s, w);
    SubmittingRefresh(c, s, w);
    RefreshOutcome(c, s, w);
    RefreshingIsIdle(c, s);
    NoRecordsNoAnchor(c, Refreshing(c, s).core, true);
    var r := Refresh(c, Refreshing(c, s), w, true);
    if r.result.Ok? && r.state.log == [] {
      FreshFinish(c, r.state, r.submitted);
    } else if r.result.Ok? {
      FinishOnlyAddsToLog(c, r.state, r.submitted, false);
    }
  }

  lemma RefreshingIsIdle(c: Config, s: State)
    requires Fresh(s) || (Unstarted(s) && c.bootstrapClean)
    ensures Refreshing(c, s).core.liveRecords == [] && Refreshing(c, s).core.reconciled
  {
    var s1 := if s.core.reconciled then s else s.(core := Bootstrap(c, s.core));
    FreshPublish(c, s1.core);
    PublishMovesNoFacts(c, s1.core, true);
  }

  // ----- Over every run -----

  /** Until something is committed, a supervisor is either fresh or has not started. */
  ghost predicate Idle(s: State) {
    s.log == [] ==> Fresh(s) || Unstarted(s)
  }

  lemma RefreshKeepsIdle(c: Config, s: State, w: World, allow: bool)
    requires s.log == [] && s.core.liveRecords == [] && (allow ==> s.core.facts == StartFacts(true))
    ensures var t := Refresh(c, s, w, allow).state;
            t.log == [] ==>
              t.core.liveRecords == [] && t.core.facts == s.core.facts && t.core.reconciled == s.core.reconciled
  {
    if RefreshDue(c, s.core, allow) && !c.smoke {
      var id := s.core.published.value.snapshotId;
      var records := LiveRecords(w, id, Eligible(c, Ascending(c.targets)));
      if records.Ok? {
        OneSubmissionIsCommitted(c, s, records.value, w);
        TakeAtMostOne(records.value);
      }
    }
  }

  lemma FinishKeepsIdle(c: Config, s: State, submitted: seq<Bytes>)
    ensures var t := FinishTick(c, s, submitted, false).state;
            && (s.log != [] ==> t.log != [])
            && (t.log == [] ==> t.core == s.core.(dispatch := t.core.dispatch))
  {
    FinishIsDrain(c, s, submitted, false);
    DrainOnlyAddsToLog(c, s.core, s.log, s.queue, s.core.facts.lastConsumed);
  }

  lemma IdleTick(c: Config, s: State, w: World)
    requires Unseeded(c) && (Fresh(s) || Unstarted(s))
    ensures Idle(RunOnce(c, s, w).state)
  {
    var s1 := if s.core.reconciled then s else s.(core := Bootstrap(c, s.core));
    var allow := AllowSynthesis(c, s1);
    PublishMovesNoFacts(c, s1.core, allow);
    PublishHoldsNoLive(c, s1.core, allow);
    var s2 := s1.(core := Publish(c, s1.core, allow));
    RefreshKeepsIdle(c, s2, w, allow);
    var r := Refresh(c, s2, w, allow);
    FinishKeepsIdle(c, r.state, r.submitted);
    RunOnceStarts(c, s, w);
  }

  lemma IdleResume(c: Config, s: State)
    requires Unseeded(c) && s.log == []
    ensures Idle(Resume(c, s).state)
  {
    var rebuilt := Restarted(s);
    RevalidateKeepsFacts(c, rebuilt);
    RevalidateHoldsNoLive(c, rebuilt);
    var r := s.(core := Revalidate(c, rebuilt).core);
    FinishResumeOnlyAddsToLog(c, r);
    FinishResumeIsDrain(c, r);
    DrainOnlyAddsToLog(c, r.core, r.log, r.queue, r.core.facts.lastConsumed);
    FinishResumeHoldsNoLive(c, r);
  }

  lemma {:induction false} PlayKeepsIdle(c: Config, s: State, events: seq<Event>)
    requires Unseeded(c) && Idle(s)
    ensures Idle(Play(c, s, events))
  {
    if events != [] {
      var n := |events| - 1;
      PlayKeepsIdle(c, s, events[..n]);
      EventKeepsIdle(c, Play(c, s, events[..n]), events[n]);
    }
  }

  lemma EventKeepsIdle(c: Config, s: State, e: Event)
    requires Unseeded(c) && Idle(s)
    ensures Idle(AfterEvent(c, s, e))
  {
    match e
    case Arrive(input) =>
    case Tick(w) =>
      if s.log == [] {
        IdleTick(c, s, w);
      } else {
        TickOnlyAddsToLog(c, s, w);
      }
    case ResumeTick =>
      if s.log == [] {
        IdleResume(c, s);
      } else {
        ResumeOnlyAddsToLog(c, s);
      }
  }

  /** At any moment of any run of an unseeded supervisor, resumes included, a tick goes live exactly when
      the configuration asks for it, nothing is committed yet, and the bootstrap is done or clean. */
  lemma RunTickSubmitsIff(c: Config, events: seq<Event>, w: World)
    requires Unseeded(c)
    ensures var s := Play(c, FRESH, events);
            RunOnce(c, s, w).submitted != [] <==> Willing(c) && s.log == [] && (s.core.reconciled || c.bootstrapClean)
  {
    var s := Play(c, FRESH, events);
    PlayKeepsIdle(c, FRESH, events);
    if s.log == [] {
      FreshTickSubmitsIff(c, s, w);
    } else {
      CommittedLogEndsSynthesis(c, s, w);
    }
  }

  /** Exactly when a tick that goes live, at any moment of any run, commits nothing: the backend fails, or
      no record carries a reference and then the durable write fails or nothing is queued above the
      baseline. Such a tick ends in an error. */
  lemma NothingCommittedIff(c: Config, before: seq<Event>, w: World)
    requires Unseeded(c) && RunOnce(c, Play(c, FRESH, before), w).submitted != []
    ensures var s := Play(c, FRESH, before); var tick := RunOnce(c, s, w); var records := RecordsOf(c, w);
            && (tick.state.log == [] <==>
                  || records.Err?
                  || (FirstRef(records.value) == |records.value|
                      && ((c.durableLive && !w.liveWriteOk) || Batch(s.queue, Some(0)) == [])))
            && (tick.state.log == [] ==> tick.result.Err?)
  {
    PlayKeepsIdle(c, FRESH, before);
    RunTickSubmitsIff(c, before, w);
    NothingCommittedFrom(c, Play(c, FRESH, before), w);
  }

  /** After a tick that went live, at any moment of any run, the very next tick submits every family
      again if and only if the first committed nothing, and then the first ended in an error. */
  lemma SubmissionsRepeatIff(c: Config, before: seq<Event>, w: World, next: World)
    requires Unseeded(c) && RunOnce(c, Play(c, FRESH, before), w).submitted != []
    ensures var tick := RunOnce(c, Play(c, FRESH, before), w);
            && (RunOnce(c, tick.state, next).submitted != [] <==> tick.state.log == [])
            && (tick.state.log == [] ==> tick.result.Err?)
  {
    var s := Play(c, FRESH, before);
    PlayKeepsIdle(c, FRESH, before);
    RunTickSubmitsIff(c, before, w);
    FreshTickSubmitsIff(c, s, w);
    NothingCommittedFrom(c, s, w);
    var t := RunOnce(c, s, w).state;
    if t.log == [] {
      FreshTickSubmitsIff(c, t, next);
    } else {
      CommittedLogEndsSynthesis(c, t, next);
    }
  }
}
