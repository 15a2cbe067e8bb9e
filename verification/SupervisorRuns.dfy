/** Safety over whole runs of the supervisor: crates/app-live/src/supervisor.rs. */
module SupervisorRuns {
  import opened Options
  import opened Text
  import opened StateFacts
  import opened StateStores
  import opened ExecutionRows
  import opened OrderedKeys
  import opened Ingress
  import opened DrainProperties
  import opened SupervisorModel
  import opened ResumeProperties

  datatype Event = Arrive(input: InputTaskEvent) | Tick(world: World) | ResumeTick

  ghost function AfterEvent(c: Config, s: State, e: Event): State {
    match e
    case Arrive(input) => s.(queue := Enqueued(s.queue, input))
    case Tick(w) => RunOnce(c, s, w).state
    case ResumeTick => Resume(c, s).state
  }

  ghost function Play(c: Config, s: State, events: seq<Event>): State {
    if events == [] then s else AfterEvent(c, Play(c, s, events[..|events| - 1]), events[|events| - 1])
  }

  /** What a resume rebuilds from the log. */
  ghost function Restarted(s: State): Core {
    Forget(s.core).(facts := Rebuilt(Replay(s.log)), reconciled := true)
  }

  /** The state a tick has after its startup, if that succeeds. */
  ghost function Started(c: Config, s: State): Option<State> {
    if s.core.reconciled then Some(s)
    else if HasSeed(c.seed) then
      var restored := RestoreSeeded(c, s.core);
      if restored.result.Err? then None else Some(s.(core := restored.core))
    else Some(s.(core := Bootstrap(c, s.core)))
  }

  predicate Restoring(c: Config, s: State) {
    !s.core.reconciled && HasSeed(c.seed)
  }

  /** The refresh of a started tick. */
  ghost function RefreshOfTick(c: Config, s: State, w: World): Refreshed {
    var allow := AllowSynthesis(c, s);
    Refresh(c, s.(core := Publish(c, s.core, allow)), w, allow)
  }

  lemma RunOnceStarts(c: Config, s: State, w: World)
    ensures var started := Started(c, s);
            RunOnce(c, s, w).state == if started.None? then s.(core := RestoreSeeded(c, s.core).core)
                                      else RunStarted(c, started.value, w, Restoring(c, s)).state
  {
  }

  // ----- A smoke run never goes live -----

  lemma PublishHoldsNoLive(c: Config, s: Core, allow: bool)
    requires s.liveRecords == []
    ensures Publish(c, s, allow).liveRecords == []
  {
  }

  lemma AcceptHoldsNoLive(c: Config, s: Core, input: InputTaskEvent)
    requires s.liveRecords == [] && AcceptInput(c, s, input).Ok?
    ensures AcceptInput(c, s, input).value.liveRecords == []
  {
  }

  lemma {:induction false} DrainHoldsNoLive(
      c: Config, core: Core, log: seq<InputTaskEvent>, queue: seq<InputTaskEvent>, anchor: Option<int>)
    requires core.liveRecords == []
    ensures Drain(Accept(c), core, log, queue, anchor).core.liveRecords == []
    decreases |queue|
  {
    var k := FirstAfter(queue, anchor);
    if k < |queue| {
      RemoveFirstShortens(queue, queue[k]);
      assert Accept(c)(core, queue[k]) == AcceptInput(c, core, queue[k]);
      var applied := AcceptInput(c, core, queue[k]);
      if applied.Ok? {
        AcceptHoldsNoLive(c, core, queue[k]);
        DrainHoldsNoLive(c, applied.value, Commit(log, queue[k]), RemoveFirst(queue, queue[k]), anchor);
      }
    }
  }

  /** The end of a tick either stops before the drain or is the drain, up to dispatching. */
  lemma FinishIsDrain(c: Config, s: State, submitted: seq<Bytes>, restoring: bool)
    ensures var t := FinishTick(c, s, submitted, restoring); var d := DrainAll(c, s).state;
            && t.submitted == submitted
            && (t.state == s || (t.state.log == d.log && t.state.queue == d.queue
                                 && t.state.core == d.core.(dispatch := t.state.core.dispatch)))
  {
  }

  lemma RefreshHoldsNoLive(c: Config, s: State, w: World, allow: bool)
    requires c.smoke && s.core.liveRecords == []
    ensures Refresh(c, s, w, allow).state.core.liveRecords == [] && Refresh(c, s, w, allow).submitted == []
  {
  }

  lemma StartedHoldsNoLive(c: Config, s: State, w: World, restoring: bool)
    requires c.smoke && s.core.liveRecords == []
    ensures RunStarted(c, s, w, restoring).state.core.liveRecords == []
    ensures RunStarted(c, s, w, restoring).submitted == []
  {
    var allow := AllowSynthesis(c, s);
    PublishHoldsNoLive(c, s.core, allow);
    var s1 := s.(core := Publish(c, s.core, allow));
    RefreshHoldsNoLive(c, s1, w, allow);
    var r := Refresh(c, s1, w, allow);
    FinishIsDrain(c, r.state, r.submitted, restoring);
    DrainHoldsNoLive(c, r.state.core, r.state.log, r.state.queue, r.state.core.facts.lastConsumed);
  }

  lemma RestoreHoldsNoLive(c: Config, s: Core)
    requires c.seed.liveRecords == []
    ensures RestoreSeeded(c, s).core.liveRecords == []
  {
  }

  lemma RevalidateHoldsNoLive(c: Config, s: Core)
    requires c.seed.liveRecords == [] && s.liveRecords == []
    ensures Revalidate(c, s).core.liveRecords == []
  {
  }

  lemma FinishResumeHoldsNoLive(c: Config, s: State)
    requires s.core.liveRecords == []
    ensures FinishResume(c, s).state.core.liveRecords == []
  {
    DrainHoldsNoLive(c, s.core, s.log, s.queue, s.core.facts.lastConsumed);
    PublishHoldsNoLive(c, DrainAll(c, s).state.core, false);
  }

  lemma ResumeHoldsNoLive(c: Config, s: State)
    requires c.seed.liveRecords == []
    ensures Resume(c, s).state.core.liveRecords == []
  {
    var s0 := Restarted(s);
    RevalidateHoldsNoLive(c, s0);
    FinishResumeHoldsNoLive(c, s.(core := Revalidate(c, s0).core));
  }

  /** A smoke supervisor seeded without live records never holds one, and no tick of it ever
      calls the live backend, whatever arrives and however often it resumes. */
  lemma {:induction false} SmokeNeverGoesLive(c: Config, events: seq<Event>, w: World)
    requires c.smoke && c.seed.liveRecords == []
    ensures Play(c, FRESH, events).core.liveRecords == []
    ensures RunOnce(c, Play(c, FRESH, events), w).submitted == []
  {
    var s := Play(c, FRESH, events);
    if events != [] {
      var front, last := Play(c, FRESH, events[..|events| - 1]), events[|events| - 1];
      SmokeNeverGoesLive(c, events[..|events| - 1], w);
      match last {
        case Arrive(input) =>
        case Tick(w') => TickHoldsNoLive(c, front, w');
        case ResumeTick => ResumeHoldsNoLive(c, front);
      }
    }
    TickHoldsNoLive(c, s, w);
  }

  lemma TickHoldsNoLive(c: Config, s: State, w: World)
    requires c.smoke && c.seed.liveRecords == [] && s.core.liveRecords == []
    ensures RunOnce(c, s, w).state.core.liveRecords == []
    ensures RunOnce(c, s, w).submitted == []
  {
    if s.core.reconciled {
      StartedHoldsNoLive(c, s, w, false);
    } else if HasSeed(c.seed) {
      RestoreHoldsNoLive(c, s.core);
      StartedHoldsNoLive(c, s.(core := RestoreSeeded(c, s.core).core), w, true);
    } else {
      StartedHoldsNoLive(c, s.(core := Bootstrap(c, s.core)), w, false);
    }
  }

  // ----- An unseeded live run submits once -----

  predicate Unseeded(c: Config) {
    !HasSeed(c.seed) && c.seed.evidence.None?
  }

  /** Until something is committed, the facts are those of a fresh start. */
  ghost predicate Pristine(s: State) {
    s.log == [] ==> s.core.facts == StartFacts(false) || s.core.facts == StartFacts(true)
  }

  lemma {:induction false} DrainOnlyAddsToLog(
      c: Config, core: Core, log: seq<InputTaskEvent>, queue: seq<InputTaskEvent>, anchor: Option<int>)
    ensures var d := Drain(Accept(c), core, log, queue, anchor);
            && (log != [] ==> d.log != [])
            && (d.log == [] ==> d.core == core)
    decreases |queue|
  {
    var k := FirstAfter(queue, anchor);
    if k < |queue| {
      RemoveFirstShortens(queue, queue[k]);
      var applied := Accept(c)(core, queue[k]);
      if applied.Ok? {
        CommitAddsSomething(log, queue[k]);
        DrainOnlyAddsToLog(c, applied.value, Commit(log, queue[k]), RemoveFirst(queue, queue[k]), anchor);
      }
    }
  }

  lemma CommitAddsSomething(log: seq<InputTaskEvent>, input: InputTaskEvent)
    ensures Commit(log, input) != []
  {
  }

  lemma {:induction false} SubmitsOnlyAddToLog(c: Config, s: State, records: seq<LiveRecord>, w: World, lastSeq: int)
    ensures var t := ApplySubmits(Submitting(c, w), s, records, lastSeq).state;
            && (s.log != [] ==> t.log != [])
            && (t.log == [] ==> t == s)
            && t.queue == s.queue
    decreases |records|
  {
    if records != [] {
      if SubmitRef(records[0]).None? {
        SubmitsOnlyAddToLog(c, s, records[1..], w, lastSeq);
      } else {
        var landed := Submitting(c, w)(s, records[0], lastSeq + 1);
        assert landed == SubmitOne(c, w, s, records[0], lastSeq + 1);
        if landed.Ok? {
          CommitAddsSomething(
            s.log, SubmitFact(lastSeq + 1, records[0], SubmitRef(records[0]).value, w.clock(lastSeq + 1)));
          SubmitsOnlyAddToLog(c, landed.value, records[1..], w, lastSeq + 1);
        }
      }
    }
  }

  lemma RefreshOnlyAddsToLog(c: Config, s: State, w: World, allow: bool)
    ensures var t := Refresh(c, s, w, allow).state;
            && (s.log != [] ==> t.log != [])
            && (t.log == [] ==> t.core.facts == s.core.facts && t.core.reconciled == s.core.reconciled)
            && t.queue == s.queue
  {
    if RefreshDue(c, s.core, allow) && !c.smoke {
      var id := s.core.published.value.snapshotId;
      var records := LiveRecords(w, id, Eligible(c, Ascending(c.targets)));
      if records.Ok? {
        SubmitsOnlyAddToLog(c, s, records.value, w, s.core.facts.lastConsumed.GetOr(0));
      }
    }
  }

  lemma FinishOnlyAddsToLog(c: Config, s: State, submitted: seq<Bytes>, restoring: bool)
    ensures var t := FinishTick(c, s, submitted, restoring).state;
            && (s.log != [] ==> t.log != [])
            && (t.log == [] ==> t.core.facts == s.core.facts && t.core.reconciled == s.core.reconciled)
  {
    FinishIsDrain(c, s, submitted, restoring);
    DrainOnlyAddsToLog(c, s.core, s.log, s.queue, s.core.facts.lastConsumed);
  }

  lemma TickOnlyAddsToLog(c: Config, s: State, w: World)
    requires Unseeded(c) && Pristine(s)
    ensures var t := RunOnce(c, s, w).state;
            Pristine(t) && (s.log != [] ==> t.log != [])
  {
    var s1 := if s.core.reconciled then s else s.(core := Bootstrap(c, s.core));
    var allow := AllowSynthesis(c, s1);
    PublishMovesNoFacts(c, s1.core, allow);
    var s2 := s1.(core := Publish(c, s1.core, allow));
    RefreshOnlyAddsToLog(c, s2, w, allow);
    var r := Refresh(c, s2, w, allow);
    FinishOnlyAddsToLog(c, r.state, r.submitted, false);
  }

  lemma CommittedLogEndsSynthesis(c: Config, s: State, w: World)
    requires Unseeded(c) && s.log != []
    ensures RunOnce(c, s, w).submitted == []
  {
    var s1 := if s.core.reconciled then s else s.(core := Bootstrap(c, s.core));
    assert !AllowSynthesis(c, s1);
  }

  lemma FinishResumeIsDrain(c: Config, s: State)
    ensures var t := FinishResume(c, s).state; var d := DrainAll(c, s).state;
            t.queue == d.queue && t.log == d.log && t.core.facts == d.core.facts
            && t.core.reconciled == d.core.reconciled
  {
    PublishMovesNoFacts(c, DrainAll(c, s).state.core, false);
  }

  lemma FinishResumeOnlyAddsToLog(c: Config, s: State)
    ensures var t := FinishResume(c, s).state;
            (s.log != [] ==> t.log != []) && (t.log == [] ==> t.core.facts == s.core.facts)
  {
    FinishResumeIsDrain(c, s);
    DrainOnlyAddsToLog(c, s.core, s.log, s.queue, s.core.facts.lastConsumed);
  }

  lemma ResumeOnlyAddsToLog(c: Config, s: State)
    requires Unseeded(c) && Pristine(s)
    ensures var t := Resume(c, s).state;
            Pristine(t) && (s.log != [] ==> t.log != [])
  {
    var rebuilt := Restarted(s);
    RevalidateKeepsFacts(c, rebuilt);
    FinishResumeOnlyAddsToLog(c, s.(core := Revalidate(c, rebuilt).core));
  }

  lemma {:induction false} PlayKeepsPristine(c: Config, s: State, events: seq<Event>)
    requires Unseeded(c) && Pristine(s)
    ensures Pristine(Play(c, s, events))
    ensures s.log != [] ==> Play(c, s, events).log != []
  {
    if events != [] {
      PlayKeepsPristine(c, s, events[..|events| - 1]);
      var front, last := Play(c, s, events[..|events| - 1]), events[|events| - 1];
      match last {
        case Arrive(input) =>
        case Tick(w) => TickOnlyAddsToLog(c, front, w);
        case ResumeTick => ResumeOnlyAddsToLog(c, front);
      }
    }
  }

  /** In any run of an unseeded supervisor evidence may be synthesised exactly while the bootstrap
      baseline is all there is: nothing committed, and the facts still those of a clean start. */
  lemma SynthesisAllowedIff(c: Config, events: seq<Event>)
    requires Unseeded(c)
    ensures var s := Play(c, FRESH, events);
            AllowSynthesis(c, s) <==> s.log == [] && s.core.facts == StartFacts(true)
  {
    PlayKeepsPristine(c, FRESH, events);
  }

  /** Once something is committed it may never be again, whatever happens; with seeded evidence it may
      not at any time. */
  lemma SynthesisEnds(c: Config, before: seq<Event>, after: seq<Event>)
    requires !HasSeed(c.seed)
    requires c.seed.evidence.Some? || Play(c, FRESH, before).log != []
    ensures !AllowSynthesis(c, Play(c, Play(c, FRESH, before), after))
  {
    if c.seed.evidence.None? {
      PlayKeepsPristine(c, FRESH, before);
      PlayKeepsPristine(c, Play(c, FRESH, before), after);
    }
  }

  /** The records of the refresh a tick makes, if it makes one. */
  ghost function RecordsOf(c: Config, w: World): Result<seq<LiveRecord>, Bytes> {
    LiveRecords(w, SnapshotId(0), Eligible(c, Ascending(c.targets)))
  }

  /** The first record that carries a reference, or the length if none does. */
  function FirstRef(records: seq<LiveRecord>): (k: nat)
    ensures k <= |records|
    ensures forall i :: 0 <= i < k ==> SubmitRef(records[i]).None?
    ensures k < |records| ==> SubmitRef(records[k]).Some?
  {
    if records == [] || SubmitRef(records[0]).Some? then 0 else 1 + FirstRef(records[1..])
  }

  lemma FreshSubmitIsAccepted(c: Config, core: Core, record: LiveRecord, submitRef: Bytes, now: int)
    requires core.facts == StartFacts(true)
    ensures var input := SubmitFact(1, record, submitRef, now); var landed := AcceptInput(c, core, input);
            && landed.Ok? && landed.value.facts.pending != map[]
            && landed.value == core.(facts := landed.value.facts, reconciled := true)
  {
    var input := SubmitFact(1, record, submitRef, now);
    assert ApplyHint(input).PendingReconcile?;
    var f := ApplyFacts(core.facts, input).facts;
    assert ApplyHint(input).anchor.pendingRef in f.pending;
  }

  lemma SubmissionOnlyWaits(f: Facts, record: LiveRecord, submitRef: Bytes, now: int)
    requires f == StartFacts(true)
    ensures ApplyFacts(f, SubmitFact(1, record, submitRef, now)).facts.stateVersion == 0
  {
    assert ApplyHint(SubmitFact(1, record, submitRef, now)).PendingReconcile?;
  }

  lemma FreshSubmitCommits(c: Config, w: World, s: State, record: LiveRecord)
    requires s.log == [] && s.core.facts == StartFacts(true) && SubmitRef(record).Some?
    ensures var submitted := SubmitOne(c, w, s, record, 1);
            && submitted.Ok?
            && submitted.value.log == [SubmitFact(1, record, SubmitRef(record).value, w.clock(1))]
            && submitted.value.core.facts.pending != map[] && submitted.value.core.facts.stateVersion == 0
  {
    var input := SubmitFact(1, record, SubmitRef(record).value, w.clock(1));
    FreshSubmitIsAccepted(c, s.core, record, SubmitRef(record).value, w.clock(1));
    CommitAppends([], input);
    SubmissionOnlyWaits(s.core.facts, record, SubmitRef(record).value, w.clock(1));
  }

  /** From a fresh start, whatever the number of families executed, exactly one submission is
      committed, the first that carries a reference, and exactly one record is counted. */
  lemma {:induction false} OneSubmissionIsCommitted(c: Config, s: State, records: seq<LiveRecord>, w: World)
    requires s.log == [] && s.core.facts == StartFacts(true)
    ensures var k := FirstRef(records); var applied := ApplySubmits(Submitting(c, w), s, records, 0);
            && (k == |records| ==> applied == Outcome(Ok(0), s))
            && (k < |records| ==>
                && applied.result == Ok(1)
                && applied.state.log == [SubmitFact(1, records[k], SubmitRef(records[k]).value, w.clock(1))]
                && applied.state.core.facts.pending != map[] && applied.state.core.facts.stateVersion == 0)
    decreases |records|
  {
    if records != [] {
      if SubmitRef(records[0]).None? {
        OneSubmissionIsCommitted(c, s, records[1..], w);
      } else {
        assert Submitting(c, w)(s, records[0], 1) == SubmitOne(c, w, s, records[0], 1);
        FreshSubmitCommits(c, w, s, records[0]);
      }
    }
  }

  lemma SubmittingTickIsFresh(c: Config, s: State, w: World)
    requires Unseeded(c) && Pristine(s) && RunOnce(c, s, w).submitted != []
    ensures s.log == []
    ensures var s1 := if s.core.reconciled then s else s.(core := Bootstrap(c, s.core));
            && s1.core.facts == StartFacts(true) && AllowSynthesis(c, s1)
            && !c.smoke && RefreshDue(c, Publish(c, s1.core, true), true)
            && RunOnce(c, s, w) == RunStarted(c, s1, w, false)
  {
    if s.log != [] {
      CommittedLogEndsSynthesis(c, s, w);
    }
    var s1 := if s.core.reconciled then s else s.(core := Bootstrap(c, s.core));
    assert RunOnce(c, s, w) == RunStarted(c, s1, w, false);
    assert AllowSynthesis(c, s1);
  }

  /** The refresh of a tick that submits: it goes live on what `RecordsOf` answers. */
  lemma SubmittingRefresh(c: Config, s: State, w: World)
    requires Unseeded(c) && Pristine(s) && RunOnce(c, s, w).submitted != []
    ensures var s2 := Refreshing(c, s); var r := Refresh(c, s2, w, true);
            && s2.log == [] && s2.queue == s.queue && s2.core.facts == StartFacts(true)
            && !c.smoke && RefreshDue(c, s2.core, true) && s2.core.published.value.snapshotId == SnapshotId(0)
            && RunOnce(c, s, w) == if r.result.Err? then Ticked(r.result, r.state, r.submitted)
                                   else FinishTick(c, r.state, r.submitted, false)
  {
    SubmittingTickIsFresh(c, s, w);
    var s1 := if s.core.reconciled then s else s.(core := Bootstrap(c, s.core));
    PublishMovesNoFacts(c, s1.core, true);
  }

  /** The state a tick of an unseeded supervisor refreshes, if it may synthesise evidence. */
  ghost function Refreshing(c: Config, s: State): State {
    var s1 := if s.core.reconciled then s else s.(core := Bootstrap(c, s.core));
    s1.(core := Publish(c, s1.core, true))
  }

  /** The submit fact of the first record that carries a reference. */
  function FirstSubmission(records: seq<LiveRecord>, w: World): InputTaskEvent
    requires FirstRef(records) < |records|
  {
    var first := records[FirstRef(records)];
    SubmitFact(1, first, SubmitRef(first).value, w.clock(1))
  }

  /** What such a refresh does with the records of the backend: the first that carries a reference is
      committed, and one record is kept, however many families were executed, unless a durable write
      is asked for and fails or finds a record without a reference. */
  lemma RefreshOutcome(c: Config, s: State, w: World)
    requires Unseeded(c) && Pristine(s) && RunOnce(c, s, w).submitted != []
    ensures var r := Refresh(c, Refreshing(c, s), w, true); var records := RecordsOf(c, w);
            && (records.Err? ==> r.result == Err(BackendFailed(records.error)) && r.state == Refreshing(c, s))
            && (records.Ok? && FirstRef(records.value) == |records.value| ==>
                && (r.result.Ok? <==> !(c.durableLive && !w.liveWriteOk))
                && r.state == if r.result.Ok? then Refreshing(c, s).(core := Refreshing(c, s).core.(liveRecords := []))
                              else Refreshing(c, s))
            && (records.Ok? && FirstRef(records.value) < |records.value| ==>
                && r.state.log == [FirstSubmission(records.value, w)]
                && (r.result.Ok? <==> !(c.durableLive && !(w.liveWriteOk && SubmitRef(records.value[0]).Some?)))
                && (r.result.Ok? ==> r.state.core.liveRecords == [records.value[0]]))
  {
    SubmittingRefresh(c, s, w);
    var s2 := Refreshing(c, s);
    var records := RecordsOf(c, w);
    if records.Ok? {
      OneSubmissionIsCommitted(c, s2, records.value, w);
      TakeAtMostOne(records.value);
    }
  }

  lemma TakeAtMostOne<T>(s: seq<T>)
    ensures Take(s, 0) == [] && (s != [] ==> Take(s, 1) == [s[0]])
  {
  }

  /** A successful tick that submitted families has committed something: if no record carried a
      reference, then a queued input, or else its own validation would have failed. */
  lemma SubmittingTickCommits(c: Config, s: State, w: World)
    requires Unseeded(c) && Pristine(s) && RunOnce(c, s, w).submitted != [] && RunOnce(c, s, w).result.Ok?
    ensures RunOnce(c, s, w).state.log != []
  {
    SubmittingRefresh(c, s, w);
    RefreshOutcome(c, s, w);
    var r := Refresh(c, Refreshing(c, s), w, true);
    FinishOnlyAddsToLog(c, r.state, r.submitted, false);
    if r.state.log == [] {
      assert !LiveAnchorValid(c, r.state.core);
      DrainOnlyAddsToLog(c, r.state.core, r.state.log, r.state.queue, r.state.core.facts.lastConsumed);
    }
  }

  /** In any run of an unseeded live supervisor, with any resumes, once a successful tick has handed
      families to the live backend no later tick hands one to it again. */
  lemma LiveFamiliesSubmittedOnce(c: Config, before: seq<Event>, w: World, between: seq<Event>, later: World)
    requires Unseeded(c)
    requires var tick := RunOnce(c, Play(c, FRESH, before), w); tick.result.Ok? && tick.submitted != []
    ensures var s := Play(c, FRESH, before); var t := Play(c, RunOnce(c, s, w).state, between);
            RunOnce(c, t, later).submitted == []
  {
    var s := Play(c, FRESH, before);
    PlayKeepsPristine(c, FRESH, before);
    SubmittingTickCommits(c, s, w);
    TickOnlyAddsToLog(c, s, w);
    var t := RunOnce(c, s, w).state;
    PlayKeepsPristine(c, t, between);
    CommittedLogEndsSynthesis(c, Play(c, t, between), later);
  }

  /** The refresh of a submitting tick keeps one record however many families it executed, exactly
      unless a durable write is asked for and cannot be made. The kept record is the one whose
      submission was committed if it carries a reference; a later record's is committed if it does not. */
  lemma OneRecordIsKept(c: Config, s: State, w: World)
    requires Unseeded(c) && Pristine(s) && RunOnce(c, s, w).submitted != []
    requires RecordsOf(c, w).Ok? && FirstRef(RecordsOf(c, w).value) < |RecordsOf(c, w).value|
    ensures var records := RecordsOf(c, w).value; var r := Refresh(c, Refreshing(c, s), w, true);
            && (r.result.Ok? <==> (c.durableLive ==> w.liveWriteOk && SubmitRef(records[0]).Some?))
            && (r.result.Ok? ==> r.state.core.liveRecords == [records[0]])
            && r.state.log == [FirstSubmission(records, w)]
            && (SubmitRef(records[0]).Some? ==>
                  r.state.log == [SubmitFact(1, records[0], SubmitRef(records[0]).value, w.clock(1))])
  {
    RefreshOutcome(c, s, w);
  }
}
