/** When a seeded supervisor goes live, and under which snapshots: crates/app-live/src/supervisor.rs. */
module SeededSubmissions {
  import opened Options
  import opened Text
  import opened StateFacts
  import opened StateStores
  import opened ExecutionRows
  import opened OrderedKeys
  import opened Ingress
  import opened DrainProperties
  import opened SupervisorModel
  import opened ResumeProperties
  import opened SupervisorRuns
  import opened FaithfulRuns
  import opened LiveSubmissions

  // ----- When a seeded tick goes live -----

  /** A seeded supervisor's tick goes live exactly when its startup succeeds, the configuration asks for
      it, no reconcile item, live record or shadow attempt is at hand and none was seeded, no evidence was
      seeded, and there is a snapshot to publish. */
  lemma SeededTickSubmitsIff(c: Config, s: State, w: World)
    requires HasSeed(c.seed)
    ensures RunOnce(c, s, w).submitted != [] <==>
              && Started(c, s).Some? && Willing(c)
              && c.seed.evidence.None? && c.seed.pendingReconcileAnchors == []
              && var core := Started(c, s).value.core;
                 && core.facts.pending == map[] && core.liveRecords == [] && core.shadowAttempts == []
                 && core.facts.lastApplied.Some?
  {
    TickStarts(c, s, w);
    if Started(c, s).Some? {
      var s1 := Started(c, s).value;
      if s1.core.liveRecords == [] {
        StartedSubmitsIff(c, s1, w, Restoring(c, s));
      } else {
        SubmittedByRefresh(c, s1, w, Restoring(c, s));
      }
    }
  }

  lemma TickStarts(c: Config, s: State, w: World)
    ensures var started := Started(c, s);
            RunOnce(c, s, w).submitted
            == if started.None? then [] else RunStarted(c, started.value, w, Restoring(c, s)).submitted
    ensures Started(c, s).Some? && RunOnce(c, s, w).result.Ok? ==>
              RunStarted(c, Started(c, s).value, w, Restoring(c, s)).result.Ok?
  {
  }

  /** The version a tick submits under, which its snapshot id spells. */
  ghost function VersionOf(c: Config, s: State): nat
    requires Started(c, s).Some?
  {
    Started(c, s).value.core.facts.stateVersion
  }

  /** What accepting inputs does to a core: unless the version moves on, nothing that was published and no
      live record changes. */
  ghost predicate Since(a: Core, b: Core) {
    && b.facts.stateVersion >= a.facts.stateVersion
    && (a.reconciled ==> b.reconciled) && (a.facts.lastApplied.Some? ==> b.facts.lastApplied.Some?)
    && (b.facts.stateVersion == a.facts.stateVersion ==>
          b.published == a.published && b.evidence == a.evidence && b.liveRecords == a.liveRecords)
  }

  lemma AcceptIsSince(c: Config, s: Core, input: InputTaskEvent)
    requires AcceptInput(c, s, input).Ok?
    ensures Since(s, AcceptInput(c, s, input).value)
  {
    OnlyApplyingAdvances(s.facts, input);
    AcceptKeepsReconciled(c, s, input);
    AcceptProjects(c, s, input);
  }

  lemma {:induction false} DrainIsSince(
      c: Config, s: Core, log: seq<InputTaskEvent>, queue: seq<InputTaskEvent>, anchor: Option<int>)
    ensures Since(s, Drain(Accept(c), s, log, queue, anchor).core)
    decreases |queue|
  {
    var k := FirstAfter(queue, anchor);
    DrainTurn(Accept(c), s, log, queue, anchor);
    if k < |queue| {
      assert Accept(c)(s, queue[k]) == AcceptInput(c, s, queue[k]);
      var applied := AcceptInput(c, s, queue[k]);
      if applied.Ok? {
        AcceptIsSince(c, s, queue[k]);
        DrainIsSince(c, applied.value, Commit(log, queue[k]), RemoveFirst(queue, queue[k]), anchor);
      }
    }
  }

  lemma SubmitsAreSince(c: Config, s: State, records: seq<LiveRecord>, w: World, lastSeq: int)
    ensures Since(s.core, ApplySubmits(Submitting(c, w), s, records, lastSeq).state.core)
  {
    var submit := Submitting(c, w);
    ghost var keeps := (t: State, n: int) => Since(s.core, t.core);
    forall t, record, n | keeps(t, n - 1) && SubmitRef(record).Some? && submit(t, record, n).Ok?
      ensures keeps(submit(t, record, n).value, n)
    {
      assert submit(t, record, n) == SubmitOne(c, w, t, record, n);
      AcceptIsSince(c, t.core, SubmitFact(n, record, SubmitRef(record).value, w.clock(n)));
    }
    var _ := SubmitsKeep(submit, s, records, lastSeq, keeps);
  }

  /** Starting up again changes nothing. */
  predicate StartedUp(c: Config, s: Core) {
    s.reconciled || (!HasSeed(c.seed) && !c.bootstrapClean)
  }

  predicate AllOf(records: seq<LiveRecord>, snapshotId: Bytes) {
    forall i :: 0 <= i < |records| ==> records[i].snapshotId == snapshotId
  }

  /** The core has moved on from a version, or still holds live records of its snapshot. */
  ghost predicate PastOrHeld(c: Config, version: nat, s: Core) {
    && StartedUp(c, s) && s.facts.lastApplied.Some? && s.facts.stateVersion >= version
    && (s.facts.stateVersion == version ==> s.liveRecords != [] && AllOf(s.liveRecords, SnapshotId(version)))
  }

  lemma {:induction false} AllAreKept(records: seq<LiveRecord>, snapshotId: Bytes)
    requires AllOf(records, snapshotId)
    ensures KeepLive(records, snapshotId) == records
  {
    if records != [] {
      AllAreKept(records[1..], snapshotId);
      assert records == [records[0]] + records[1..];
    }
  }

  lemma PublishKeepsPast(c: Config, s: Core, version: nat, allow: bool)
    requires PastOrHeld(c, version, s)
    ensures PastOrHeld(c, version, Publish(c, s, allow))
  {
    if s.facts.stateVersion == version {
      AllAreKept(s.liveRecords, SnapshotId(version));
    }
  }

  /** A refresh that is due finds no live records, so the version has moved on. */
  lemma RefreshKeepsPast(c: Config, s: State, w: World, allow: bool, version: nat)
    requires !c.smoke && PastOrHeld(c, version, s.core)
    ensures PastOrHeld(c, version, Refresh(c, s, w, allow).state.core)
  {
    if RefreshDue(c, s.core, allow) {
      var records := LiveRecords(w, s.core.published.value.snapshotId, Eligible(c, Ascending(c.targets)));
      if records.Ok? {
        SubmitsAreSince(c, s, records.value, w, s.core.facts.lastConsumed.GetOr(0));
      }
    }
  }

  lemma FinishKeepsPast(c: Config, s: State, submitted: seq<Bytes>, restoring: bool, version: nat)
    requires PastOrHeld(c, version, s.core)
    ensures PastOrHeld(c, version, FinishTick(c, s, submitted, restoring).state.core)
  {
    FinishIsDrain(c, s, submitted, restoring);
    DrainIsSince(c, s.core, s.log, s.queue, s.core.facts.lastConsumed);
  }

  lemma TickKeepsPast(c: Config, s: State, w: World, version: nat)
    requires !c.smoke && PastOrHeld(c, version, s.core)
    ensures PastOrHeld(c, version, RunOnce(c, s, w).state.core)
    ensures RunOnce(c, s, w).submitted != [] ==> s.core.facts.stateVersion > version
  {
    var allow := AllowSynthesis(c, s);
    PublishKeepsPast(c, s.core, version, allow);
    var s2 := s.(core := Publish(c, s.core, allow));
    RefreshKeepsPast(c, s2, w, allow, version);
    var r := Refresh(c, s2, w, allow);
    FinishKeepsPast(c, r.state, r.submitted, false, version);
    FinishIsDrain(c, r.state, r.submitted, false);
    RunOnceStarts(c, s, w);
    TickStarts(c, s, w);
    PublishMovesNoFacts(c, s.core, allow);
  }

  lemma {:induction false} PlayKeepsPast(c: Config, s: State, events: seq<Event>, version: nat)
    requires !c.smoke && PastOrHeld(c, version, s.core)
    requires forall i :: 0 <= i < |events| ==> !events[i].ResumeTick?
    ensures PastOrHeld(c, version, Play(c, s, events).core)
  {
    if events != [] {
      var n := |events| - 1;
      PlayKeepsPast(c, s, events[..n], version);
      if events[n].Tick? {
        TickKeepsPast(c, Play(c, s, events[..n]), events[n].world, version);
      }
    }
  }

  lemma RefreshIsSince(c: Config, s: State, w: World, allow: bool)
    requires Refresh(c, s, w, allow).submitted != [] && Refresh(c, s, w, allow).result.Ok?
    ensures RefreshDue(c, s.core, allow) && !c.smoke
    ensures var t := Refresh(c, s, w, allow).state.core;
            Since(s.core, t.(liveRecords := s.core.liveRecords))
  {
    var records := LiveRecords(w, s.core.published.value.snapshotId, Eligible(c, Ascending(c.targets)));
    SubmitsAreSince(c, s, records.value, w, s.core.facts.lastConsumed.GetOr(0));
  }

  lemma DuePublish(c: Config, s: Core, allow: bool)
    requires RefreshDue(c, Publish(c, s, allow), allow) && !c.smoke
    ensures s.facts.lastApplied.Some? && Publish(c, s, allow).published == Some(SnapshotOf(s.facts))
  {
  }

  /** What a refresh that went live and succeeded left, as long as the version stands. */
  lemma SubmittedUnder(c: Config, s: State, w: World)
    requires RefreshOfTick(c, s, w).submitted != [] && RefreshOfTick(c, s, w).result.Ok?
    ensures var p := Publish(c, s.core, AllowSynthesis(c, s)); var t := RefreshOfTick(c, s, w).state.core;
            && c.liveMode && !c.smoke && s.core.facts.lastApplied.Some?
            && p.published == Some(SnapshotOf(s.core.facts))
            && p.evidence.Some? && p.evidence.value.liveReadyFamilies != 0
            && Since(p, t.(liveRecords := p.liveRecords))
  {
    var allow := AllowSynthesis(c, s);
    RefreshIsSince(c, s.(core := Publish(c, s.core, allow)), w, allow);
    DuePublish(c, s.core, allow);
  }

  lemma SuccessfulTickHolds(c: Config, s: State, w: World, restoring: bool)
    requires RunStarted(c, s, w, restoring).result.Ok? && RunStarted(c, s, w, restoring).submitted != []
    requires StartedUp(c, s.core)
    ensures PastOrHeld(c, s.core.facts.stateVersion, RunStarted(c, s, w, restoring).state.core)
  {
    SubmittedByRefresh(c, s, w, restoring);
    SubmittedUnder(c, s, w);
    PublishMovesNoFacts(c, s.core, AllowSynthesis(c, s));
    var r := RefreshOfTick(c, s, w);
    DrainIsSince(c, r.state.core, r.state.log, r.state.queue, r.state.core.facts.lastConsumed);
    assert LiveAnchorValid(c, DrainAll(c, r.state).state.core);
  }

  lemma StartsUp(c: Config, s: State)
    requires Started(c, s).Some?
    ensures StartedUp(c, Started(c, s).value.core)
  {
  }

  lemma SuccessHolds(c: Config, s: State, w: World)
    requires RunOnce(c, s, w).result.Ok? && RunOnce(c, s, w).submitted != []
    ensures Started(c, s).Some? && !c.smoke && PastOrHeld(c, VersionOf(c, s), RunOnce(c, s, w).state.core)
  {
    TickStarts(c, s, w);
    RunOnceStarts(c, s, w);
    StartsUp(c, s);
    var s1 := Started(c, s).value;
    SuccessfulTickHolds(c, s1, w, Restoring(c, s));
    SubmittedByRefresh(c, s1, w, Restoring(c, s));
    assert RunStarted(c, s1, w, Restoring(c, s)).result.Ok?;
    SubmittedUnder(c, s1, w);
  }

  /** Between two resumes no supervisor, seeded or not, submits under one snapshot in two ticks, the
      first of which succeeded: the version, which the snapshot id spells, has moved on. */
  lemma SnapshotsAreSubmittedOnce(c: Config, s: State, w: World, between: seq<Event>, later: World)
    requires RunOnce(c, s, w).result.Ok? && RunOnce(c, s, w).submitted != []
    requires forall i :: 0 <= i < |between| ==> !between[i].ResumeTick?
    ensures var t := Play(c, RunOnce(c, s, w).state, between);
            RunOnce(c, t, later).submitted != [] ==>
              && Started(c, s).Some? && Started(c, t).Some? && VersionOf(c, t) > VersionOf(c, s)
              && SnapshotId(VersionOf(c, t)) != SnapshotId(VersionOf(c, s))
  {
    SuccessHolds(c, s, w);
    var version := VersionOf(c, s);
    PlayKeepsPast(c, RunOnce(c, s, w).state, between, version);
    if RunOnce(c, Play(c, RunOnce(c, s, w).state, between), later).submitted != [] {
      LaterVersion(c, Play(c, RunOnce(c, s, w).state, between), later, version);
    }
  }

  lemma LaterVersion(c: Config, s: State, w: World, version: nat)
    requires !c.smoke && PastOrHeld(c, version, s.core) && RunOnce(c, s, w).submitted != []
    ensures Started(c, s).Some? && VersionOf(c, s) > version && SnapshotId(VersionOf(c, s)) != SnapshotId(version)
  {
    TickKeepsPast(c, s, w, version);
    SnapshotIdsDiffer(s.core.facts.stateVersion, version);
  }

  lemma SnapshotIdsDiffer(m: nat, n: nat)
    requires m != n
    ensures SnapshotId(m) != SnapshotId(n)
  {
    var prefix: Bytes := "snapshot-";
    assert (prefix + Digits(m))[|prefix|..] == Digits(m) && (prefix + Digits(n))[|prefix|..] == Digits(n);
    if SnapshotId(m) == SnapshotId(n) {
      DigitsInjective(m, n);
    }
  }

  // ----- After a resume that failed -----

  lemma MismatchedRevalidate(c: Config, s: Core)
    requires c.seed.lastJournalSeq.Some? && s.facts.lastConsumed != c.seed.lastJournalSeq
    ensures Revalidate(c, s).result.Err? && Revalidate(c, s).core == s.(facts := Recounted(c.seed, s.facts))
  {
    var counted := s.(facts := Recounted(c.seed, s.facts));
    assert PublishRestored(c, counted).result.Err? && PublishRestored(c, counted).core == counted;
  }

  /** A resume is refused when the log does not end in the sequence the seed names: what every log does
      that a seeded supervisor has added to. */
  lemma MismatchedResume(c: Config, s: State)
    requires c.seed.lastJournalSeq.Some? && Replay(s.log).result.Ok?
    requires Rebuilt(Replay(s.log)).lastConsumed != c.seed.lastJournalSeq
    ensures Resume(c, s).result.Err?
    ensures Resume(c, s).state == s.(core := Restarted(s).(facts := FactsOfResume(c, s)))
  {
    MismatchedRevalidate(c, Restarted(s));
  }

  /** Exactly when the tick after such a resume goes live. Its version is counted from the log alone, not
      from the version the seed names. */
  lemma RefusedResumeSubmitsIff(c: Config, s: State, w: World)
    requires c.seed.lastJournalSeq.Some? && Replay(s.log).result.Ok?
    requires Rebuilt(Replay(s.log)).lastConsumed != c.seed.lastJournalSeq
    ensures var t := Resume(c, s).state; var rebuilt := FactsOfResume(c, s);
            && Started(c, t) == Some(t) && VersionOf(c, t) == Replay(s.log).facts.stateVersion
            && (RunOnce(c, t, w).submitted != [] <==>
                  && Willing(c) && c.seed.evidence.None? && c.seed.pendingReconcileAnchors == []
                  && rebuilt.pending == map[] && rebuilt.lastApplied.Some?)
  {
    MismatchedResume(c, s);
    SeededTickSubmitsIff(c, Resume(c, s).state, w);
  }

  // ----- One snapshot, two ticks -----

  // A run that submits one snapshot twice: the seed names sequence 1 and version 1; one input arrives, a tick
  // submits and drains it, a resume is refused, and the next tick submits again.

  const SEED := RuntimeSeed(Some(1), 1, Some(1), None, Some(0), [], None, [], [], [])
  const CONFIG := Config(true, false, false, false, {"family"}, {"family"}, {"family"}, true, SEED)

  function RecordOf(snapshotId: Bytes, family: Bytes): LiveRecord {
    LiveRecord("key", "attempt", "plan", snapshotId, Live, 1, "neg-risk", family, None, None, Some("pending"))
  }

  const WORLD := World((snapshotId: Bytes, family: Bytes) => Ok(RecordOf(snapshotId, family)),
                       (snapshotId: Bytes) => Err("no shadow planner"), true, true, (n: int) => 0)

  const ARRIVED := InputTaskEvent(
    3, ExternalFactEvent(FactKey("discovery", "session", "event", "v1"), 0, None, NoPayload), NoHint)
  const SUBMITTED := SubmitFact(2, RecordOf(SnapshotId(1), "family"), "pending", 0)

  lemma OneFamilyAsked(id: Bytes)
    ensures Eligible(CONFIG, Ascending(CONFIG.targets)) == ["family"]
    ensures LiveRecords(WORLD, id, ["family"]) == Ok([RecordOf(id, "family")])
    ensures Willing(CONFIG)
  {
    assert Ascending({"family"}) == ["family"] by {
      var k := Least({"family"});
      assert k == "family" && {"family"} - {k} == {};
    }
    assert ["family"][1..] == [] && LiveRecords(WORLD, id, []) == Ok([]);
    assert [RecordOf(id, "family")] + [] == [RecordOf(id, "family")];
    assert CONFIG.targets * CONFIG.ready * CONFIG.approved == {"family"};
  }

  /** The first submit fact of all, after a seeded start. */
  lemma FirstSubmit(c: Config, w: World, s: State, record: LiveRecord, n: int)
    requires s.log == [] && s.core.facts == SeededFacts(c.seed, n) && c.seed.pendingReconcileAnchors == []
    requires SubmitRef(record).Some?
    ensures var input := SubmitFact(n + 1, record, SubmitRef(record).value, w.clock(n + 1));
            var f := ApplyFacts(s.core.facts, input).facts;
            && f.pending != map[] && f.applied == map[] && f.consumed == map[n + 1 := input.event.key]
            && f.lastConsumed == Some(n + 1) && f.stateVersion == s.core.facts.stateVersion
            && SubmitOne(c, w, s, record, n + 1)
               == Ok(State(s.core.(facts := f, reconciled := true), [input], s.queue))
  {
    var input := SubmitFact(n + 1, record, SubmitRef(record).value, w.clock(n + 1));
    assert ApplyHint(input).PendingReconcile?;
    var f := ApplyFacts(s.core.facts, input).facts;
    assert ApplyHint(input).anchor.pendingRef in f.pending;
    CommitAppends([], input);
  }

  lemma OneRecordSubmitted(c: Config, w: World, s: State, record: LiveRecord, n: int)
    requires s.log == [] && s.core.facts == SeededFacts(c.seed, n) && c.seed.pendingReconcileAnchors == []
    requires SubmitRef(record).Some?
    ensures SubmitOne(c, w, s, record, n + 1).Ok?
    ensures ApplySubmits(Submitting(c, w), s, [record], n) == Outcome(Ok(1), SubmitOne(c, w, s, record, n + 1).value)
  {
    FirstSubmit(c, w, s, record, n);
    assert Submitting(c, w)(s, record, n + 1) == SubmitOne(c, w, s, record, n + 1);
  }

  /** The run before its tick, and that tick once started and published. */
  ghost function Waiting(): State {
    FRESH.(queue := [ARRIVED])
  }

  ghost function Begun(): State {
    Waiting().(core := RestoreSeeded(CONFIG, FRESH.core).core)
  }

  ghost function Due(): State {
    Begun().(core := Publish(CONFIG, Begun().core, true))
  }

  lemma BeginsAtOne()
    ensures Started(CONFIG, Waiting()) == Some(Begun())
    ensures Begun().core.facts == SeededFacts(SEED, 1) && Begun().core.reconciled
    ensures Begun().core.liveRecords == [] && Begun().core.shadowAttempts == [] && AllowSynthesis(CONFIG, Begun())
  {
  }

  lemma DueAtOne()
    ensures Due().core.facts == SeededFacts(SEED, 1) && Due().core.reconciled && RefreshDue(CONFIG, Due().core, true)
    ensures Due().core.published == Some(SnapshotOf(SeededFacts(SEED, 1)))
  {
    BeginsAtOne();
    OneFamilyAsked(SnapshotId(1));
  }

  lemma SubmitsOne()
    ensures var r := Refresh(CONFIG, Due(), WORLD, true); var record := RecordOf(SnapshotId(1), "family");
            && SubmitOne(CONFIG, WORLD, Due(), record, 2).Ok?
            && r.result == Ok(0) && r.submitted == ["family"]
            && r.state == var t := SubmitOne(CONFIG, WORLD, Due(), record, 2).value;
                          t.(core := t.core.(liveRecords := [record]))
  {
    DueAtOne();
    OneFamilyAsked(SnapshotId(1));
    OneRecordSubmitted(CONFIG, WORLD, Due(), RecordOf(SnapshotId(1), "family"), 1);
    TakeAtMostOne([RecordOf(SnapshotId(1), "family")]);
    ReachedUp(SnapshotId(1));
  }

  lemma ReachedUp(id: Bytes)
    ensures Reached(WORLD, id, ["family"]) == ["family"]
  {
    assert ["family"][1..] == [] && Reached(WORLD, id, []) == [];
    assert ["family"] + [] == ["family"];
  }

  /** The arrived input is applied, and publishing the new version takes the live evidence back. */
  lemma ArrivalIsApplied(s: Core)
    requires s.facts.consumed == map[2 := SUBMITTED.event.key] && s.facts.lastConsumed == Some(2)
    requires s.facts.applied == map[]
    ensures AcceptInput(CONFIG, s, ARRIVED).Ok? && LiveAnchorValid(CONFIG, AcceptInput(CONFIG, s, ARRIVED).value)
    ensures AcceptInput(CONFIG, s, ARRIVED).value.reconciled == s.reconciled
  {
  }

  lemma ArrivalIsDrained(s: State)
    requires s.log == [SUBMITTED] && s.queue == [ARRIVED]
    requires s.core.facts.consumed == map[2 := SUBMITTED.event.key] && s.core.facts.lastConsumed == Some(2)
    requires s.core.facts.applied == map[]
    ensures DrainAll(CONFIG, s).result.Ok? && DrainAll(CONFIG, s).state.log == [SUBMITTED, ARRIVED]
    ensures DrainAll(CONFIG, s).state.core == AcceptInput(CONFIG, s.core, ARRIVED).value
  {
    ArrivalIsApplied(s.core);
    assert Accept(CONFIG)(s.core, ARRIVED) == AcceptInput(CONFIG, s.core, ARRIVED);
    CommitAppends([SUBMITTED], ARRIVED);
    var core := AcceptInput(CONFIG, s.core, ARRIVED).value;
    DrainTurn(Accept(CONFIG), s.core, s.log, s.queue, Some(2));
    DrainTurn(Accept(CONFIG), core, [SUBMITTED, ARRIVED], [], Some(2));
  }

  lemma LogCountsOne()
    ensures var r := Replay([SUBMITTED, ARRIVED]);
            && r.result.Ok? && r.facts.stateVersion == 1 && r.facts.lastConsumed == Some(3) && r.facts.lastApplied.Some?
  {
    assert [SUBMITTED, ARRIVED][..1] == [SUBMITTED] && [SUBMITTED][..0] == [];
    assert ApplyHint(SUBMITTED).PendingReconcile? && ApplyHint(ARRIVED).NoEffect?;
    var first := Replay([SUBMITTED]);
    assert first == ReplayStep(Replay([]), SUBMITTED);
  }

  lemma FirstTick()
    ensures var tick := RunOnce(CONFIG, Waiting(), WORLD);
            tick.result.Ok? && tick.submitted == ["family"] && tick.state.log == [SUBMITTED, ARRIVED]
  {
    BeginsAtOne();
    DueAtOne();
    SubmitsOne();
    var record := RecordOf(SnapshotId(1), "family");
    FirstSubmit(CONFIG, WORLD, Due(), record, 1);
    var t := Refresh(CONFIG, Due(), WORLD, true).state;
    ArrivalIsDrained(t);
    ArrivalIsApplied(t.core);
  }

  /** Across a resume one snapshot can be submitted by two ticks, though the first succeeded. */
  lemma SnapshotSubmittedTwice()
    ensures var s := Play(CONFIG, FRESH, [Arrive(ARRIVED)]); var tick := RunOnce(CONFIG, s, WORLD);
            var t := Play(CONFIG, tick.state, [ResumeTick]);
            && tick.result.Ok? && tick.submitted == ["family"]
            && RunOnce(CONFIG, t, WORLD).submitted != []
            && Started(CONFIG, s).Some? && Started(CONFIG, t).Some? && VersionOf(CONFIG, t) == VersionOf(CONFIG, s)
  {
    var s, tick := Waiting(), RunOnce(CONFIG, Waiting(), WORLD);
    OneArrives();
    FirstTick();
    BeginsAtOne();
    LogCountsOne();
    assert [ResumeTick][..0] == [] && Play(CONFIG, tick.state, [ResumeTick]) == Resume(CONFIG, tick.state).state;
    RefusedResumeSubmitsIff(CONFIG, tick.state, WORLD);
    OneFamilyAsked(SnapshotId(1));
  }

  lemma OneArrives()
    ensures Play(CONFIG, FRESH, [Arrive(ARRIVED)]) == Waiting()
  {
    assert [Arrive(ARRIVED)][..0] == [];
    PushIsStable([], ARRIVED);
  }
}
