/** The committed log of any run stays a faithful record of its facts:
    crates/app-live/src/supervisor.rs. */
module FaithfulRuns {
  import opened Options
  import opened Text
  import opened StableSort
  import opened StateFacts
  import opened StateStores
  import opened ExecutionRows
  import opened OrderedKeys
  import opened Ingress
  import opened DrainProperties
  import opened FactFolds
  import opened FactAgreement
  import opened Healing
  import opened Redelivery
  import opened SupervisorModel
  import opened ResumeProperties
  import opened SupervisorRuns

  // ----- Where a run can start -----

  function Arrivals(events: seq<Event>): seq<InputTaskEvent> {
    if events == [] then []
    else
      var front := Arrivals(events[..|events| - 1]);
      if events[|events| - 1].Arrive? then front + [events[|events| - 1].input] else front
  }

  /** The facts a run of this configuration can start or restart from. */
  ghost predicate IsStart(c: Config, start: Facts) {
    || start == NO_FACTS || start == StartFacts(true)
    || (HasSeed(c.seed) && c.seed.lastJournalSeq.Some? && start == SeededFacts(c.seed, c.seed.lastJournalSeq.value))
  }

  ghost predicate Faithful(c: Config, f: Facts, log: seq<InputTaskEvent>) {
    exists start :: IsStart(c, start) && Logged(start, f, log)
  }

  /** Between events the queue is sorted and the log is a faithful record from some start; before
      anything has started the log is empty. */
  ghost predicate Sound(c: Config, s: State) {
    && Sorted(s.queue, BySeq)
    && Faithful(c, s.core.facts, s.log)
    && (!s.core.reconciled && (HasSeed(c.seed) || c.bootstrapClean) ==> s.log == [])
  }

  lemma StartIsFaithful(c: Config, start: Facts)
    requires IsStart(c, start)
    ensures Faithful(c, start, [])
  {
    assert Logged(start, start, []);
  }

  /** A faithful record whose last consumed sequence is at most the given one. */
  ghost predicate LoggedUpTo(start: Facts, s: State, lastSeq: int) {
    && Logged(start, s.core.facts, s.log)
    && (s.core.facts.lastConsumed.None? || s.core.facts.lastConsumed.value <= lastSeq)
  }

  lemma SubmitKeepsLogged(c: Config, w: World, s: State, record: LiveRecord, journalSeq: int, start: Facts)
    requires SubmitRef(record).Some? && SubmitOne(c, w, s, record, journalSeq).Ok?
    requires LoggedUpTo(start, s, journalSeq - 1)
    ensures var t := SubmitOne(c, w, s, record, journalSeq).value;
            LoggedUpTo(start, t, journalSeq) && (s.core.reconciled ==> t.core.reconciled)
  {
    var input := SubmitFact(journalSeq, record, SubmitRef(record).value, w.clock(journalSeq));
    AcceptProjects(c, s.core, input);
    AcceptKeepsReconciled(c, s.core, input);
    LoggedStep(start, s.core.facts, s.log, input);
  }

  /** Whatever every single submission keeps, the whole loop keeps. */
  lemma {:induction false} SubmitsKeep(
      submit: Submitter, s: State, records: seq<LiveRecord>, lastSeq: int, keeps: (State, int) -> bool)
    returns (last: int)
    requires forall t, record, n :: SubmitRef(record).Some? ==> submit.requires(t, record, n)
    requires forall t, record, n :: keeps(t, n - 1) && SubmitRef(record).Some? && submit(t, record, n).Ok? ==>
               keeps(submit(t, record, n).value, n)
    requires keeps(s, lastSeq)
    ensures keeps(ApplySubmits(submit, s, records, lastSeq).state, last)
    decreases |records|
  {
    last := lastSeq;
    if records == [] {
    } else if SubmitRef(records[0]).None? {
      last := SubmitsKeep(submit, s, records[1..], lastSeq, keeps);
    } else {
      var landed := submit(s, records[0], lastSeq + 1);
      if landed.Ok? {
        assert keeps(s, lastSeq + 1 - 1);
        assert keeps(landed.value, lastSeq + 1);
        last := lastSeq + 1;
        if landed.value.core.facts.pending == map[] {
          last := SubmitsKeep(submit, landed.value, records[1..], lastSeq + 1, keeps);
        }
      }
    }
  }

  lemma SubmitsKeepLogged(c: Config, s: State, records: seq<LiveRecord>, w: World, lastSeq: int, start: Facts)
    requires LoggedUpTo(start, s, lastSeq)
    ensures var t := ApplySubmits(Submitting(c, w), s, records, lastSeq).state;
            Logged(start, t.core.facts, t.log) && (s.core.reconciled ==> t.core.reconciled)
  {
    var submit := Submitting(c, w);
    ghost var keeps := (t: State, n: int) => LoggedUpTo(start, t, n) && (s.core.reconciled ==> t.core.reconciled);
    forall t, record, n | keeps(t, n - 1) && SubmitRef(record).Some? && submit(t, record, n).Ok?
      ensures keeps(submit(t, record, n).value, n)
    {
      assert submit(t, record, n) == SubmitOne(c, w, t, record, n);
      SubmitKeepsLogged(c, w, t, record, n, start);
    }
    var _ := SubmitsKeep(submit, s, records, lastSeq, keeps);
  }

  lemma AcceptKeepsReconciled(c: Config, s: Core, input: InputTaskEvent)
    requires AcceptInput(c, s, input).Ok?
    ensures s.reconciled ==> AcceptInput(c, s, input).value.reconciled
  {
  }

  lemma {:induction false} FoldKeepsReconciled(c: Config, s: Core, batch: seq<InputTaskEvent>)
    requires Fold(Accept(c), s, batch).Ok?
    ensures s.reconciled ==> Fold(Accept(c), s, batch).value.reconciled
    decreases |batch|
  {
    if batch != [] {
      assert Accept(c)(s, batch[0]) == AcceptInput(c, s, batch[0]);
      AcceptKeepsReconciled(c, s, batch[0]);
      FoldKeepsReconciled(c, AcceptInput(c, s, batch[0]).value, batch[1..]);
    }
  }

  lemma RefreshKeepsLogged(c: Config, s: State, w: World, allow: bool, start: Facts)
    requires Logged(start, s.core.facts, s.log)
    ensures var t := Refresh(c, s, w, allow).state;
            && Logged(start, t.core.facts, t.log) && t.queue == s.queue
            && (s.core.reconciled ==> t.core.reconciled)
  {
    RefreshOnlyAddsToLog(c, s, w, allow);
    if RefreshDue(c, s.core, allow) && !c.smoke {
      var records := LiveRecords(w, s.core.published.value.snapshotId, Eligible(c, Ascending(c.targets)));
      if records.Ok? {
        var lastSeq := s.core.facts.lastConsumed.GetOr(0);
        SubmitsKeepLogged(c, s, records.value, w, lastSeq, start);
      }
    }
  }

  lemma DrainKeepsReconciled(c: Config, s: State)
    requires Sorted(s.queue, BySeq) && s.core.reconciled
    ensures DrainAll(c, s).state.core.reconciled
  {
    var batch := Batch(s.queue, s.core.facts.lastConsumed);
    DrainConsumesBatch(Accept(c), s.core, s.log, s.queue, s.core.facts.lastConsumed);
    FoldKeepsReconciled(c, s.core, batch[..Taken(Accept(c), s.core, batch)]);
  }

  // ----- What each event drains -----

  /** What a restoring tick checks before it drains. */
  predicate PassesRestoreChecks(c: Config, s: Core, restoring: bool) {
    && !(restoring && c.seed.evidence.Some? && !EvidenceAnchorValid(c, s))
    && !(restoring && c.seed.liveRecords != [] && !LiveAnchorValid(c, s))
  }

  /** A resume needs the sequence its history ends in, unless there is no history. */
  predicate SequenceMissing(c: Config, s: State) {
    c.seed.lastJournalSeq.None? && !(CommittedVersion(c.seed) == 0 && s.log == [])
  }

  /** The state from which an event drains the queue, if it gets that far. */
  ghost function DrainsFrom(c: Config, s: State, e: Event): Option<State> {
    match e
    case Arrive(_) => None
    case Tick(w) =>
      var started := Started(c, s);
      if started.None? then None
      else
        var r := RefreshOfTick(c, started.value, w);
        if r.result.Err? || !PassesRestoreChecks(c, r.state.core, Restoring(c, s)) then None else Some(r.state)
    case ResumeTick =>
      var valid := Revalidate(c, Restarted(s));
      if SequenceMissing(c, s) || valid.result.Err? then None else Some(s.(core := valid.core))
  }

  /** Whatever repeated deliveries spoil, the drain of the event also repairs. */
  ghost predicate DrainsHarmlessly(c: Config, s: State, e: Event) {
    var d := DrainsFrom(c, s, e);
    d.Some? ==> Stale(d.value.core.facts.applied.Keys, DrainedBatch(d.value)) == {}
  }

  /** A resume is given the sequence its log ends in, and does not drop reconcile items. */
  ghost predicate ResumeFits(c: Config, s: State) {
    && (s.log != [] ==> c.seed.lastJournalSeq.Some?)
    && (c.seed.pendingReconcileCount == Some(0) ==> Rebuilt(Replay(s.log)).pending == map[])
  }

  ghost predicate HarmlessEvent(c: Config, s: State, e: Event) {
    DrainsHarmlessly(c, s, e) && (e.ResumeTick? ==> ResumeFits(c, s))
  }

  ghost predicate HarmlessRun(c: Config, events: seq<Event>) {
    || events == []
    || (&& HarmlessRun(c, events[..|events| - 1])
        && HarmlessEvent(c, Play(c, FRESH, events[..|events| - 1]), events[|events| - 1]))
  }

  // ----- Ticks -----

  lemma StartedIsSound(c: Config, s: State)
    requires Sound(c, s)
    ensures Started(c, s).Some? ==>
              && Started(c, s).value.queue == s.queue && Started(c, s).value.log == s.log
              && Faithful(c, Started(c, s).value.core.facts, s.log)
              && (HasSeed(c.seed) || c.bootstrapClean ==> Started(c, s).value.core.reconciled)
  {
    if !s.core.reconciled {
      if HasSeed(c.seed) {
        RestoreStarts(c, s.core);
        StartIsFaithful(c, RestoreSeeded(c, s.core).core.facts);
      } else if c.bootstrapClean {
        BootstrapStarts(c, s.core);
        StartIsFaithful(c, Bootstrap(c, s.core).facts);
      }
    }
  }

  lemma RestoreStarts(c: Config, s: Core)
    requires HasSeed(c.seed)
    ensures IsStart(c, RestoreSeeded(c, s).core.facts)
    ensures c.seed.lastJournalSeq.Some? ==> RestoreSeeded(c, s).core.reconciled
    ensures c.seed.lastJournalSeq.None? ==> RestoreSeeded(c, s).result.Err?
  {
  }

  lemma BootstrapStarts(c: Config, s: Core)
    requires c.bootstrapClean && !HasSeed(c.seed) && Faithful(c, s.facts, [])
    ensures IsStart(c, Bootstrap(c, s).facts) && Bootstrap(c, s).reconciled
  {
    var start :| IsStart(c, start) && Logged(start, s.facts, []);
    LoggedShape(start, s.facts, []);
  }

  lemma FinishKeepsSound(c: Config, s: State, submitted: seq<Bytes>, restoring: bool)
    requires Sorted(s.queue, BySeq) && Faithful(c, s.core.facts, s.log)
    requires PassesRestoreChecks(c, s.core, restoring) ==> Stale(s.core.facts.applied.Keys, DrainedBatch(s)) == {}
    ensures var t := FinishTick(c, s, submitted, restoring).state;
            && Sorted(t.queue, BySeq) && Faithful(c, t.core.facts, t.log)
            && (s.core.reconciled ==> t.core.reconciled)
  {
    if PassesRestoreChecks(c, s.core, restoring) {
      FinishIsDrain(c, s, submitted, restoring);
      DrainKeepsFaithful(c, s);
    }
  }

  lemma DrainKeepsFaithful(c: Config, s: State)
    requires Sorted(s.queue, BySeq) && Faithful(c, s.core.facts, s.log)
    requires Stale(s.core.facts.applied.Keys, DrainedBatch(s)) == {}
    ensures var t := DrainAll(c, s).state;
            && Sorted(t.queue, BySeq) && Faithful(c, t.core.facts, t.log)
            && (s.core.reconciled ==> t.core.reconciled)
  {
    var start :| IsStart(c, start) && Logged(start, s.core.facts, s.log);
    DrainKeepsLogged(c, s, start);
    DrainKeepsOrder(Accept(c), s.core, s.log, s.queue, s.core.facts.lastConsumed);
    if s.core.reconciled {
      DrainKeepsReconciled(c, s);
    }
  }

  lemma RefreshKeepsFaithful(c: Config, s: State, w: World, allow: bool)
    requires Faithful(c, s.core.facts, s.log)
    ensures var t := Refresh(c, s, w, allow).state;
            Faithful(c, t.core.facts, t.log) && t.queue == s.queue && (s.core.reconciled ==> t.core.reconciled)
  {
    var start :| IsStart(c, start) && Logged(start, s.core.facts, s.log);
    RefreshKeepsLogged(c, s, w, allow, start);
  }

  lemma StartedTickKeepsSound(c: Config, s: State, w: World, restoring: bool)
    requires Sorted(s.queue, BySeq) && Faithful(c, s.core.facts, s.log)
    requires var r := RefreshOfTick(c, s, w);
             r.result.Ok? && PassesRestoreChecks(c, r.state.core, restoring) ==>
               Stale(r.state.core.facts.applied.Keys, DrainedBatch(r.state)) == {}
    ensures var t := RunStarted(c, s, w, restoring).state;
            && Sorted(t.queue, BySeq) && Faithful(c, t.core.facts, t.log)
            && (s.core.reconciled ==> t.core.reconciled)
  {
    var allow := AllowSynthesis(c, s);
    PublishMovesNoFacts(c, s.core, allow);
    RefreshKeepsFaithful(c, s.(core := Publish(c, s.core, allow)), w, allow);
    var r := RefreshOfTick(c, s, w);
    if r.result.Ok? {
      FinishKeepsSound(c, r.state, r.submitted, restoring);
    }
  }

  lemma TickKeepsSound(c: Config, s: State, w: World)
    requires Sound(c, s) && DrainsHarmlessly(c, s, Tick(w))
    ensures Sound(c, RunOnce(c, s, w).state)
  {
    StartedIsSound(c, s);
    RunOnceStarts(c, s, w);
    var started := Started(c, s);
    if started.None? {
      RestoreStarts(c, s.core);
      StartIsFaithful(c, RestoreSeeded(c, s.core).core.facts);
    } else {
      StartedTickKeepsSound(c, started.value, w, Restoring(c, s));
    }
  }

  // ----- Resumes -----

  lemma RebuiltIsFaithful(c: Config, f: Facts, log: seq<InputTaskEvent>)
    requires Faithful(c, f, log)
    ensures Replay(log).result.Ok? && Faithful(c, Rebuilt(Replay(log)), log)
  {
    var start :| IsStart(c, start) && Logged(start, f, log);
    LogFoldsFromNew(start, f, log);
    ReplayIsFold(log);
    ReplayWithoutAnchor(log);
    if log == [] {
      StartIsFaithful(c, StartFacts(true));
    }
  }

  lemma FinishResumeKeepsFaithful(c: Config, s: State)
    requires Sorted(s.queue, BySeq) && Faithful(c, s.core.facts, s.log) && s.core.reconciled
    requires Stale(s.core.facts.applied.Keys, DrainedBatch(s)) == {}
    ensures var t := FinishResume(c, s).state;
            Sorted(t.queue, BySeq) && Faithful(c, t.core.facts, t.log) && t.core.reconciled
  {
    DrainKeepsFaithful(c, s);
    FinishResumeIsDrain(c, s);
  }

  /** The facts a resume has when it comes to drain, or gives up before. */
  ghost function FactsOfResume(c: Config, s: State): Facts {
    if SequenceMissing(c, s) then NO_FACTS else Recounted(c.seed, Rebuilt(Replay(s.log)))
  }

  lemma ResumeHasFacts(c: Config, s: State)
    requires Replay(s.log).result.Ok?
    ensures var t := Resume(c, s).state; var d := DrainsFrom(c, s, ResumeTick);
            || (d.None? && t.core.facts == FactsOfResume(c, s) && t.log == s.log)
            || (d.Some? && d.value.core.facts == FactsOfResume(c, s) && d.value.log == s.log
                && t == FinishResume(c, d.value).state)
  {
    if !SequenceMissing(c, s) {
      RevalidateRecounts(c, Restarted(s));
    }
  }

  /** No start leaves fewer pending items than the log alone. */
  lemma DroppedItemsAreMissed(c: Config, f: Facts, log: seq<InputTaskEvent>)
    requires Replay(log).result.Ok? && Rebuilt(Replay(log)).pending != map[] && f.pending == map[]
    ensures !Faithful(c, f, log)
  {
    var r :| r in Rebuilt(Replay(log)).pending;
    forall start | IsStart(c, start) ensures !Logged(start, f, log) {
      if Logged(start, f, log) {
        LogHoldsItems(c, start, f, log);
        assert false;
      }
    }
  }

  lemma LogHoldsItems(c: Config, start: Facts, f: Facts, log: seq<InputTaskEvent>)
    requires IsStart(c, start) && Logged(start, f, log) && Replay(log).result.Ok?
    ensures forall r :: r in Rebuilt(Replay(log)).pending ==> r in f.pending
  {
    ReplayIsFold(log);
    StartAgrees(c, start);
    FactsApplierApplies();
    FoldAgrees(FactsApplier(), start, NO_FACTS, start.stateVersion, log, start.pending);
  }

  /** Facts that have consumed nothing have no log. */
  lemma NothingConsumedNothingLogged(c: Config, f: Facts, log: seq<InputTaskEvent>)
    requires f.lastConsumed.None? && log != []
    ensures !Faithful(c, f, log)
  {
    forall start | IsStart(c, start) ensures !Logged(start, f, log) {
      if Logged(start, f, log) {
        LoggedShape(start, f, log);
        assert false;
      }
    }
  }

  /** From a faithful log a resume comes to drain, or gives up, with facts of which the log is a record
      if and only if it is told the last sequence of a log that has one and does not count away reconcile
      items that the log rebuilds. */
  lemma ResumeIsFaithfulIff(c: Config, s: State)
    requires Faithful(c, s.core.facts, s.log)
    ensures Faithful(c, FactsOfResume(c, s), s.log) <==> ResumeFits(c, s)
    ensures !ResumeFits(c, s) && DrainsFrom(c, s, ResumeTick).None? ==>
              Resume(c, s).state.log == s.log && !Faithful(c, Resume(c, s).state.core.facts, s.log)
  {
    RebuiltIsFaithful(c, s.core.facts, s.log);
    ResumeHasFacts(c, s);
    var rebuilt := Rebuilt(Replay(s.log));
    if c.seed.lastJournalSeq.None? && s.log != [] {
      NothingConsumedNothingLogged(c, NO_FACTS, s.log);
    } else if c.seed.pendingReconcileCount == Some(0) && rebuilt.pending != map[] {
      DroppedItemsAreMissed(c, FactsOfResume(c, s), s.log);
    } else if FactsOfResume(c, s) == NO_FACTS {
      StartIsFaithful(c, NO_FACTS);
    }
  }

  lemma ResumeKeepsReconciled(c: Config, s: State)
    requires Replay(s.log).result.Ok? && !SequenceMissing(c, s)
    ensures var d := DrainsFrom(c, s, ResumeTick);
            if d.None? then Resume(c, s).state.core.reconciled else d.value.core.reconciled
    ensures var t := Resume(c, s).state; DrainsFrom(c, s, ResumeTick).None? ==> t.queue == s.queue
  {
    RevalidateRecounts(c, Restarted(s));
  }

  lemma ResumeKeepsSound(c: Config, s: State)
    requires Sound(c, s) && HarmlessEvent(c, s, ResumeTick)
    ensures Sound(c, Resume(c, s).state)
  {
    RebuiltIsFaithful(c, s.core.facts, s.log);
    ResumeIsFaithfulIff(c, s);
    ResumeHasFacts(c, s);
    if !SequenceMissing(c, s) {
      ResumeKeepsReconciled(c, s);
    }
    var d := DrainsFrom(c, s, ResumeTick);
    if d.Some? {
      FinishResumeKeepsFaithful(c, d.value);
    }
  }

  // ----- Whole runs -----

  lemma EventKeepsSound(c: Config, s: State, e: Event)
    requires Sound(c, s) && HarmlessEvent(c, s, e)
    ensures Sound(c, AfterEvent(c, s, e))
  {
    match e
    case Arrive(input) => PushKeepsOrder(s.queue, input);
    case Tick(w) => TickKeepsSound(c, s, w);
    case ResumeTick => ResumeKeepsSound(c, s);
  }

  /** Over any run, seeded or not, whose drains are harmless and whose resumes fit, ticks and resumes
      interleaved anyhow and failing anyhow keep the supervisor sound. */
  lemma {:induction false} PlayKeepsSound(c: Config, events: seq<Event>)
    requires HarmlessRun(c, events)
    ensures Sound(c, Play(c, FRESH, events))
  {
    if events == [] {
      StartIsFaithful(c, NO_FACTS);
    } else {
      var n := |events| - 1;
      PlayKeepsSound(c, events[..n]);
      EventKeepsSound(c, Play(c, FRESH, events[..n]), events[n]);
    }
  }

  /** At any moment of any such run of an unseeded supervisor the committed log can be replayed, and it
      alone rebuilds the facts exactly unless everything in it still waits to be reconciled after a
      bootstrap. */
  lemma AnyRunCanBeRebuilt(c: Config, events: seq<Event>)
    requires Unseeded(c) && HarmlessRun(c, events)
    ensures var s := Play(c, FRESH, events);
            && Replay(s.log).result.Ok?
            && (Rebuilt(Replay(s.log)) == s.core.facts <==>
                  if s.log == [] then s.core.facts == StartFacts(true)
                  else s.core.facts.stateVersion > 0 || s.core.facts.lastApplied.None?)
  {
    PlayKeepsSound(c, events);
    var s := Play(c, FRESH, events);
    var start :| IsStart(c, start) && Logged(start, s.core.facts, s.log);
    LoggedShape(start, s.core.facts, s.log);
    RebuiltIsFaithful(c, s.core.facts, s.log);
    if start == StartFacts(true) {
      ResumeRebuildsFacts(s.core.facts, s.log);
      BaselineDoesNotMatter(s.log, s.core.facts);
    } else {
      ReplayIsFold(s.log);
      ReplayWithoutAnchor(s.log);
    }
  }

  // ----- What a seed adds to what the log says -----

  /** At any moment of such a run of any supervisor, what the log rebuilds is what the facts say, up to
      the version the run started from, the anchors, and the seed's items that are still pending. */
  lemma SeededRunCanBeRebuilt(c: Config, events: seq<Event>)
    requires HarmlessRun(c, events)
    ensures var s := Play(c, FRESH, events); var rebuilt := Rebuilt(Replay(s.log));
            && Replay(s.log).result.Ok?
            && exists start :: IsStart(c, start) && AgreesUpTo(s.core.facts, rebuilt, start.stateVersion)
                               && RestIsFrom(s.core.facts.pending, rebuilt.pending, start.pending)
  {
    PlayKeepsSound(c, events);
    var s := Play(c, FRESH, events);
    var start :| IsStart(c, start) && Logged(start, s.core.facts, s.log);
    RebuiltIsFaithful(c, s.core.facts, s.log);
    ReplayIsFold(s.log);
    ReplayWithoutAnchor(s.log);
    StartAgrees(c, start);
    FactsApplierApplies();
    FoldAgrees(FactsApplier(), start, NO_FACTS, start.stateVersion, s.log, start.pending);
  }

  lemma StartAgrees(c: Config, start: Facts)
    requires IsStart(c, start)
    ensures AgreesUpTo(start, NO_FACTS, start.stateVersion) && RestIsFrom(start.pending, map[], start.pending)
  {
  }

  // ----- Runs in which a sequence names one input -----

  lemma {:induction false} PlayQueuesArrivals(c: Config, events: seq<Event>)
    ensures Sorted(Play(c, FRESH, events).queue, BySeq)
    ensures forall x :: x in Play(c, FRESH, events).queue ==> x in Arrivals(events)
  {
    if events != [] {
      var n := |events| - 1;
      var front, last := Play(c, FRESH, events[..n]), events[n];
      PlayQueuesArrivals(c, events[..n]);
      if last.Arrive? {
        PushKeepsOrder(front.queue, last.input);
        forall x | x in Enqueued(front.queue, last.input) ensures x in Arrivals(events) {
          assert x in multiset(Enqueued(front.queue, last.input));
          assert x == last.input || x in multiset(front.queue);
        }
      } else {
        QueueShrinks(c, front, last);
      }
    }
  }

  lemma QueueShrinks(c: Config, s: State, e: Event)
    requires Sorted(s.queue, BySeq) && !e.Arrive?
    ensures Sorted(AfterEvent(c, s, e).queue, BySeq)
    ensures forall x :: x in AfterEvent(c, s, e).queue ==> x in s.queue
    ensures DrainsFrom(c, s, e).Some? ==> DrainsFrom(c, s, e).value.queue == s.queue
  {
    if e.Tick? {
      TickShrinks(c, s, e.world);
    } else {
      var valid := Revalidate(c, Restarted(s));
      DrainShrinks(c, s.(core := valid.core));
      FinishResumeIsDrain(c, s.(core := valid.core));
    }
  }

  lemma TickShrinks(c: Config, s: State, w: World)
    requires Sorted(s.queue, BySeq)
    ensures Sorted(RunOnce(c, s, w).state.queue, BySeq)
    ensures forall x :: x in RunOnce(c, s, w).state.queue ==> x in s.queue
    ensures DrainsFrom(c, s, Tick(w)).Some? ==> DrainsFrom(c, s, Tick(w)).value.queue == s.queue
  {
    if Started(c, s).Some? {
      StartedTickShrinks(c, Started(c, s).value, w, Restoring(c, s));
    }
  }

  lemma StartedTickShrinks(c: Config, s: State, w: World, restoring: bool)
    requires Sorted(s.queue, BySeq)
    ensures var t := RunStarted(c, s, w, restoring).state;
            && RefreshOfTick(c, s, w).state.queue == s.queue
            && Sorted(t.queue, BySeq) && forall x :: x in t.queue ==> x in s.queue
  {
    var allow := AllowSynthesis(c, s);
    RefreshOnlyAddsToLog(c, s.(core := Publish(c, s.core, allow)), w, allow);
    var r := RefreshOfTick(c, s, w);
    if r.result.Ok? {
      FinishShrinks(c, r.state, r.submitted, restoring);
    }
  }

  lemma FinishShrinks(c: Config, s: State, submitted: seq<Bytes>, restoring: bool)
    requires Sorted(s.queue, BySeq)
    ensures var t := FinishTick(c, s, submitted, restoring).state;
            Sorted(t.queue, BySeq) && forall x :: x in t.queue ==> x in s.queue
  {
    FinishIsDrain(c, s, submitted, restoring);
    DrainShrinks(c, s);
  }

  lemma DrainShrinks(c: Config, s: State)
    requires Sorted(s.queue, BySeq)
    ensures var t := DrainAll(c, s).state; Sorted(t.queue, BySeq) && forall x :: x in t.queue ==> x in s.queue
  {
    DrainLeaves(c, s);
    DrainKeepsOrder(Accept(c), s.core, [], s.queue, s.core.facts.lastConsumed);
    QueueIgnoresLog(c, s.core, s.log, [], s.queue, s.core.facts.lastConsumed);
  }

  lemma {:induction false} QueueIgnoresLog(
      c: Config, core: Core, a: seq<InputTaskEvent>, b: seq<InputTaskEvent>, queue: seq<InputTaskEvent>,
      anchor: Option<int>)
    requires Sorted(queue, BySeq)
    ensures Drain(Accept(c), core, a, queue, anchor).queue == Drain(Accept(c), core, b, queue, anchor).queue
  {
    DrainConsumesBatch(Accept(c), core, a, queue, anchor);
    DrainConsumesBatch(Accept(c), core, b, queue, anchor);
  }

  ghost predicate ResumesFit(c: Config, events: seq<Event>) {
    || events == []
    || (&& ResumesFit(c, events[..|events| - 1])
        && (events[|events| - 1].ResumeTick? ==> ResumeFits(c, Play(c, FRESH, events[..|events| - 1]))))
  }

  lemma OneInputEventIsHarmless(c: Config, s: State, e: Event)
    requires Sorted(s.queue, BySeq) && OneInputPerSeq(s.queue)
    ensures DrainsHarmlessly(c, s, e)
  {
    if !e.Arrive? && DrainsFrom(c, s, e).Some? {
      var d := DrainsFrom(c, s, e).value;
      QueueShrinks(c, s, e);
      DrainedIsFresh(d);
      OneInputIsHarmless(d.core.facts.applied.Keys, DrainedBatch(d));
      HarmlessLeavesNothing(d.core.facts.applied.Keys, DrainedBatch(d));
    }
  }

  /** A run in which a sequence names one input drains harmlessly, whatever its ticks do. */
  lemma {:induction false} OneInputRunIsHarmless(c: Config, events: seq<Event>)
    requires OneInputPerSeq(Arrivals(events)) && ResumesFit(c, events)
    ensures HarmlessRun(c, events)
  {
    if events != [] {
      var n := |events| - 1;
      assert forall x :: x in Arrivals(events[..n]) ==> x in Arrivals(events);
      OneInputRunIsHarmless(c, events[..n]);
      PlayQueuesArrivals(c, events[..n]);
      OneInputEventIsHarmless(c, Play(c, FRESH, events[..n]), events[n]);
    }
  }
}
