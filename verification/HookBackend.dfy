/** crates/app-live/src/negrisk_live.rs: the live backend built on the test signer and a signed-family
    hook, and what the supervisor does with its records. */
module HookBackend {
  import opened Options
  import opened Text
  import opened ExecutionRows
  import opened OrderedKeys
  import opened PlanIdentity
  import opened SupervisorModel
  import opened SupervisorRuns
  import opened LiveSubmissions
  import A = Attempts

  datatype LiveError =
    | Planning(error: PlanningError)
    | SinkFailed(cause: A.ExecutionError)
    | UnexpectedOutcome(outcome: A.AttemptOutcome)

  /** What the hook says of a signed family: nothing, or why it refuses. */
  type Hook = (SignedFamily, A.AttemptContext) -> Option<Bytes>

  function LiveRequest(snapshotId: Bytes, target: FamilyTarget, ruleId: Bytes): ExecutionRequest {
    ExecutionRequest("negrisk-live-request:" + (snapshotId + ":" + target.familyId), snapshotId,
                     ROUTE, target.familyId, Live, Some(ruleId))
  }

  /** `execute_live_family`: plan, execute once on a new orchestrator, and write down the attempt. */
  function LiveFamily(snapshotId: Bytes, target: FamilyTarget, ruleId: Bytes, hook: Hook, hash: Bytes -> Bytes)
    : Result<LiveRecord, LiveError>
  {
    var request := LiveRequest(snapshotId, target, ruleId);
    var plan := PlanFamilySubmission(request, target);
    if plan.Err? then Err(Planning(plan.error))
    else
      var venue := A.LiveVenue(map["neg-risk" := A.HookAdapter(hook)]);
      var e := A.Execute(venue, A.State(map[], []), A.PlanningInput(request, request.activationMode, plan.value), hash);
      if e.result.Err? then Err(SinkFailed(e.result.error))
      else if e.result.value.receipt.outcome != A.Succeeded then Err(UnexpectedOutcome(e.result.value.receipt.outcome))
      else
        var attempt, context, receipt := e.result.value.attempt, e.result.value.context, e.result.value.receipt;
        Ok(LiveRecord("idem-" + attempt.attemptId, receipt.attemptId, attempt.planId, attempt.snapshotId,
                      context.executionMode, attempt.attemptNo, context.route, context.scope, context.matchedRuleId,
                      receipt.submissionRef, receipt.pendingRef))
  }

  function LivePlanId(snapshotId: Bytes, target: FamilyTarget, ruleId: Bytes): Bytes {
    RequestBoundPlanId(PlanOf(target), LiveRequest(snapshotId, target, ruleId))
  }

  /** The context of the one attempt made for a family. */
  function LiveContext(snapshotId: Bytes, target: FamilyTarget, ruleId: Bytes, hash: Bytes -> Bytes): A.AttemptContext {
    A.AttemptContext(AttemptId(LivePlanId(snapshotId, target, ruleId), 1, hash), snapshotId, Live,
                     ROUTE, target.familyId, Some(ruleId))
  }

  /** A family is executed exactly when the hook agrees to its signed plan. The record is of the first
      attempt of its plan, under its own scope, and always carries a pending reference, which names the
      attempt. */
  lemma LiveFamilySucceedsIff(snapshotId: Bytes, target: FamilyTarget, ruleId: Bytes, hook: Hook, hash: Bytes -> Bytes)
    ensures var r := LiveFamily(snapshotId, target, ruleId, hook, hash);
            var context := LiveContext(snapshotId, target, ruleId, hash);
            && (r.Ok? <==> hook(SignFamily(PlanOf(target)).value, context).None?)
            && (r.Err? ==> r.error.SinkFailed?)
            && (r.Ok? ==>
                && r.value.attemptId == context.attemptId && r.value.idempotencyKey == "idem-" + context.attemptId
                && r.value.planId == LivePlanId(snapshotId, target, ruleId) && r.value.attemptNo == 1
                && r.value.snapshotId == snapshotId && r.value.executionMode == Live
                && r.value.route == ROUTE && r.value.scope == target.familyId && r.value.matchedRuleId == Some(ruleId)
                && SubmitRef(r.value) == Some("pending-hook:" + context.attemptId))
  {
    var request := LiveRequest(snapshotId, target, ruleId);
    A.HookExecution(hook, A.PlanningInput(request, Live, PlanOf(target)), hash);
  }

  // ----- In the supervisor -----

  function RuleFor(c: Config, family: Bytes): Bytes {
    (if family in c.approved then family else "default") + "-live"
  }

  /** A world whose live backend is the hook-backed one, over the configured targets. */
  ghost predicate HookBacked(c: Config, w: World, targets: map<Bytes, FamilyTarget>, hook: Hook, hash: Bytes -> Bytes) {
    && targets.Keys == c.targets
    && forall snapshotId, family {:trigger w.live(snapshotId, family)} :: family in targets ==>
         var r := LiveFamily(snapshotId, targets[family], RuleFor(c, family), hook, hash);
         if r.Ok? then w.live(snapshotId, family) == Ok(r.value) else w.live(snapshotId, family).Err?
  }

  /** The records of a refresh are the answers for the families asked, in their order. */
  lemma {:induction false} RecordsAreAnswers(w: World, snapshotId: Bytes, families: seq<Bytes>)
    requires LiveRecords(w, snapshotId, families).Ok?
    ensures var records := LiveRecords(w, snapshotId, families).value;
            && |records| == |families|
            && forall i :: 0 <= i < |records| ==> w.live(snapshotId, families[i]) == Ok(records[i])
  {
    if families != [] {
      RecordsAreAnswers(w, snapshotId, families[1..]);
    }
  }

  lemma {:induction false} EligibleAreTargets(c: Config, families: seq<Bytes>)
    ensures forall f :: f in Eligible(c, families) ==> f in families
  {
    if families != [] {
      EligibleAreTargets(c, families[1..]);
    }
  }

  /** The families a fresh live tick executes. */
  ghost function LiveFamilies(c: Config): seq<Bytes> {
    Eligible(c, Ascending(c.targets))
  }

  lemma LiveFamiliesAreTargets(c: Config)
    ensures forall f :: f in LiveFamilies(c) ==> f in c.targets
  {
    EligibleAreTargets(c, Ascending(c.targets));
  }

  /** With the hook-backed backend the one record a submitting tick's refresh keeps is the one whose
      submission it committed, unless the durable write fails: kept and committed live attempts are
      exactly the same. */
  lemma KeptIsCommitted(c: Config, s: State, w: World, targets: map<Bytes, FamilyTarget>, hook: Hook,
                        hash: Bytes -> Bytes)
    requires Unseeded(c) && Pristine(s) && RunOnce(c, s, w).submitted != []
    requires HookBacked(c, w, targets, hook, hash) && RecordsOf(c, w).Ok?
    ensures var records := RecordsOf(c, w).value; var r := Refresh(c, Refreshing(c, s), w, true);
            && |records| == |LiveFamilies(c)| > 0 && SubmitRef(records[0]).Some?
            && LiveFamilies(c)[0] in targets && records[0].scope == targets[LiveFamilies(c)[0]].familyId
            && r.state.log == [SubmitFact(1, records[0], SubmitRef(records[0]).value, w.clock(1))]
            && (r.result.Ok? <==> (c.durableLive ==> w.liveWriteOk))
            && (r.result.Ok? ==> r.state.core.liveRecords == [records[0]])
  {
    SubmittingTickAsks(c, s, w);
    FreshHookRecords(c, w, targets, hook, hash);
    var records := RecordsOf(c, w).value;
    assert FirstRef(records) == 0;
    OneRecordIsKept(c, s, w);
  }

  lemma FreshHookRecords(c: Config, w: World, targets: map<Bytes, FamilyTarget>, hook: Hook, hash: Bytes -> Bytes)
    requires HookBacked(c, w, targets, hook, hash) && RecordsOf(c, w).Ok? && LiveFamilies(c) != []
    ensures var records := RecordsOf(c, w).value;
            && |records| == |LiveFamilies(c)| && SubmitRef(records[0]).Some?
            && LiveFamilies(c)[0] in targets && records[0].scope == targets[LiveFamilies(c)[0]].familyId
  {
    var families := LiveFamilies(c);
    LiveFamiliesAreTargets(c);
    RecordsAreAnswers(w, SnapshotId(0), families);
    assert families[0] in targets && w.live(SnapshotId(0), families[0]).Ok?;
    LiveFamilySucceedsIff(SnapshotId(0), targets[families[0]], RuleFor(c, families[0]), hook, hash);
  }

  /** A tick that hands families to the backend has some to hand. */
  lemma SubmittingTickAsks(c: Config, s: State, w: World)
    requires Unseeded(c) && Pristine(s) && RunOnce(c, s, w).submitted != []
    ensures LiveFamilies(c) != []
  {
    SubmittingRefresh(c, s, w);
    var r := Refresh(c, Refreshing(c, s), w, true);
    FinishIsDrain(c, r.state, r.submitted, false);
  }

  /** The families whose signed plan the hook refuses, executed as a fresh live tick would. */
  ghost function Refused(c: Config, targets: map<Bytes, FamilyTarget>, hook: Hook, hash: Bytes -> Bytes): set<Bytes> {
    set f | f in targets &&
            hook(SignFamily(PlanOf(targets[f])).value,
                 LiveContext(SnapshotId(0), targets[f], RuleFor(c, f), hash)).Some?
  }

  /** A fresh live tick's calls fail exactly for the refused families. */
  ghost predicate FailsWhenRefused(c: Config, w: World, refused: set<Bytes>) {
    forall f :: f in c.targets ==> (w.live(SnapshotId(0), f).Err? <==> f in refused)
  }

  lemma HookFailsWhenRefused(
      c: Config, w: World, targets: map<Bytes, FamilyTarget>, hook: Hook, hash: Bytes -> Bytes)
    requires HookBacked(c, w, targets, hook, hash)
    ensures FailsWhenRefused(c, w, Refused(c, targets, hook, hash))
  {
    forall f | f in c.targets
      ensures w.live(SnapshotId(0), f).Err? <==> f in Refused(c, targets, hook, hash)
    {
      LiveFamilySucceedsIff(SnapshotId(0), targets[f], RuleFor(c, f), hook, hash);
    }
  }

  /** The records are lost exactly when some family's call fails. */
  lemma {:induction false} FailureLosesRecords(w: World, snapshotId: Bytes, families: seq<Bytes>)
    ensures LiveRecords(w, snapshotId, families).Err? <==> exists f :: f in families && w.live(snapshotId, f).Err?
  {
    if families != [] {
      FailureLosesRecords(w, snapshotId, families[1..]);
      assert forall f :: f in families <==> f == families[0] || f in families[1..];
    }
  }

  /** Reached families are all, or those up to and including the first whose call fails. */
  lemma {:induction false} ReachedUpToFailure(w: World, snapshotId: Bytes, families: seq<Bytes>)
    ensures var reached := Reached(w, snapshotId, families); var n := |reached| - 1;
            && reached <= families
            && (forall i :: 0 <= i < n ==> w.live(snapshotId, families[i]).Ok?)
            && (reached == families || (n >= 0 && w.live(snapshotId, families[n]).Err?))
  {
    if families != [] {
      ReachedUpToFailure(w, snapshotId, families[1..]);
      assert families == [families[0]] + families[1..];
    }
  }

  /** Some family of a fresh live tick is refused. */
  ghost predicate SomeRefused(c: Config, refused: set<Bytes>) {
    exists f :: f in LiveFamilies(c) && f in refused
  }

  /** All families of a fresh live tick, or those up to and including the first refused one. */
  ghost predicate UpToRefusal(c: Config, refused: set<Bytes>, submitted: seq<Bytes>) {
    var families, n := LiveFamilies(c), |submitted| - 1;
    && submitted <= families
    && (forall i :: 0 <= i < n ==> submitted[i] !in refused)
    && (submitted == families || (n >= 0 && submitted[n] in refused))
  }

  /** With the hook-backed backend a tick that goes live, at any moment of any run, executes its families
      up to the first one the hook refuses. If it refuses none, something is committed and no later tick
      ever submits again. If it refuses one, nothing is committed, though families were executed, and the
      very next tick executes them again. */
  lemma HookBackedSubmitsAgainIff(
      c: Config, before: seq<Event>, w: World, next: World,
      targets: map<Bytes, FamilyTarget>, hook: Hook, hash: Bytes -> Bytes)
    requires Unseeded(c) && HookBacked(c, w, targets, hook, hash)
    requires RunOnce(c, Play(c, FRESH, before), w).submitted != []
    ensures var tick := RunOnce(c, Play(c, FRESH, before), w); var refused := Refused(c, targets, hook, hash);
            && (RunOnce(c, tick.state, next).submitted != [] <==> SomeRefused(c, refused))
            && (SomeRefused(c, refused) ==> tick.state.log == [] && tick.result.Err?)
            && UpToRefusal(c, refused, tick.submitted)
  {
    var s := Play(c, FRESH, before);
    PlayKeepsPristine(c, FRESH, before);
    SubmissionsRepeatIff(c, before, w, next);
    NothingCommittedIff(c, before, w);
    HookFailsWhenRefused(c, w, targets, hook, hash);
    RefusedIsErr(c, w, Refused(c, targets, hook, hash));
    SubmittedFamilies(c, s, w);
    ReachedIsUpToRefusal(c, w, Refused(c, targets, hook, hash));
    if RecordsOf(c, w).Ok? {
      SubmittingTickAsks(c, s, w);
      FreshHookRecords(c, w, targets, hook, hash);
      assert FirstRef(RecordsOf(c, w).value) == 0;
    }
  }

  lemma RefusedIsErr(c: Config, w: World, refused: set<Bytes>)
    requires FailsWhenRefused(c, w, refused)
    ensures RecordsOf(c, w).Err? <==> SomeRefused(c, refused)
  {
    LiveFamiliesAreTargets(c);
    FailureLosesRecords(w, SnapshotId(0), LiveFamilies(c));
  }

  lemma ReachedIsUpToRefusal(c: Config, w: World, refused: set<Bytes>)
    requires FailsWhenRefused(c, w, refused)
    ensures UpToRefusal(c, refused, Reached(w, SnapshotId(0), LiveFamilies(c)))
  {
    var families := LiveFamilies(c);
    LiveFamiliesAreTargets(c);
    ReachedUpToFailure(w, SnapshotId(0), families);
    forall i | 0 <= i < |families| ensures families[i] in c.targets {
      assert families[i] in families;
    }
  }

  lemma SubmittedFamilies(c: Config, s: State, w: World)
    requires Unseeded(c) && Pristine(s) && RunOnce(c, s, w).submitted != []
    ensures RunOnce(c, s, w).submitted == Reached(w, SnapshotId(0), LiveFamilies(c))
  {
    SubmittingRefresh(c, s, w);
    var r := Refresh(c, Refreshing(c, s), w, true);
    FinishIsDrain(c, r.state, r.submitted, false);
  }

  /** With the hook-backed backend a tick whose families the hook accepted ends the submissions of an
      unseeded supervisor for good, even if the tick itself fails later. */
  lemma HookBackedSubmitsOnce(
      c: Config, before: seq<Event>, w: World, between: seq<Event>, later: World,
      targets: map<Bytes, FamilyTarget>, hook: Hook, hash: Bytes -> Bytes)
    requires Unseeded(c) && HookBacked(c, w, targets, hook, hash) && !SomeRefused(c, Refused(c, targets, hook, hash))
    requires RunOnce(c, Play(c, FRESH, before), w).submitted != []
    ensures var t := Play(c, RunOnce(c, Play(c, FRESH, before), w).state, between);
            RunOnce(c, t, later).submitted == []
  {
    var s := Play(c, FRESH, before);
    PlayKeepsPristine(c, FRESH, before);
    HookBackedSubmitsAgainIff(c, before, w, later, targets, hook, hash);
    SubmissionsRepeatIff(c, before, w, later);
    var t := RunOnce(c, s, w).state;
    TickOnlyAddsToLog(c, s, w);
    PlayKeepsPristine(c, t, between);
    CommittedLogEndsSynthesis(c, Play(c, t, between), later);
  }
}
