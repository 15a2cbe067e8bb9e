/** Attempt numbers, mode guards and venue sinks: crates/execution/src/attempt.rs, orchestrator.rs
    and sink.rs. */
module Attempts {
  import opened Options
  import opened Text
  import opened ExecutionRows
  import opened PlanIdentity
  import PlanScope

  datatype Attempt = Attempt(attemptId: Bytes, planId: Bytes, snapshotId: Bytes, attemptNo: nat)

  datatype AttemptContext = AttemptContext(
    attemptId: Bytes, snapshotId: Bytes, executionMode: ExecutionMode,
    route: Bytes, scope: Bytes, matchedRuleId: Option<Bytes>)

  datatype AttemptOutcome = Succeeded | ShadowRecorded | FailedDefinitive | FailedAmbiguous | RetryExhausted

  datatype Receipt = Receipt(
    attemptId: Bytes, outcome: AttemptOutcome, submissionRef: Option<Bytes>, pendingRef: Option<Bytes>)

  datatype SinkError =
    | Rejected(reason: Bytes)
    | ModeMismatch(sink: Bytes, expected: ExecutionMode, actual: ExecutionMode)

  datatype ExecutionError =
    | ModeViolation(mode: ExecutionMode, plan: ExecutionPlan)
    | Sink(error: SinkError)

  datatype PlanningInput = PlanningInput(request: ExecutionRequest, mode: ExecutionMode, plan: ExecutionPlan)

  datatype LiveSubmitOutcome =
    | Accepted(reference: Bytes)
    | AcceptedButUnconfirmed(submissionRef: Option<Bytes>, pendingRef: Bytes)
    | RejectedDefinitive(reason: Bytes)
    | Ambiguous(pendingRef: Bytes, reason: Bytes)

  /** A route adapter answers a submission with an outcome or a provider error. */
  type Adapter = (ExecutionPlan, AttemptContext) -> Result<LiveSubmitOutcome, Bytes>

  /** `u32` arithmetic of a release build. */
  const U32: nat := 0x1_0000_0000

  function Wrap(n: nat): nat {
    n % 0x1_0000_0000
  }

  function Increment(n: nat): nat {
    Wrap(n + 1)
  }

  predicate RiskExpanding(plan: ExecutionPlan) {
    plan.FullSetBuyThenMerge? || plan.FullSetSplitThenSell? || plan.NegRiskSubmitFamily?
  }

  function RouteOf(plan: ExecutionPlan): Option<Bytes> {
    match plan
    case CancelStale(_) => None
    case NegRiskSubmitFamily(_, _) => Some("neg-risk")
    case _ => Some("full-set")
  }

  // ----- Sinks -----

  function ReceiptFor(context: AttemptContext, outcome: LiveSubmitOutcome): Receipt {
    match outcome
    case Accepted(r) => Receipt(context.attemptId, Succeeded, Some(r), None)
    case AcceptedButUnconfirmed(r, p) => Receipt(context.attemptId, Succeeded, r, Some(p))
    case RejectedDefinitive(_) => Receipt(context.attemptId, FailedDefinitive, None, None)
    case Ambiguous(p, _) => Receipt(context.attemptId, FailedAmbiguous, None, Some(p))
  }

  /** `ensure_live_sink_mode`. */
  predicate LiveModeAllows(plan: ExecutionPlan, mode: ExecutionMode) {
    mode == Live || mode == RecoveryOnly || (mode == ReduceOnly && !RiskExpanding(plan))
  }

  /** `LiveVenueSink::execute`. */
  function LiveExecute(adapters: map<Bytes, Adapter>, plan: ExecutionPlan, context: AttemptContext)
    : Result<Receipt, SinkError>
  {
    if !LiveModeAllows(plan, context.executionMode) then Err(ModeMismatch("live", Live, context.executionMode))
    else if RiskExpanding(plan) then
      var route := RouteOf(plan).GetOr(context.route);
      if route !in adapters then Err(Rejected("missing live execution adapter for route " + route))
      else
        var outcome := adapters[route](plan, context);
        if outcome.Err? then Err(Rejected("route execution adapter error: " + outcome.error))
        else Ok(ReceiptFor(context, outcome.value))
    else Ok(Receipt(context.attemptId, Succeeded, None, None))
  }

  /** The adapter built on the test signer and a signed-family hook; the hook may refuse. */
  function HookAdapter(hook: (SignedFamily, AttemptContext) -> Option<Bytes>): Adapter {
    (plan, context) =>
      var signed := SignFamily(plan);
      if signed.Err? then Err("signing error")
      else
        var refusal := hook(signed.value, context);
        if refusal.Some? then Err("signed-family hook error: " + refusal.value)
        else Ok(AcceptedButUnconfirmed(None, "pending-hook:" + context.attemptId))
  }

  /** Outside Live and RecoveryOnly, and for every plan that adds no risk, no adapter has a say:
      nothing can have been submitted. */
  lemma AdaptersOnlySeeLiveRisk(
      a: map<Bytes, Adapter>, b: map<Bytes, Adapter>, plan: ExecutionPlan, context: AttemptContext)
    requires !(RiskExpanding(plan) && context.executionMode in {Live, RecoveryOnly})
    ensures LiveExecute(a, plan, context) == LiveExecute(b, plan, context)
  {
  }

  /** Every receipt of a hook-backed family submission is a success that carries a pending reference,
      so a live record made from it always has a reference to commit. */
  lemma HookReceiptsCarryReferences(
      hook: (SignedFamily, AttemptContext) -> Option<Bytes>, plan: ExecutionPlan, context: AttemptContext)
    requires plan.NegRiskSubmitFamily? && context.executionMode == Live
    ensures var r := LiveExecute(map["neg-risk" := HookAdapter(hook)], plan, context);
            && (r.Ok? <==> hook(SignFamily(plan).value, context).None?)
            && (r.Ok? ==>
                  r.value == Receipt(context.attemptId, Succeeded, None, Some("pending-hook:" + context.attemptId)))
  {
  }

  // ----- One execution -----

  /** `ExecutionOrchestrator::plan` refuses. */
  predicate Violates(input: PlanningInput) {
    || input.mode != input.request.activationMode
    || (input.request.activationMode == ReduceOnly && RiskExpanding(input.plan))
  }

  function BoundId(input: PlanningInput): Bytes {
    RequestBoundPlanId(input.plan, input.request)
  }

  /** Attempt counters by bound plan id, and what the shadow sink has recorded. */
  datatype State = State(counters: map<Bytes, nat>, recorded: seq<Bytes>)

  function Counter(counters: map<Bytes, nat>, planId: Bytes): nat {
    if planId in counters then counters[planId] else 0
  }

  datatype Venue = ShadowVenue | LiveVenue(adapters: map<Bytes, Adapter>)

  /** `ExecutionAttemptRecord`: what a successful execution hands back. */
  datatype AttemptRecord = AttemptRecord(attempt: Attempt, context: AttemptContext, receipt: Receipt)

  /** What an execution leaves, the attempt it took a number for, and its answer. */
  datatype Executed = Executed(state: State, attempt: Option<Attempt>, result: Result<AttemptRecord, ExecutionError>)

  function AttemptFor(s: State, input: PlanningInput, hash: Bytes -> Bytes): Attempt {
    var no := Increment(Counter(s.counters, BoundId(input)));
    Attempt(AttemptId(BoundId(input), no, hash), BoundId(input), input.request.snapshotId, no)
  }

  function ContextFor(attempt: Attempt, input: PlanningInput): AttemptContext {
    AttemptContext(attempt.attemptId, input.request.snapshotId, input.mode,
                   input.request.route, input.request.scope, input.request.matchedRuleId)
  }

  /** `execute_with_attempt`. */
  function Execute(venue: Venue, s: State, input: PlanningInput, hash: Bytes -> Bytes): Executed {
    if Violates(input) then Executed(s, None, Err(ModeViolation(input.request.activationMode, input.plan)))
    else
      var attempt := AttemptFor(s, input, hash);
      var context := ContextFor(attempt, input);
      var s1 := s.(counters := s.counters[attempt.planId := attempt.attemptNo]);
      match venue
      case ShadowVenue =>
        if input.mode != Shadow
        then Executed(s1, Some(attempt), Err(Sink(ModeMismatch("shadow", Shadow, input.mode))))
        else Executed(s1.(recorded := s1.recorded + [attempt.attemptId]), Some(attempt),
                      Ok(AttemptRecord(attempt, context, Receipt(attempt.attemptId, ShadowRecorded, None, None))))
      case LiveVenue(adapters) =>
        var receipt := LiveExecute(adapters, input.plan, context);
        Executed(s1, Some(attempt),
                 if receipt.Ok? then Ok(AttemptRecord(attempt, context, receipt.value)) else Err(Sink(receipt.error)))
  }

  /** One execution of a family plan on a new orchestrator over the hook-backed adapter. */
  lemma HookExecution(hook: (SignedFamily, AttemptContext) -> Option<Bytes>, input: PlanningInput, hash: Bytes -> Bytes)
    requires input.plan.NegRiskSubmitFamily? && input.mode == Live && input.request.activationMode == Live
    ensures var e := Execute(LiveVenue(map["neg-risk" := HookAdapter(hook)]), State(map[], []), input, hash);
            var attempt := Attempt(AttemptId(BoundId(input), 1, hash), BoundId(input), input.request.snapshotId, 1);
            var context := ContextFor(attempt, input);
            && (e.result.Ok? <==> hook(SignFamily(input.plan).value, context).None?)
            && (e.result.Ok? ==>
                  e.result == Ok(AttemptRecord(attempt, context,
                                               Receipt(attempt.attemptId, Succeeded, None,
                                                       Some("pending-hook:" + attempt.attemptId)))))
  {
    var s := State(map[], []);
    assert Counter(s.counters, BoundId(input)) == 0 && Increment(0) == 1;
    HookReceiptsCarryReferences(hook, input.plan, ContextFor(AttemptFor(s, input, hash), input));
  }

  // ----- Every run -----

  function Run(venue: Venue, s: State, inputs: seq<PlanningInput>, hash: Bytes -> Bytes): State {
    if inputs == [] then s
    else Execute(venue, Run(venue, s, inputs[..|inputs| - 1], hash), inputs[|inputs| - 1], hash).state
  }

  /** What the i-th execution of a run did. */
  function Ith(venue: Venue, s: State, inputs: seq<PlanningInput>, i: nat, hash: Bytes -> Bytes): Executed
    requires i < |inputs|
  {
    Execute(venue, Run(venue, s, inputs[..i], hash), inputs[i], hash)
  }

  function CountIf(p: PlanningInput -> bool, inputs: seq<PlanningInput>): nat {
    if inputs == [] then 0
    else CountIf(p, inputs[..|inputs| - 1]) + if p(inputs[|inputs| - 1]) then 1 else 0
  }

  function AdmitsUnder(planId: Bytes): PlanningInput -> bool {
    (input: PlanningInput) => !Violates(input) && BoundId(input) == planId
  }

  /** How many of the inputs are admitted under a bound plan id. */
  function Admitted(inputs: seq<PlanningInput>, planId: Bytes): nat {
    CountIf(AdmitsUnder(planId), inputs)
  }

  /** What an execution does to the counters, whatever the venue. */
  function Count(counters: map<Bytes, nat>, input: PlanningInput): map<Bytes, nat> {
    if Violates(input) then counters else counters[BoundId(input) := Increment(Counter(counters, BoundId(input)))]
  }

  function CountAll(counters: map<Bytes, nat>, inputs: seq<PlanningInput>): map<Bytes, nat> {
    if inputs == [] then counters else Count(CountAll(counters, inputs[..|inputs| - 1]), inputs[|inputs| - 1])
  }

  lemma ExecuteCounts(venue: Venue, s: State, input: PlanningInput, hash: Bytes -> Bytes)
    ensures Execute(venue, s, input, hash).state.counters == Count(s.counters, input)
  {
  }

  /** The counters after a run do not depend on the venue or on what it answered. */
  lemma {:induction false} RunCounts(venue: Venue, s: State, inputs: seq<PlanningInput>, hash: Bytes -> Bytes)
    ensures Run(venue, s, inputs, hash).counters == CountAll(s.counters, inputs)
  {
    if inputs != [] {
      RunCounts(venue, s, inputs[..|inputs| - 1], hash);
      ExecuteCounts(venue, Run(venue, s, inputs[..|inputs| - 1], hash), inputs[|inputs| - 1], hash);
    }
  }

  lemma IncrementRemainder(x: nat)
    ensures Increment(Wrap(x)) == Wrap(x + 1)
  {
  }

  lemma CountStep(counters: map<Bytes, nat>, input: PlanningInput, planId: Bytes)
    ensures Counter(Count(counters, input), planId) ==
            if AdmitsUnder(planId)(input) then Increment(Counter(counters, planId)) else Counter(counters, planId)
  {
  }

  lemma {:induction false} CountersCount(counters: map<Bytes, nat>, inputs: seq<PlanningInput>, planId: Bytes)
    requires forall p :: p in counters ==> counters[p] < U32
    ensures Counter(CountAll(counters, inputs), planId) == Wrap(Counter(counters, planId) + Admitted(inputs, planId))
  {
    if inputs == [] {
      SmallStays(Counter(counters, planId));
    } else {
      var front, last := inputs[..|inputs| - 1], inputs[|inputs| - 1];
      CountersCount(counters, front, planId);
      CountStep(CountAll(counters, front), last, planId);
      NextCount(Counter(counters, planId), CountIf(AdmitsUnder(planId), front), AdmitsUnder(planId)(last));
    }
  }

  lemma SmallStays(n: nat)
    requires n < U32
    ensures Wrap(n) == n
  {
  }

  lemma NextCount(c: nat, before: nat, admitted: bool)
    ensures (if admitted then Increment(Wrap(c + before)) else Wrap(c + before))
            == Wrap(c + (before + if admitted then 1 else 0))
  {
    IncrementRemainder(c + before);
  }

  /** The number the i-th execution gets if it is admitted under planId. */
  function NumberAt(s: State, inputs: seq<PlanningInput>, i: nat, planId: Bytes): nat
    requires i < |inputs|
  {
    Wrap(Counter(s.counters, planId) + Admitted(inputs[..i], planId) + 1)
  }

  /** The attempt of an admitted execution is numbered by how many came before it under its plan,
      whatever the sink answered to them; a refused one takes no number and changes nothing. */
  lemma NumbersCountAdmissions(venue: Venue, s: State, inputs: seq<PlanningInput>, i: nat, hash: Bytes -> Bytes)
    requires i < |inputs| && forall p :: p in s.counters ==> s.counters[p] < U32
    ensures var planId, e := BoundId(inputs[i]), Ith(venue, s, inputs, i, hash);
            if Violates(inputs[i])
            then e.attempt.None? && e.result.Err? && e.result.error.ModeViolation?
            && e.state == Run(venue, s, inputs[..i], hash)
            else && e.attempt.Some? && e.attempt.value.planId == planId
                 && e.attempt.value.attemptNo == NumberAt(s, inputs, i, planId)
                 && e.attempt.value.attemptId == AttemptId(planId, e.attempt.value.attemptNo, hash)
  {
    RunCounts(venue, s, inputs[..i], hash);
    CountersCount(s.counters, inputs[..i], BoundId(inputs[i]));
    IncrementRemainder(Counter(s.counters, BoundId(inputs[i])) + Admitted(inputs[..i], BoundId(inputs[i])));
  }

  lemma {:induction false} CountGrows(p: PlanningInput -> bool, inputs: seq<PlanningInput>, i: nat, j: nat)
    requires i <= j <= |inputs|
    ensures CountIf(p, inputs[..i]) <= CountIf(p, inputs[..j])
    decreases j - i
  {
    if i < j {
      CountGrows(p, inputs, i, j - 1);
      assert inputs[..j][..j - 1] == inputs[..j - 1];
    }
  }

  lemma CountBetween(p: PlanningInput -> bool, inputs: seq<PlanningInput>, i: nat, j: nat)
    requires i < j <= |inputs| && p(inputs[i])
    ensures CountIf(p, inputs[..i]) < CountIf(p, inputs[..j])
  {
    CountGrows(p, inputs, i + 1, j);
    assert inputs[..i + 1][..i] == inputs[..i];
  }

  lemma AdmissionsBetween(inputs: seq<PlanningInput>, i: nat, j: nat)
    requires i < j < |inputs| && !Violates(inputs[i])
    ensures Admitted(inputs[..i], BoundId(inputs[i])) < Admitted(inputs[..j], BoundId(inputs[i]))
  {
    CountBetween(AdmitsUnder(BoundId(inputs[i])), inputs, i, j);
  }

  lemma EqualNumbers(c: nat, a: nat, b: nat)
    requires a <= b
    ensures Wrap(c + a + 1) == Wrap(c + b + 1) <==> Wrap(b - a) == 0
  {
  }

  lemma NumberedAlike(s: State, inputs: seq<PlanningInput>, i: nat, j: nat, a: Attempt, b: Attempt)
    requires i < |inputs| && j < |inputs| && Admitted(inputs[..i], a.planId) <= Admitted(inputs[..j], a.planId)
    requires a.attemptNo == NumberAt(s, inputs, i, a.planId) && b.attemptNo == NumberAt(s, inputs, j, b.planId)
    ensures a.planId == b.planId && a.attemptNo == b.attemptNo <==>
            a.planId == b.planId && Wrap(Admitted(inputs[..j], a.planId) - Admitted(inputs[..i], a.planId)) == 0
  {
    EqualNumbers(Counter(s.counters, a.planId), Admitted(inputs[..i], a.planId), Admitted(inputs[..j], a.planId));
  }

  /** Two attempts of a run get one plan id and one number exactly when they are of one plan and the
      admissions of that plan between them, of which there is at least one, are a multiple of 2^32. */
  lemma RepeatsAreFarApart(
      venue: Venue, s: State, inputs: seq<PlanningInput>, i: nat, j: nat, hash: Bytes -> Bytes, a: Attempt, b: Attempt)
    requires i < j < |inputs| && forall p :: p in s.counters ==> s.counters[p] < U32
    requires Ith(venue, s, inputs, i, hash).attempt == Some(a) && Ith(venue, s, inputs, j, hash).attempt == Some(b)
    ensures Admitted(inputs[..i], a.planId) < Admitted(inputs[..j], a.planId)
    ensures a.planId == b.planId && a.attemptNo == b.attemptNo <==>
            a.planId == b.planId && Wrap(Admitted(inputs[..j], a.planId) - Admitted(inputs[..i], a.planId)) == 0
  {
    NumbersCountAdmissions(venue, s, inputs, i, hash);
    NumbersCountAdmissions(venue, s, inputs, j, hash);
    AdmissionsBetween(inputs, i, j);
    NumberedAlike(s, inputs, i, j, a, b);
  }

  /** No two of these plan ids collide, and their hashes are hex strings, which hold no separator. */
  ghost predicate Separates(hash: Bytes -> Bytes, planIds: set<Bytes>) {
    && (forall p :: p in planIds ==> ':' !in hash(p))
    && (forall p, q :: p in planIds && q in planIds && hash(p) == hash(q) ==> p == q)
  }

  lemma AttemptIdsAreInjective(p: Bytes, m: nat, q: Bytes, n: nat, hash: Bytes -> Bytes)
    requires Separates(hash, {p, q})
    ensures AttemptId(p, m, hash) == AttemptId(q, n, hash) <==> p == q && m == n
  {
    if AttemptId(p, m, hash) == AttemptId(q, n, hash) {
      var x, y := "attempt-" + Digits(m), "attempt-" + Digits(n);
      var prefix := PlanScope.BOUND;
      assert AttemptId(p, m, hash) == prefix + (hash(p) + [':'] + x);
      assert AttemptId(q, n, hash) == prefix + (hash(q) + [':'] + y);
      assert AttemptId(p, m, hash)[|prefix|..] == hash(p) + [':'] + x;
      assert AttemptId(q, n, hash)[|prefix|..] == hash(q) + [':'] + y;
      CutIsUnique(hash(p), x, hash(q), y, ':');
      assert x[8..] == Digits(m) && y[8..] == Digits(n);
      DigitsInjective(m, n);
    }
  }

  lemma AttemptHasItsId(venue: Venue, s: State, input: PlanningInput, hash: Bytes -> Bytes, a: Attempt)
    requires Execute(venue, s, input, hash).attempt == Some(a)
    ensures a.attemptId == AttemptId(a.planId, a.attemptNo, hash)
  {
  }

  lemma OtherAttemptsHaveOtherIds(a: Attempt, b: Attempt, hash: Bytes -> Bytes)
    requires Separates(hash, {a.planId, b.planId}) && (a.planId != b.planId || a.attemptNo != b.attemptNo)
    requires a.attemptId == AttemptId(a.planId, a.attemptNo, hash)
    requires b.attemptId == AttemptId(b.planId, b.attemptNo, hash)
    ensures a.attemptId != b.attemptId
  {
    AttemptIdsAreInjective(a.planId, a.attemptNo, b.planId, b.attemptNo, hash);
  }

  lemma SmallWraps(n: nat)
    requires 0 < n < U32
    ensures Wrap(n) != 0
  {
  }

  /** In a run short enough not to wrap, no two attempts share an id, across all interleaved plans. */
  lemma AttemptIdsAreDistinct(
      venue: Venue, s: State, inputs: seq<PlanningInput>, i: nat, j: nat, hash: Bytes -> Bytes, a: Attempt, b: Attempt)
    requires i < j < |inputs| && forall p :: p in s.counters ==> s.counters[p] < U32
    requires Ith(venue, s, inputs, i, hash).attempt == Some(a) && Ith(venue, s, inputs, j, hash).attempt == Some(b)
    requires Separates(hash, {a.planId, b.planId}) && Admitted(inputs[..j], a.planId) < U32
    ensures a.attemptId != b.attemptId
  {
    RepeatsAreFarApart(venue, s, inputs, i, j, hash, a, b);
    SmallWraps(Admitted(inputs[..j], a.planId) - Admitted(inputs[..i], a.planId));
    AttemptHasItsId(venue, Run(venue, s, inputs[..i], hash), inputs[i], hash, a);
    AttemptHasItsId(venue, Run(venue, s, inputs[..j], hash), inputs[j], hash, b);
    OtherAttemptsHaveOtherIds(a, b, hash);
  }

  /** The ids of the successful executions of a run, in order. */
  function SuccessIds(venue: Venue, s: State, inputs: seq<PlanningInput>, hash: Bytes -> Bytes): seq<Bytes> {
    if inputs == [] then []
    else
      var n := |inputs| - 1;
      var result := Ith(venue, s, inputs, n, hash).result;
      SuccessIds(venue, s, inputs[..n], hash) + if result.Ok? then [result.value.receipt.attemptId] else []
  }

  /** The shadow sink has recorded exactly the successful executions, in order; the live one nothing. */
  lemma {:induction false} ShadowLogIsSuccesses(venue: Venue, s: State, inputs: seq<PlanningInput>,
                                                hash: Bytes -> Bytes)
    ensures Run(venue, s, inputs, hash).recorded
         == s.recorded + if venue.ShadowVenue? then SuccessIds(venue, s, inputs, hash) else []
  {
    if inputs != [] {
      ShadowLogIsSuccesses(venue, s, inputs[..|inputs| - 1], hash);
    }
  }

  // ----- The objects -----

  class AttemptFactory {
    var nextAttemptNoByPlan: map<Bytes, nat>

    /** `with_seeded_attempt_numbers`. */
    constructor (seed: map<Bytes, nat>)
      ensures nextAttemptNoByPlan == seed
    {
      nextAttemptNoByPlan := seed;
    }

    /** `next_for_plan`. */
    method NextForPlan(input: PlanningInput, hash: Bytes -> Bytes) returns (attempt: Attempt, context: AttemptContext)
      modifies this
      ensures attempt == AttemptFor(State(old(nextAttemptNoByPlan), []), input, hash)
      ensures context == ContextFor(attempt, input)
      ensures nextAttemptNoByPlan == old(nextAttemptNoByPlan)[attempt.planId := attempt.attemptNo]
    {
      var planId := RequestBoundPlanId(input.plan, input.request);
      if planId !in nextAttemptNoByPlan {
        nextAttemptNoByPlan := nextAttemptNoByPlan[planId := 0];
      }
      var no := Increment(nextAttemptNoByPlan[planId]);
      nextAttemptNoByPlan := nextAttemptNoByPlan[planId := no];
      attempt := Attempt(AttemptId(planId, no, hash), planId, input.request.snapshotId, no);
      context := ContextFor(attempt, input);
    }
  }

  class ShadowVenueSink {
    var recordedAttemptIds: seq<Bytes>

    constructor ()
      ensures recordedAttemptIds == []
    {
      recordedAttemptIds := [];
    }

    method Execute(context: AttemptContext) returns (r: Result<Receipt, SinkError>)
      modifies this
      ensures r.Ok? <==> context.executionMode == Shadow
      ensures recordedAttemptIds == old(recordedAttemptIds) + if r.Ok? then [context.attemptId] else []
      ensures r == if r.Ok? then Ok(Receipt(context.attemptId, ShadowRecorded, None, None))
                   else Err(ModeMismatch("shadow", Shadow, context.executionMode))
    {
      if context.executionMode != Shadow {
        return Err(ModeMismatch("shadow", Shadow, context.executionMode));
      }
      recordedAttemptIds := recordedAttemptIds + [context.attemptId];
      r := Ok(Receipt(context.attemptId, ShadowRecorded, None, None));
    }
  }

  class ExecutionOrchestrator {
    const venue: Venue
    const shadow: ShadowVenueSink
    const factory: AttemptFactory

    function Contents(): State
      reads factory, shadow
    {
      State(factory.nextAttemptNoByPlan, shadow.recordedAttemptIds)
    }

    constructor (venue: Venue, shadow: ShadowVenueSink, factory: AttemptFactory)
      ensures this.venue == venue && this.shadow == shadow && this.factory == factory
    {
      this.venue, this.shadow, this.factory := venue, shadow, factory;
    }

    method ExecuteWithAttempt(input: PlanningInput, hash: Bytes -> Bytes)
      returns (r: Result<AttemptRecord, ExecutionError>)
      modifies factory, shadow
      ensures var e := Execute(venue, old(Contents()), input, hash);
              Contents() == e.state && r == e.result
    {
      if Violates(input) {
        return Err(ModeViolation(input.request.activationMode, input.plan));
      }
      var attempt, context := factory.NextForPlan(input, hash);
      var receipt: Result<Receipt, SinkError>;
      match venue {
        case ShadowVenue => receipt := shadow.Execute(context);
        case LiveVenue(adapters) => receipt := LiveExecute(adapters, input.plan, context);
      }
      r := if receipt.Ok? then Ok(AttemptRecord(attempt, context, receipt.value)) else Err(Sink(receipt.error));
    }
  }
}
