/** crates/app-live/src/negrisk_shadow.rs: the shadow planner, and what the batches it makes mean
    for the durable tables. */
module ShadowPlanner {
  import opened Options
  import opened Text
  import opened ExecutionRows
  import opened OrderedKeys
  import opened StableSort
  import opened PlanIdentity
  import opened ShadowBatches
  import A = Attempts
  import PlanScope

  /** The artifact payload before it is rendered as JSON. */
  datatype Payload = Payload(
    attemptId: Bytes, planId: Bytes, snapshotId: Bytes, route: Bytes, scope: Bytes,
    matchedRuleId: Option<Bytes>, members: seq<seq<Bytes>>)

  datatype ShadowRecord = ShadowRecord(attempt: ExecutionAttemptRow, artifact: ShadowArtifactRow)

  datatype ShadowError =
    | Planning(error: PlanningError)
    | SinkFailed
    | DuplicateInBatch(attemptId: Bytes)

  /** The hash and the JSON printer, which are foreign to the repository. */
  datatype Foreign = Foreign(hash: Bytes -> Bytes, json: Payload -> Bytes)

  const STREAM: Bytes := "neg-risk-shadow-plan"

  function Request(snapshotId: Bytes, target: FamilyTarget, ruleId: Bytes): ExecutionRequest {
    ExecutionRequest("negrisk-shadow-request:" + (snapshotId + ":" + target.familyId), snapshotId,
                     ROUTE, target.familyId, Shadow, Some(ruleId))
  }

  function PayloadOf(row: ExecutionAttemptRow, plan: ExecutionPlan): Payload {
    Payload(row.attemptId, row.planId, row.snapshotId, row.route, row.scope, row.matchedRuleId,
            if plan.NegRiskSubmitFamily? then Map(Fields, plan.members) else [])
  }

  /** `execute_shadow_family`: plan, execute once on a new orchestrator, and write down the attempt. */
  function ShadowFamily(snapshotId: Bytes, target: FamilyTarget, ruleId: Bytes, session: Option<Bytes>, f: Foreign)
    : Result<ShadowRecord, ShadowError>
  {
    var request := Request(snapshotId, target, ruleId);
    var plan := PlanFamilySubmission(request, target);
    if plan.Err? then Err(Planning(plan.error))
    else
      var e := A.Execute(A.ShadowVenue, A.State(map[], []), A.PlanningInput(request, Shadow, plan.value), f.hash);
      if e.result.Err? || e.result.value.receipt.outcome != A.ShadowRecorded then Err(SinkFailed)
      else
        var attempt, context, id := e.result.value.attempt, e.result.value.context, e.result.value.receipt.attemptId;
        var row := ExecutionAttemptRow(
          id, attempt.planId, attempt.snapshotId, context.route, context.scope, context.matchedRuleId,
          context.executionMode, attempt.attemptNo, "idem-" + attempt.attemptId, session);
        Ok(ShadowRecord(row, ShadowArtifactRow(id, STREAM, f.json(PayloadOf(row, plan.value)))))
  }

  function BoundPlanId(snapshotId: Bytes, target: FamilyTarget): Bytes {
    PlanScope.RequestBoundPlanId("negrisk-shadow-request:" + (snapshotId + ":" + target.familyId),
                                 PlanId(PlanOf(target)))
  }

  /** Planning and the sink never refuse a shadow family; its attempt is the first of its plan. */
  lemma ShadowFamilySucceeds(snapshotId: Bytes, target: FamilyTarget, ruleId: Bytes, session: Option<Bytes>, f: Foreign)
    ensures var r := ShadowFamily(snapshotId, target, ruleId, session, f);
            && r.Ok?
            && r.value.attempt.attemptId == AttemptId(BoundPlanId(snapshotId, target), 1, f.hash)
            && r.value.attempt.executionMode == Shadow && r.value.attempt.attemptNo == 1
            && r.value.attempt.runSessionId == session
            && r.value.artifact.attemptId == r.value.attempt.attemptId
  {
  }

  /** Two targets get one attempt id exactly when they are one family with one plan id. */
  lemma SameAttemptIff(snapshotId: Bytes, x: FamilyTarget, y: FamilyTarget, f: Foreign)
    requires A.Separates(f.hash, {BoundPlanId(snapshotId, x), BoundPlanId(snapshotId, y)})
    ensures AttemptId(BoundPlanId(snapshotId, x), 1, f.hash) == AttemptId(BoundPlanId(snapshotId, y), 1, f.hash) <==>
            x.familyId == y.familyId && PlanId(PlanOf(x)) == PlanId(PlanOf(y))
  {
    A.AttemptIdsAreInjective(BoundPlanId(snapshotId, x), 1, BoundPlanId(snapshotId, y), 1, f.hash);
    if BoundPlanId(snapshotId, x) == BoundPlanId(snapshotId, y) {
      var prefix: Bytes := "negrisk-shadow-request:";
      var u, v := snapshotId + ":" + x.familyId, snapshotId + ":" + y.familyId;
      PlanScope.BindingIsInjective(prefix + u, PlanId(PlanOf(x)), prefix + v, PlanId(PlanOf(y)));
      assert (prefix + u)[|prefix|..] == u && (prefix + v)[|prefix|..] == v;
      assert u[|snapshotId| + 1..] == x.familyId && v[|snapshotId| + 1..] == y.familyId;
    }
  }

  // ----- A batch -----

  type Targets = map<Bytes, FamilyTarget>

  /** What a planning pass is given besides the targets. */
  datatype Pass = Pass(snapshotId: Bytes, approved: set<Bytes>, ready: set<Bytes>, foreign: Foreign)

  predicate Chosen(p: Pass, key: Bytes) {
    key in p.ready && (key in p.approved || "default" in p.approved)
  }

  function RuleFor(p: Pass, key: Bytes): Bytes {
    (if key in p.approved then key else "default") + "-live"
  }

  function RecordFor(p: Pass, targets: Targets, key: Bytes, session: Option<Bytes>): ShadowRecord
    requires key in targets
  {
    ShadowFamilySucceeds(p.snapshotId, targets[key], RuleFor(p, key), session, p.foreign);
    ShadowFamily(p.snapshotId, targets[key], RuleFor(p, key), session, p.foreign).value
  }

  function ChosenKeys(p: Pass, keys: seq<Bytes>): (r: seq<Bytes>)
    ensures forall k :: k in r <==> k in keys && Chosen(p, k)
  {
    if keys == [] then []
    else (if Chosen(p, keys[0]) then [keys[0]] else []) + ChosenKeys(p, keys[1..])
  }

  ghost predicate Keyed(s: seq<ShadowRecord>) {
    forall i, j :: 0 <= i < j < |s| ==> s[i].attempt.attemptId != s[j].attempt.attemptId
  }

  /** The record of a key, as a function value. */
  ghost function Maker(p: Pass, targets: Targets, session: Option<Bytes>): Bytes -> ShadowRecord {
    key => RecordFor(p, if key in targets then targets else targets[key := FamilyTarget(key, [])], key, session)
  }

  ghost function Plans(p: Pass, targets: Targets, session: Option<Bytes>): seq<ShadowRecord> {
    Map(Maker(p, targets, session), ChosenKeys(p, Ascending(targets.Keys)))
  }

  ghost predicate Makes(make: Bytes -> ShadowRecord, p: Pass, targets: Targets, session: Option<Bytes>) {
    forall key {:trigger RecordFor(p, targets, key, session)} :: key in targets ==>
      make(key) == RecordFor(p, targets, key, session)
  }

  method ExecuteShadowFamily(p: Pass, targets: Targets, key: Bytes, session: Option<Bytes>,
                             ghost make: Bytes -> ShadowRecord)
    returns (record: ShadowRecord)
    requires key in targets && Makes(make, p, targets, session)
    ensures record == make(key)
  {
    ShadowFamilySucceeds(p.snapshotId, targets[key], RuleFor(p, key), session, p.foreign);
    record := ShadowFamily(p.snapshotId, targets[key], RuleFor(p, key), session, p.foreign).value;
    assert record == RecordFor(p, targets, key, session);
  }

  /** `eligible_shadow_records_with_run_session_id`: one record for every chosen target, in key
      order, unless two of them would share an attempt id. */
  method EligibleShadowRecords(p: Pass, targets: Targets, session: Option<Bytes>)
    returns (r: Result<seq<ShadowRecord>, ShadowError>)
    ensures r.Ok? <==> Keyed(Plans(p, targets, session))
    ensures r.Ok? ==> r.value == Plans(p, targets, session)
    ensures r.Err? ==> r.error.DuplicateInBatch?
  {
    var keys := InOrder(targets.Keys);
    r := CollectRecords(p, targets, keys, session, Maker(p, targets, session), s => Keyed(s));
  }

  method CollectRecords(p: Pass, targets: Targets, keys: seq<Bytes>, session: Option<Bytes>,
                        ghost make: Bytes -> ShadowRecord, ghost keyed: seq<ShadowRecord> -> bool)
    returns (r: Result<seq<ShadowRecord>, ShadowError>)
    requires Makes(make, p, targets, session) && IsKeyed(keyed) && forall k :: k in keys ==> k in targets
    ensures var all := Map(make, ChosenKeys(p, keys));
            && (r.Ok? <==> keyed(all))
            && (r.Ok? ==> r.value == all)
            && (r.Err? ==> r.error.DuplicateInBatch?)
  {
    var records: seq<ShadowRecord>, seen: set<Bytes> := [], {};
    var duplicate: Option<Bytes> := None;
    ghost var all := Map(make, ChosenKeys(p, keys));
    ghost var rest := all;
    NothingIsKeyed(keyed);
    var n := 0;
    while n < |keys| && duplicate.None?
      invariant 0 <= n <= |keys|
      invariant duplicate.Some? ==> !keyed(all)
      invariant duplicate.None? ==> rest == Map(make, ChosenKeys(p, keys[n..])) && all == records + rest
      invariant duplicate.None? ==> keyed(records) && seen == Ids(records)
      decreases |keys| - n
    {
      ghost var after := Map(make, ChosenKeys(p, keys[n + 1..]));
      MapTurn(p, make, keys, n);
      if Chosen(p, keys[n]) {
        var record := ExecuteShadowFamily(p, targets, keys[n], session, make);
        CollectTurn(keyed, records, all, record, after);
        if record.attempt.attemptId in seen {
          duplicate := Some(record.attempt.attemptId);
        }
        records, seen := records + [record], seen + {record.attempt.attemptId};
      }
      rest, n := after, n + 1;
    }
    assert duplicate.None? ==> keys[n..] == [] && rest == [] && all == records;
    r := if duplicate.Some? then Err(DuplicateInBatch(duplicate.value)) else Ok(records);
  }

  lemma MapTurn(p: Pass, make: Bytes -> ShadowRecord, keys: seq<Bytes>, n: nat)
    requires n < |keys|
    ensures var rest := Map(make, ChosenKeys(p, keys[n + 1..]));
            Map(make, ChosenKeys(p, keys[n..])) == if Chosen(p, keys[n]) then [make(keys[n])] + rest else rest
  {
    ChosenTurn(p, keys, n);
    MapFirst(make, keys[n], ChosenKeys(p, keys[n + 1..]));
  }

  ghost function Ids(records: seq<ShadowRecord>): set<Bytes> {
    set i | 0 <= i < |records| :: records[i].attempt.attemptId
  }

  lemma Regroup(a: seq<ShadowRecord>, x: ShadowRecord, b: seq<ShadowRecord>)
    ensures a + ([x] + b) == a + [x] + b
  {
  }

  lemma MapFirst(make: Bytes -> ShadowRecord, key: Bytes, rest: seq<Bytes>)
    ensures Map(make, [key] + rest) == [make(key)] + Map(make, rest)
  {
  }

  lemma KeyedPush(records: seq<ShadowRecord>, record: ShadowRecord, rest: seq<ShadowRecord>)
    requires Keyed(records)
    ensures Ids(records + [record]) == Ids(records) + {record.attempt.attemptId}
    ensures if record.attempt.attemptId in Ids(records) then !Keyed(records + [record] + rest)
            else Keyed(records + [record])
  {
    var more, all := records + [record], records + [record] + rest;
    assert more[|records|] == record && all[|records|] == record;
    assert forall i :: 0 <= i < |records| ==> more[i] == records[i] && all[i] == records[i];
    assert forall id :: id in Ids(more) <==> id in Ids(records) || id == record.attempt.attemptId;
  }

  lemma ChosenTurn(p: Pass, keys: seq<Bytes>, n: nat)
    requires n < |keys|
    ensures var rest := ChosenKeys(p, keys[n + 1..]);
            ChosenKeys(p, keys[n..]) == if Chosen(p, keys[n]) then [keys[n]] + rest else rest
  {
    assert keys[n..][1..] == keys[n + 1..];
  }

  ghost predicate IsKeyed(keyed: seq<ShadowRecord> -> bool) {
    forall s {:trigger Keyed(s)} :: keyed(s) <==> Keyed(s)
  }

  lemma NothingIsKeyed(keyed: seq<ShadowRecord> -> bool)
    requires IsKeyed(keyed)
    ensures keyed([])
  {
    assert Keyed([]);
  }

  lemma CollectTurn(keyed: seq<ShadowRecord> -> bool, records: seq<ShadowRecord>, all: seq<ShadowRecord>,
                    record: ShadowRecord, rest: seq<ShadowRecord>)
    requires IsKeyed(keyed) && keyed(records) && all == records + ([record] + rest)
    ensures all == records + [record] + rest
    ensures Ids(records + [record]) == Ids(records) + {record.attempt.attemptId}
    ensures if record.attempt.attemptId in Ids(records) then !keyed(all) else keyed(records + [record])
  {
    assert keyed(records) <==> Keyed(records);
    KeyedPush(records, record, rest);
    Regroup(records, record, rest);
    assert keyed(all) <==> Keyed(all);
    assert keyed(records + [record]) <==> Keyed(records + [record]);
  }

  lemma {:induction false} ChosenKeysDistinct(p: Pass, keys: seq<Bytes>)
    requires Distinct(keys)
    ensures Distinct(ChosenKeys(p, keys))
  {
    if keys != [] {
      ChosenKeysDistinct(p, keys[1..]);
    }
  }

  /** The bound plan ids a pass executes. */
  function ChosenPlanIds(p: Pass, targets: Targets): set<Bytes> {
    set k | k in targets && Chosen(p, k) :: BoundPlanId(p.snapshotId, targets[k])
  }

  lemma OwnKeysHaveOwnAttempts(p: Pass, targets: Targets, session: Option<Bytes>, j: Bytes, k: Bytes)
    requires A.Separates(p.foreign.hash, ChosenPlanIds(p, targets))
    requires j in targets && k in targets && j != k && Chosen(p, j) && Chosen(p, k)
    requires targets[j].familyId == j && targets[k].familyId == k
    ensures RecordFor(p, targets, j, session).attempt.attemptId != RecordFor(p, targets, k, session).attempt.attemptId
  {
    var x, y := BoundPlanId(p.snapshotId, targets[j]), BoundPlanId(p.snapshotId, targets[k]);
    assert x in ChosenPlanIds(p, targets) && y in ChosenPlanIds(p, targets);
    ShadowFamilySucceeds(p.snapshotId, targets[j], RuleFor(p, j), session, p.foreign);
    ShadowFamilySucceeds(p.snapshotId, targets[k], RuleFor(p, k), session, p.foreign);
    SameAttemptIff(p.snapshotId, targets[j], targets[k], p.foreign);
  }

  /** When every target sits under its own family id, as rendered targets do, planning never fails. */
  lemma OwnKeysNeverCollide(p: Pass, targets: Targets, session: Option<Bytes>)
    requires A.Separates(p.foreign.hash, ChosenPlanIds(p, targets))
    requires forall k :: k in targets ==> targets[k].familyId == k
    ensures Keyed(Plans(p, targets, session))
  {
    var keys := ChosenKeys(p, Ascending(targets.Keys));
    ChosenKeysDistinct(p, Ascending(targets.Keys));
    var all := Plans(p, targets, session);
    forall i, j | 0 <= i < j < |all| ensures all[i].attempt.attemptId != all[j].attempt.attemptId {
      assert keys[i] in keys && keys[j] in keys;
      OwnKeysHaveOwnAttempts(p, targets, session, keys[i], keys[j]);
    }
  }

  function Attempts(records: seq<ShadowRecord>): (r: seq<ExecutionAttemptRow>)
    ensures |r| == |records| && forall i :: 0 <= i < |r| ==> r[i] == records[i].attempt
  {
    seq(|records|, i requires 0 <= i < |records| => records[i].attempt)
  }

  function Artifacts(records: seq<ShadowRecord>): (r: seq<ShadowArtifactRow>)
    ensures |r| == |records| && forall i :: 0 <= i < |r| ==> r[i] == records[i].artifact
  {
    seq(|records|, i requires 0 <= i < |records| => records[i].artifact)
  }

  // ----- Planned batches in the tables -----

  /** A pass of the planner persisted under its session: what the supervisor does in one tick. */
  ghost function Tick(t: Tables, p: Pass, targets: Targets, session: Option<Bytes>): Tables {
    var records := Plans(p, targets, session);
    if !Keyed(records) then t
    else
      var r := Persist(t, Attempts(records), Artifacts(records), session);
      if r.Ok? then r.value else t
  }

  lemma PlannedRows(p: Pass, targets: Targets, session: Option<Bytes>, i: nat)
    requires i < |Plans(p, targets, session)|
    ensures var record := Plans(p, targets, session)[i];
            record.attempt.executionMode == Shadow && record.artifact.attemptId == record.attempt.attemptId
  {
    var key := ChosenKeys(p, Ascending(targets.Keys))[i];
    assert key in ChosenKeys(p, Ascending(targets.Keys));
    ShadowFamilySucceeds(p.snapshotId, targets[key], RuleFor(p, key), session, p.foreign);
  }

  /** A batch that passed the planner passes the duplicate check at the persistence boundary. */
  lemma PlannedBatchesPassDuplicateCheck(p: Pass, targets: Targets, session: Option<Bytes>)
    requires Keyed(Plans(p, targets, session))
    ensures Distinct(AttemptIds(Attempts(Plans(p, targets, session))))
  {
  }

  lemma PairedBatchKeepsRestorable(t: Tables, attempts: seq<ExecutionAttemptRow>, artifacts: seq<ShadowArtifactRow>)
    requires Consistent(t) && Restorable(t) && Batch(t, attempts, artifacts).Ok?
    requires |artifacts| == |attempts| && forall i :: 0 <= i < |attempts| ==>
               artifacts[i].attemptId == attempts[i].attemptId
    ensures Consistent(Batch(t, attempts, artifacts).value) && Restorable(Batch(t, attempts, artifacts).value)
  {
    BatchAcceptedIff(t, attempts, artifacts);
    forall i | 0 <= i < |attempts| ensures HasArtifact(artifacts, attempts[i].attemptId) {
      assert artifacts[i].attemptId == attempts[i].attemptId;
    }
    RestorableAfterIff(t, attempts, artifacts);
  }

  lemma TickKeepsRestorable(t: Tables, p: Pass, targets: Targets, session: Option<Bytes>)
    requires Consistent(t) && Restorable(t)
    ensures Consistent(Tick(t, p, targets, session)) && Restorable(Tick(t, p, targets, session))
  {
    var records := Plans(p, targets, session);
    var attempts, artifacts := AllWithSession(Attempts(records), session), Artifacts(records);
    forall i | 0 <= i < |attempts| ensures artifacts[i].attemptId == attempts[i].attemptId {
      PlannedRows(p, targets, session, i);
    }
    if Batch(t, attempts, artifacts).Ok? {
      PairedBatchKeepsRestorable(t, attempts, artifacts);
    }
  }

  datatype Planned = Planned(pass: Pass, targets: Targets, session: Option<Bytes>)

  ghost function Ticks(t: Tables, planned: seq<Planned>): Tables {
    if planned == [] then t
    else
      var last := planned[|planned| - 1];
      Tick(Ticks(t, planned[..|planned| - 1]), last.pass, last.targets, last.session)
  }

  /** After any run of planner batches, accepted or not, what the restore queries list passes the
      restore check. */
  lemma {:induction false} RunsCanBeRestored(
      t: Tables, planned: seq<Planned>, attempts: seq<ExecutionAttemptRow>, artifacts: seq<ShadowArtifactRow>)
    requires Consistent(t) && Restorable(t) && Listed(Ticks(t, planned), attempts, artifacts)
    ensures Matched(attempts, artifacts)
  {
    TicksKeepRestorable(t, planned);
    RestoreAcceptsIff(Ticks(t, planned), attempts, artifacts);
  }

  lemma {:induction false} TicksKeepRestorable(t: Tables, planned: seq<Planned>)
    requires Consistent(t) && Restorable(t)
    ensures Consistent(Ticks(t, planned)) && Restorable(Ticks(t, planned))
  {
    if planned != [] {
      var n := |planned| - 1;
      TicksKeepRestorable(t, planned[..n]);
      TickKeepsRestorable(Ticks(t, planned[..n]), planned[n].pass, planned[n].targets, planned[n].session);
    }
  }

  // ----- Planning again -----

  /** The same families under the same keys, with the same members in whatever order and however their
      decimals are written. */
  ghost predicate SameTargets(x: Targets, y: Targets) {
    && x.Keys == y.Keys
    && forall k :: k in x ==> x[k].familyId == y[k].familyId && SameMembers(x[k].members, y[k].members)
  }

  /** What the artifact payload prints of a target's members. */
  function PlannedFields(target: FamilyTarget): seq<seq<Bytes>> {
    Map(Fields, Sort(target.members, TokenLeq))
  }

  /** The payload of a family's artifact. */
  function PlannedPayload(p: Pass, target: FamilyTarget, ruleId: Bytes): Payload {
    var bound := BoundPlanId(p.snapshotId, target);
    Payload(AttemptId(bound, 1, p.foreign.hash), bound, p.snapshotId, ROUTE, target.familyId, Some(ruleId),
            PlannedFields(target))
  }

  lemma RecordIs(p: Pass, targets: Targets, key: Bytes, session: Option<Bytes>)
    requires key in targets
    ensures var r := RecordFor(p, targets, key, session);
            var payload := PlannedPayload(p, targets[key], RuleFor(p, key));
            && r.attempt
               == ExecutionAttemptRow(payload.attemptId, payload.planId, p.snapshotId, ROUTE, targets[key].familyId,
                                      Some(RuleFor(p, key)), Shadow, 1, "idem-" + payload.attemptId, session)
            && r.artifact == ShadowArtifactRow(payload.attemptId, STREAM, p.foreign.json(payload))
  {
    ShadowFamilySucceeds(p.snapshotId, targets[key], RuleFor(p, key), session, p.foreign);
  }

  lemma SameTargetsShareIds(p: Pass, x: FamilyTarget, y: FamilyTarget)
    requires x.familyId == y.familyId && SameMembers(x.members, y.members)
    ensures BoundPlanId(p.snapshotId, x) == BoundPlanId(p.snapshotId, y)
  {
    SortPermutes(x.members, TokenLeq);
    SortPermutes(y.members, TokenLeq);
    MapMultiset(Reduced, Sort(x.members, TokenLeq), x.members);
    MapMultiset(Reduced, Sort(y.members, TokenLeq), y.members);
    FamiliesShareIdentity(x.familyId, Sort(x.members, TokenLeq), Sort(y.members, TokenLeq));
  }

  /** The records of one key in two plannings of the same targets. */
  lemma ReplannedRecord(p: Pass, x: Targets, y: Targets, session: Option<Bytes>, other: Option<Bytes>, key: Bytes)
    requires SameTargets(x, y) && key in x
    ensures var a, b := RecordFor(p, x, key, session), RecordFor(p, y, key, other);
            && Equivalent(a.attempt, b.attempt) && a.attempt.attemptId == b.attempt.attemptId
            && SameKey(a.artifact, b.artifact)
            && a.artifact.payload == p.foreign.json(PlannedPayload(p, x[key], RuleFor(p, key)))
            && b.artifact.payload == p.foreign.json(PlannedPayload(p, y[key], RuleFor(p, key)))
    ensures PlannedPayload(p, x[key], RuleFor(p, key)) == PlannedPayload(p, y[key], RuleFor(p, key))
            <==> PlannedFields(x[key]) == PlannedFields(y[key])
  {
    RecordIs(p, x, key, session);
    RecordIs(p, y, key, other);
    SameTargetsShareIds(p, x[key], y[key]);
  }

  /** JSON tells the payloads of one key in two plannings apart. */
  ghost predicate JsonTellsApart(p: Pass, x: Targets, y: Targets) {
    forall k :: k in x && k in y && Chosen(p, k) ==>
      var a, b := PlannedPayload(p, x[k], RuleFor(p, k)), PlannedPayload(p, y[k], RuleFor(p, k));
      p.foreign.json(a) == p.foreign.json(b) ==> a == b
  }

  lemma ChosenOf(p: Pass, targets: Targets)
    ensures forall k :: k in ChosenKeys(p, Ascending(targets.Keys)) <==> k in targets && Chosen(p, k)
  {
  }

  lemma ReplannedRecords(p: Pass, x: Targets, y: Targets, session: Option<Bytes>, other: Option<Bytes>)
    requires SameTargets(x, y)
    ensures var a, b := Plans(p, x, session), Plans(p, y, other);
            && |a| == |b|
            && (forall i :: 0 <= i < |a| ==>
                  Equivalent(a[i].attempt, b[i].attempt) && SameKey(a[i].artifact, b[i].artifact))
            && (forall i :: 0 <= i < |a| ==> a[i].attempt.attemptId == b[i].attempt.attemptId)
            && (JsonTellsApart(p, x, y) ==>
                  (Artifacts(a) == Artifacts(b) <==>
                     forall k :: k in x && Chosen(p, k) ==> PlannedFields(x[k]) == PlannedFields(y[k])))
  {
    var keys := ChosenKeys(p, Ascending(x.Keys));
    var a, b := Plans(p, x, session), Plans(p, y, other);
    ChosenOf(p, x);
    forall i | 0 <= i < |keys|
      ensures keys[i] in x && Chosen(p, keys[i])
      ensures a[i] == RecordFor(p, x, keys[i], session) && b[i] == RecordFor(p, y, keys[i], other)
    {
      assert keys[i] in keys;
    }
    forall i | 0 <= i < |keys|
      ensures Equivalent(a[i].attempt, b[i].attempt) && SameKey(a[i].artifact, b[i].artifact)
      ensures a[i].attempt.attemptId == b[i].attempt.attemptId
      ensures JsonTellsApart(p, x, y) ==>
                (a[i].artifact == b[i].artifact <==> PlannedFields(x[keys[i]]) == PlannedFields(y[keys[i]]))
    {
      ReplannedRecord(p, x, y, session, other, keys[i]);
    }
    if JsonTellsApart(p, x, y) {
      SameArtifactsIff(p, keys, x, y, a, b);
    }
  }

  lemma SameArtifactsIff(p: Pass, keys: seq<Bytes>, x: Targets, y: Targets, a: seq<ShadowRecord>, b: seq<ShadowRecord>)
    requires |a| == |b| == |keys| && x.Keys == y.Keys && forall k :: k in keys <==> k in x && Chosen(p, k)
    requires forall i :: 0 <= i < |keys| ==>
               keys[i] in x
               && (a[i].artifact == b[i].artifact <==> PlannedFields(x[keys[i]]) == PlannedFields(y[keys[i]]))
    ensures Artifacts(a) == Artifacts(b) <==>
            forall k :: k in x && Chosen(p, k) ==> PlannedFields(x[k]) == PlannedFields(y[k])
  {
    if Artifacts(a) == Artifacts(b) {
      forall k | k in x && Chosen(p, k) ensures PlannedFields(x[k]) == PlannedFields(y[k]) {
        var i :| 0 <= i < |keys| && keys[i] == k;
        assert Artifacts(a)[i] == Artifacts(b)[i];
      }
    }
  }

  lemma RewrittenIff(t: Tables, a: seq<ShadowRecord>, b: seq<ShadowRecord>, session: Option<Bytes>,
                     other: Option<Bytes>)
    requires Persist(t, Attempts(a), Artifacts(a), session).Ok? && |a| == |b|
    requires forall i :: 0 <= i < |a| ==>
               Equivalent(a[i].attempt, b[i].attempt) && SameKey(a[i].artifact, b[i].artifact)
    ensures var written := Persist(t, Attempts(a), Artifacts(a), session).value;
            var r := Persist(written, Attempts(b), Artifacts(b), other);
            (r.Ok? <==> Artifacts(a) == Artifacts(b)) && (r.Ok? ==> r.value == written)
  {
    PersistAgainAcceptedIff(t, Attempts(a), Artifacts(a), Attempts(b), Artifacts(b), session, other);
  }

  /** Planning the same targets again, under another run session, with members reordered or decimals
      rewritten, passes the planner, and the tables accept it exactly when every chosen family still prints
      its members alike: when members of one condition and token keep their order. Then no row changes. */
  lemma ReplanningAcceptedIff(t: Tables, p: Pass, x: Targets, y: Targets, session: Option<Bytes>, other: Option<Bytes>)
    requires SameTargets(x, y) && JsonTellsApart(p, x, y) && Keyed(Plans(p, x, session))
    requires Persist(t, Attempts(Plans(p, x, session)), Artifacts(Plans(p, x, session)), session).Ok?
    ensures Keyed(Plans(p, y, other))
    ensures var written := Tick(t, p, x, session);
            var r := Persist(written, Attempts(Plans(p, y, other)), Artifacts(Plans(p, y, other)), other);
            && (r.Ok? <==> forall k :: k in x && Chosen(p, k) ==> PlannedFields(x[k]) == PlannedFields(y[k]))
            && (r.Ok? ==> r.value == written)
  {
    var a, b := Plans(p, x, session), Plans(p, y, other);
    ReplannedRecords(p, x, y, session, other);
    RewrittenIff(t, a, b, session, other);
    assert Keyed(b) by {
      forall i, j | 0 <= i < j < |b| ensures b[i].attempt.attemptId != b[j].attempt.attemptId {
        assert a[i].attempt.attemptId != a[j].attempt.attemptId;
      }
    }
  }

  /** Planning the very same targets again after a restart, under another run session, and writing them
      again changes no row. */
  lemma ReplanningChangesNothing(t: Tables, p: Pass, targets: Targets, session: Option<Bytes>, other: Option<Bytes>)
    requires Keyed(Plans(p, targets, session))
    requires Persist(t, Attempts(Plans(p, targets, session)), Artifacts(Plans(p, targets, session)), session).Ok?
    ensures && Keyed(Plans(p, targets, other))
            && Persist(Tick(t, p, targets, session), Attempts(Plans(p, targets, other)),
                       Artifacts(Plans(p, targets, other)), other)
               == Ok(Tick(t, p, targets, session))
  {
    assert JsonTellsApart(p, targets, targets);
    ReplanningAcceptedIff(t, p, targets, targets, session, other);
  }
}
