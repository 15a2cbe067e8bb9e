/** crates/state/src/facts.rs and crates/app-live/src/queues.rs: what a state change dirties. */
module DirtyDomains {
  datatype DirtyDomain =
    | Candidates | Runtime | Orders | Inventory | Approvals | Resolution | Relayer | NegRiskFamilies

  const FULLSET_DOMAINS: set<DirtyDomain> := {Runtime, Orders, Inventory, Approvals, Resolution, Relayer}
  const NEGRISK_DOMAINS: set<DirtyDomain> := {NegRiskFamilies}
}

/** crates/app-live/src/dispatch.rs. The dispatch loop keeps a log of dirty records; a
    published snapshot clears the domains of the projections it made ready. */
module Dispatch {
  import opened Options
  import opened Text
  import opened DirtyDomains

  datatype DirtyRecord = DirtyRecord(stateVersion: nat, domains: set<DirtyDomain>)

  /** The fields of a published snapshot that the dispatch loop reads. */
  datatype PublishedSnapshot = PublishedSnapshot(
    snapshotId: Bytes, stateVersion: nat, committedJournalSeq: int, fullsetReady: bool, negriskReady: bool)

  datatype DispatchSummary = DispatchSummary(
    coalescedVersions: seq<nat>,
    lastStableSnapshotId: Option<Bytes>,
    lastStableStateVersion: Option<nat>,
    fullsetLastReady: Option<PublishedSnapshot>,
    negriskLastReady: Option<PublishedSnapshot>)

  datatype DispatchState = DispatchState(
    fullset: Option<PublishedSnapshot>, negrisk: Option<PublishedSnapshot>, dirty: seq<DirtyRecord>)

  const INITIAL := DispatchState(None, None, [])

  // ----- The loop's operations on its dirty log -----

  function ClearRecord(record: DirtyRecord, upTo: nat, cleared: set<DirtyDomain>): DirtyRecord {
    if record.stateVersion <= upTo then record.(domains := record.domains - cleared) else record
  }

  function RetainDirty(records: seq<DirtyRecord>): seq<DirtyRecord> {
    if records == [] then []
    else if records[0].domains != {} then [records[0]] + RetainDirty(records[1..])
    else RetainDirty(records[1..])
  }

  function Cleared(records: seq<DirtyRecord>, upTo: nat, cleared: set<DirtyDomain>): seq<DirtyRecord> {
    RetainDirty(seq(|records|, i requires 0 <= i < |records| => ClearRecord(records[i], upTo, cleared)))
  }

  /** The largest version among the records that touch one of the given domains. */
  function LatestDirty(records: seq<DirtyRecord>, domains: set<DirtyDomain>): Option<nat> {
    if records == [] then None
    else
      var rest := LatestDirty(records[1..], domains);
      if records[0].domains * domains == {} then rest
      else if rest.Some? && rest.value >= records[0].stateVersion then rest
      else Some(records[0].stateVersion)
  }

  function Coalesce(fullset: Option<nat>, negrisk: Option<nat>): seq<DirtyRecord> {
    match (fullset, negrisk)
    case (None, None) => []
    case (Some(f), None) => [DirtyRecord(f, FULLSET_DOMAINS)]
    case (None, Some(n)) => [DirtyRecord(n, NEGRISK_DOMAINS)]
    case (Some(f), Some(n)) =>
      if f == n then [DirtyRecord(f, FULLSET_DOMAINS + NEGRISK_DOMAINS)]
      else if f < n then [DirtyRecord(f, FULLSET_DOMAINS), DirtyRecord(n, NEGRISK_DOMAINS)]
      else [DirtyRecord(n, NEGRISK_DOMAINS), DirtyRecord(f, FULLSET_DOMAINS)]
  }

  function Coalesced(records: seq<DirtyRecord>): seq<DirtyRecord> {
    Coalesce(LatestDirty(records, FULLSET_DOMAINS), LatestDirty(records, NEGRISK_DOMAINS))
  }

  function Versions(records: seq<DirtyRecord>): seq<nat> {
    seq(|records|, i requires 0 <= i < |records| => records[i].stateVersion)
  }

  function LastStableVersion(fullset: Option<PublishedSnapshot>, negrisk: Option<PublishedSnapshot>): Option<nat> {
    if fullset.Some? && negrisk.Some? then
      Some(if fullset.value.stateVersion <= negrisk.value.stateVersion
           then fullset.value.stateVersion else negrisk.value.stateVersion)
    else None
  }

  function LastStableId(fullset: Option<PublishedSnapshot>, negrisk: Option<PublishedSnapshot>): Option<Bytes> {
    var version := LastStableVersion(fullset, negrisk);
    if version.None? then None
    else if fullset.value.stateVersion == version.value then Some(fullset.value.snapshotId)
    else Some(negrisk.value.snapshotId)
  }

  function SummaryOf(
      versions: seq<nat>, fullset: Option<PublishedSnapshot>, negrisk: Option<PublishedSnapshot>): DispatchSummary {
    DispatchSummary(versions, LastStableId(fullset, negrisk), LastStableVersion(fullset, negrisk), fullset, negrisk)
  }

  datatype Op =
    | RecordApply(stateVersion: nat, domains: set<DirtyDomain>)
    | ObserveSnapshot(snapshot: PublishedSnapshot)
    | Flush

  function Step(d: DispatchState, op: Op): DispatchState {
    match op
    case RecordApply(v, domains) => d.(dirty := d.dirty + [DirtyRecord(v, domains)])
    case ObserveSnapshot(s) =>
      var d1 := if s.fullsetReady
                then d.(fullset := Some(s), dirty := Cleared(d.dirty, s.stateVersion, FULLSET_DOMAINS)) else d;
      if s.negriskReady
      then d1.(negrisk := Some(s), dirty := Cleared(d1.dirty, s.stateVersion, NEGRISK_DOMAINS)) else d1
    case Flush => d.(dirty := Coalesced(d.dirty))
  }

  /** What the next flush reports, and what `pending_backlog_count` returns. */
  function Report(d: DispatchState): DispatchSummary {
    SummaryOf(Versions(Coalesced(d.dirty)), d.fullset, d.negrisk)
  }

  function Backlog(d: DispatchState): nat {
    |Coalesced(d.dirty)|
  }

  function Run(d: DispatchState, ops: seq<Op>): DispatchState {
    if ops == [] then d else Step(Run(d, ops[..|ops| - 1]), ops[|ops| - 1])
  }

  class DispatchLoop {
    var latestReadyFullset: Option<PublishedSnapshot>
    var latestReadyNegrisk: Option<PublishedSnapshot>
    var dirtyRecords: seq<DirtyRecord>

    ghost function State(): DispatchState
      reads this
    {
      DispatchState(latestReadyFullset, latestReadyNegrisk, dirtyRecords)
    }

    constructor ()
      ensures State() == INITIAL
    {
      latestReadyFullset, latestReadyNegrisk, dirtyRecords := None, None, [];
    }

    method RecordApply(stateVersion: nat, domains: set<DirtyDomain>)
      modifies this
      ensures State() == Step(old(State()), Op.RecordApply(stateVersion, domains))
    {
      dirtyRecords := dirtyRecords + [DirtyRecord(stateVersion, domains)];
    }

    method ObserveSnapshot(snapshot: PublishedSnapshot)
      modifies this
      ensures State() == Step(old(State()), Op.ObserveSnapshot(snapshot))
    {
      if snapshot.fullsetReady {
        latestReadyFullset := Some(snapshot);
        ClearDirtyDomains(snapshot.stateVersion, FULLSET_DOMAINS);
      }
      if snapshot.negriskReady {
        latestReadyNegrisk := Some(snapshot);
        ClearDirtyDomains(snapshot.stateVersion, NEGRISK_DOMAINS);
      }
    }

    method Flush() returns (summary: DispatchSummary)
      modifies this
      ensures State() == Step(old(State()), Op.Flush)
      ensures summary == Report(old(State()))
    {
      dirtyRecords := Coalesced(dirtyRecords);
      summary := SummaryOf(Versions(dirtyRecords), latestReadyFullset, latestReadyNegrisk);
    }

    method PendingBacklogCount() returns (count: nat)
      ensures count == Backlog(State())
    {
      count := |Coalesced(dirtyRecords)|;
    }

    method ClearDirtyDomains(upTo: nat, cleared: set<DirtyDomain>)
      modifies this`dirtyRecords
      ensures dirtyRecords == Cleared(old(dirtyRecords), upTo, cleared)
    {
      var i := 0;
      while i < |dirtyRecords|
        invariant 0 <= i <= |dirtyRecords| == |old(dirtyRecords)|
        invariant forall k :: 0 <= k < i ==> dirtyRecords[k] == ClearRecord(old(dirtyRecords)[k], upTo, cleared)
        invariant forall k :: i <= k < |dirtyRecords| ==> dirtyRecords[k] == old(dirtyRecords)[k]
      {
        var record := dirtyRecords[i];
        if record.stateVersion <= upTo {
          dirtyRecords := dirtyRecords[i := record.(domains := record.domains - cleared)];
        }
        i := i + 1;
      }
      assert dirtyRecords == seq(|old(dirtyRecords)|, k requires 0 <= k < |old(dirtyRecords)| =>
                                 ClearRecord(old(dirtyRecords)[k], upTo, cleared));
      dirtyRecords := RetainDirty(dirtyRecords);
    }
  }

  // ----- The two-register machine -----

  /** All that the log means: the last ready snapshots, and the latest uncleared version of
      each projection. */
  datatype Registers = Registers(
    fullset: Option<PublishedSnapshot>, negrisk: Option<PublishedSnapshot>,
    fullsetDirty: Option<nat>, negriskDirty: Option<nat>)

  function Raise(register: Option<nat>, v: nat, domains: set<DirtyDomain>, projection: set<DirtyDomain>): Option<nat> {
    if domains * projection == {} then register
    else if register.Some? && register.value >= v then register
    else Some(v)
  }

  function Lower(register: Option<nat>, upTo: nat): Option<nat> {
    if register.Some? && register.value <= upTo then None else register
  }

  function RegisterStep(r: Registers, op: Op): Registers {
    match op
    case RecordApply(v, domains) =>
      r.(fullsetDirty := Raise(r.fullsetDirty, v, domains, FULLSET_DOMAINS),
         negriskDirty := Raise(r.negriskDirty, v, domains, NEGRISK_DOMAINS))
    case ObserveSnapshot(s) =>
      var r1 := if s.fullsetReady
                then r.(fullset := Some(s), fullsetDirty := Lower(r.fullsetDirty, s.stateVersion)) else r;
      if s.negriskReady then r1.(negrisk := Some(s), negriskDirty := Lower(r1.negriskDirty, s.stateVersion)) else r1
    case Flush => r
  }

  function RegisterRun(r: Registers, ops: seq<Op>): Registers {
    if ops == [] then r else RegisterStep(RegisterRun(r, ops[..|ops| - 1]), ops[|ops| - 1])
  }

  /** The distinct register values in ascending order. */
  function Ascending(fullset: Option<nat>, negrisk: Option<nat>): seq<nat> {
    match (fullset, negrisk)
    case (None, None) => []
    case (Some(f), None) => [f]
    case (None, Some(n)) => [n]
    case (Some(f), Some(n)) => if f == n then [f] else if f < n then [f, n] else [n, f]
  }

  function RegisterReport(r: Registers): DispatchSummary {
    SummaryOf(Ascending(r.fullsetDirty, r.negriskDirty), r.fullset, r.negrisk)
  }

  function Abstract(d: DispatchState): Registers {
    Registers(d.fullset, d.negrisk, LatestDirty(d.dirty, FULLSET_DOMAINS), LatestDirty(d.dirty, NEGRISK_DOMAINS))
  }

  ghost predicate IsLatest(records: seq<DirtyRecord>, domains: set<DirtyDomain>, latest: Option<nat>) {
    && (forall r :: r in records && r.domains * domains != {} ==> latest.Some? && r.stateVersion <= latest.value)
    && (latest.Some? ==> exists r :: r in records && r.domains * domains != {} && r.stateVersion == latest.value)
  }

  lemma {:induction false} LatestDirtyIsLatest(records: seq<DirtyRecord>, domains: set<DirtyDomain>)
    ensures IsLatest(records, domains, LatestDirty(records, domains))
  {
    if records != [] {
      var rest := LatestDirty(records[1..], domains);
      LatestDirtyIsLatest(records[1..], domains);
      forall r | r in records ensures r == records[0] || r in records[1..] {
        var i :| 0 <= i < |records| && records[i] == r;
        assert i == 0 || records[1..][i - 1] == r;
      }
      assert records[0] in records;
      if rest.Some? {
        var w :| w in records[1..] && w.domains * domains != {} && w.stateVersion == rest.value;
        assert w in records;
      }
    }
  }

  lemma LatestUnique(records: seq<DirtyRecord>, domains: set<DirtyDomain>, a: Option<nat>, b: Option<nat>)
    requires IsLatest(records, domains, a) && IsLatest(records, domains, b)
    ensures a == b
  {
  }

  lemma {:induction false} RetainDirtyMembers(records: seq<DirtyRecord>)
    ensures forall r :: r in RetainDirty(records) <==> r in records && r.domains != {}
  {
    if records != [] {
      RetainDirtyMembers(records[1..]);
      assert records == [records[0]] + records[1..];
    }
  }

  lemma ClearedMembers(records: seq<DirtyRecord>, upTo: nat, cleared: set<DirtyDomain>, r: DirtyRecord)
    ensures r in Cleared(records, upTo, cleared) <==>
            r.domains != {} && exists q :: q in records && r == ClearRecord(q, upTo, cleared)
  {
    var each := seq(|records|, i requires 0 <= i < |records| => ClearRecord(records[i], upTo, cleared));
    RetainDirtyMembers(each);
    if r in each {
      var i :| 0 <= i < |each| && each[i] == r;
      assert records[i] in records;
    }
    if q :| q in records && r == ClearRecord(q, upTo, cleared) {
      var i :| 0 <= i < |records| && records[i] == q;
      assert each[i] == r;
    }
  }

  /** Clearing one projection lowers its register and leaves the other alone. */
  lemma ClearedLatest(records: seq<DirtyRecord>, upTo: nat, cleared: set<DirtyDomain>, domains: set<DirtyDomain>)
    requires domains == cleared || domains !! cleared
    ensures LatestDirty(Cleared(records, upTo, cleared), domains) ==
            if domains == cleared then Lower(LatestDirty(records, domains), upTo) else LatestDirty(records, domains)
  {
    var after := Cleared(records, upTo, cleared);
    var before := LatestDirty(records, domains);
    var latest := if domains == cleared then Lower(before, upTo) else before;
    LatestDirtyIsLatest(records, domains);
    forall r | r in after && r.domains * domains != {}
      ensures latest.Some? && r.stateVersion <= latest.value
    {
      ClearedMembers(records, upTo, cleared, r);
      var q :| q in records && r == ClearRecord(q, upTo, cleared);
      assert r.domains <= q.domains;
      assert q.domains * domains != {};
      assert domains == cleared ==> r.stateVersion > upTo;
    }
    if latest.Some? {
      var q :| q in records && q.domains * domains != {} && q.stateVersion == before.value;
      var r := ClearRecord(q, upTo, cleared);
      if domains == cleared {
        assert r == q;
      } else {
        assert r.domains * domains == q.domains * domains;
      }
      ClearedMembers(records, upTo, cleared, r);
      assert r in after && r.domains * domains != {} && r.stateVersion == latest.value;
    }
    LatestDirtyIsLatest(after, domains);
    LatestUnique(after, domains, latest, LatestDirty(after, domains));
  }

  lemma AppendLatest(records: seq<DirtyRecord>, record: DirtyRecord, projection: set<DirtyDomain>)
    ensures LatestDirty(records + [record], projection) ==
            Raise(LatestDirty(records, projection), record.stateVersion, record.domains, projection)
  {
    var before := LatestDirty(records, projection);
    var latest := Raise(before, record.stateVersion, record.domains, projection);
    LatestDirtyIsLatest(records, projection);
    var after := records + [record];
    assert forall r :: r in after <==> r in records || r == record;
    assert IsLatest(after, projection, latest) by {
      if before.Some? && latest == before {
        var w :| w in records && w.domains * projection != {} && w.stateVersion == before.value;
        assert w in after;
      }
      assert record in after;
    }
    LatestDirtyIsLatest(after, projection);
    LatestUnique(after, projection, latest, LatestDirty(after, projection));
  }

  lemma CoalescedLatest(f: Option<nat>, n: Option<nat>)
    ensures LatestDirty(Coalesce(f, n), FULLSET_DOMAINS) == f
    ensures LatestDirty(Coalesce(f, n), NEGRISK_DOMAINS) == n
  {
    var records := Coalesce(f, n);
    assert FULLSET_DOMAINS * NEGRISK_DOMAINS == {} && NEGRISK_DOMAINS * FULLSET_DOMAINS == {};
    assert Runtime in FULLSET_DOMAINS && Runtime in FULLSET_DOMAINS + NEGRISK_DOMAINS;
    assert NegRiskFamilies in NEGRISK_DOMAINS && NegRiskFamilies in FULLSET_DOMAINS + NEGRISK_DOMAINS;
    forall r | r in records
      ensures r.domains * FULLSET_DOMAINS != {} ==> f == Some(r.stateVersion)
      ensures r.domains * NEGRISK_DOMAINS != {} ==> n == Some(r.stateVersion)
    {
    }
    if f.Some? {
      var r :| r in records && r.stateVersion == f.value && Runtime in r.domains;
      assert Runtime in r.domains * FULLSET_DOMAINS;
    }
    if n.Some? {
      var r :| r in records && r.stateVersion == n.value && NegRiskFamilies in r.domains;
      assert NegRiskFamilies in r.domains * NEGRISK_DOMAINS;
    }
    LatestDirtyIsLatest(records, FULLSET_DOMAINS);
    LatestDirtyIsLatest(records, NEGRISK_DOMAINS);
    LatestUnique(records, FULLSET_DOMAINS, f, LatestDirty(records, FULLSET_DOMAINS));
    LatestUnique(records, NEGRISK_DOMAINS, n, LatestDirty(records, NEGRISK_DOMAINS));
  }

  lemma StepRefines(d: DispatchState, op: Op)
    ensures Abstract(Step(d, op)) == RegisterStep(Abstract(d), op)
  {
    match op
    case RecordApply(v, domains) =>
      AppendLatest(d.dirty, DirtyRecord(v, domains), FULLSET_DOMAINS);
      AppendLatest(d.dirty, DirtyRecord(v, domains), NEGRISK_DOMAINS);
    case ObserveSnapshot(s) =>
      var mid := if s.fullsetReady then Cleared(d.dirty, s.stateVersion, FULLSET_DOMAINS) else d.dirty;
      ClearedLatest(d.dirty, s.stateVersion, FULLSET_DOMAINS, FULLSET_DOMAINS);
      ClearedLatest(d.dirty, s.stateVersion, FULLSET_DOMAINS, NEGRISK_DOMAINS);
      ClearedLatest(mid, s.stateVersion, NEGRISK_DOMAINS, FULLSET_DOMAINS);
      ClearedLatest(mid, s.stateVersion, NEGRISK_DOMAINS, NEGRISK_DOMAINS);
    case Flush =>
      CoalescedLatest(LatestDirty(d.dirty, FULLSET_DOMAINS), LatestDirty(d.dirty, NEGRISK_DOMAINS));
  }

  lemma ReportRefines(d: DispatchState)
    ensures Report(d) == RegisterReport(Abstract(d))
    ensures Backlog(d) == |Ascending(Abstract(d).fullsetDirty, Abstract(d).negriskDirty)|
  {
    var r := Abstract(d);
    assert Versions(Coalesce(r.fullsetDirty, r.negriskDirty)) == Ascending(r.fullsetDirty, r.negriskDirty);
  }

  /** Over every interleaving of the operations the log and the registers cannot be told apart. */
  lemma {:induction false} LogSimulatesRegisters(d: DispatchState, ops: seq<Op>)
    ensures Abstract(Run(d, ops)) == RegisterRun(Abstract(d), ops)
    ensures Report(Run(d, ops)) == RegisterReport(RegisterRun(Abstract(d), ops))
    ensures Backlog(Run(d, ops)) == |Report(Run(d, ops)).coalescedVersions|
  {
    if ops != [] {
      LogSimulatesRegisters(d, ops[..|ops| - 1]);
      StepRefines(Run(d, ops[..|ops| - 1]), ops[|ops| - 1]);
    }
    ReportRefines(Run(d, ops));
  }

  function WithoutFlushes(ops: seq<Op>): seq<Op> {
    if ops == [] then []
    else
      var front := WithoutFlushes(ops[..|ops| - 1]);
      if ops[|ops| - 1].Flush? then front else front + [ops[|ops| - 1]]
  }

  lemma {:induction false} RegistersIgnoreFlushes(r: Registers, ops: seq<Op>)
    ensures RegisterRun(r, WithoutFlushes(ops)) == RegisterRun(r, ops)
  {
    if ops != [] {
      RegistersIgnoreFlushes(r, ops[..|ops| - 1]);
      var front := WithoutFlushes(ops[..|ops| - 1]);
      assert (front + [ops[|ops| - 1]])[..|front|] == front;
    }
  }

  /** Runs that differ only in where they flush report the same thing from then on. */
  lemma FlushesAreUnobservable(d: DispatchState, ops: seq<Op>, other: seq<Op>)
    requires WithoutFlushes(ops) == WithoutFlushes(other)
    ensures Report(Run(d, ops)) == Report(Run(d, other))
    ensures Backlog(Run(d, ops)) == Backlog(Run(d, other))
  {
    LogSimulatesRegisters(d, ops);
    LogSimulatesRegisters(d, other);
    RegistersIgnoreFlushes(Abstract(d), ops);
    RegistersIgnoreFlushes(Abstract(d), other);
  }

  // ----- What the registers mean in terms of the history alone -----

  predicate Ready(s: PublishedSnapshot, projection: set<DirtyDomain>) {
    if projection == FULLSET_DOMAINS then s.fullsetReady else s.negriskReady
  }

  function RegisterOf(r: Registers, projection: set<DirtyDomain>): Option<nat> {
    if projection == FULLSET_DOMAINS then r.fullsetDirty else r.negriskDirty
  }

  predicate Clears(op: Op, projection: set<DirtyDomain>, v: nat) {
    op.ObserveSnapshot? && Ready(op.snapshot, projection) && v <= op.snapshot.stateVersion
  }

  /** ops[i] dirtied the projection, and nothing observed after it cleared that version. */
  predicate Uncleared(ops: seq<Op>, i: nat, projection: set<DirtyDomain>)
    requires i < |ops|
  {
    && ops[i].RecordApply? && ops[i].domains * projection != {}
    && forall j :: i < j < |ops| ==> !Clears(ops[j], projection, ops[i].stateVersion)
  }

  ghost predicate IsLatestUncleared(ops: seq<Op>, projection: set<DirtyDomain>, latest: Option<nat>) {
    && (forall i :: 0 <= i < |ops| && Uncleared(ops, i, projection) ==>
        latest.Some? && ops[i].stateVersion <= latest.value)
    && (latest.Some? ==>
        exists i :: 0 <= i < |ops| && Uncleared(ops, i, projection) && ops[i].stateVersion == latest.value)
  }

  lemma {:induction false} RegistersHoldLatestUncleared(ops: seq<Op>, projection: set<DirtyDomain>)
    requires projection == FULLSET_DOMAINS || projection == NEGRISK_DOMAINS
    ensures IsLatestUncleared(ops, projection, RegisterOf(RegisterRun(Abstract(INITIAL), ops), projection))
  {
    if ops != [] {
      assert NegRiskFamilies in NEGRISK_DOMAINS && NegRiskFamilies !in FULLSET_DOMAINS;
      var n := |ops| - 1;
      var front := ops[..n];
      RegistersHoldLatestUncleared(front, projection);
      var before := RegisterOf(RegisterRun(Abstract(INITIAL), front), projection);
      var latest := RegisterOf(RegisterRun(Abstract(INITIAL), ops), projection);
      forall i | 0 <= i < n
        ensures Uncleared(ops, i, projection) <==>
                Uncleared(front, i, projection) && !Clears(ops[n], projection, ops[i].stateVersion)
      {
        assert forall j :: i < j < n ==> front[j] == ops[j];
        if Uncleared(front, i, projection) && !Clears(ops[n], projection, ops[i].stateVersion) {
          forall j | i < j < |ops| ensures !Clears(ops[j], projection, ops[i].stateVersion) {
            assert j == n || front[j] == ops[j];
          }
        }
      }
      if latest.Some? {
        if latest == before {
          var i :| 0 <= i < |front| && Uncleared(front, i, projection) && front[i].stateVersion == before.value;
          assert Uncleared(ops, i, projection) && ops[i].stateVersion == latest.value;
        } else {
          assert Uncleared(ops, n, projection);
        }
      }
    }
  }

  /** There is only one latest uncleared version. */
  lemma LatestIsUnique(ops: seq<Op>, projection: set<DirtyDomain>, a: Option<nat>, b: Option<nat>)
    requires IsLatestUncleared(ops, projection, a) && IsLatestUncleared(ops, projection, b)
    ensures a == b
  {
  }

  /** From an empty loop, a flush reports exactly the latest uncleared version of each
      projection: ascending, without repeats, and nothing else. */
  lemma FlushReportsLatestUncleared(ops: seq<Op>, fullset: Option<nat>, negrisk: Option<nat>)
    requires IsLatestUncleared(ops, FULLSET_DOMAINS, fullset)
    requires IsLatestUncleared(ops, NEGRISK_DOMAINS, negrisk)
    ensures var versions := Report(Run(INITIAL, ops)).coalescedVersions;
            && (forall i, j :: 0 <= i < j < |versions| ==> versions[i] < versions[j])
            && (forall v :: v in versions <==> fullset == Some(v) || negrisk == Some(v))
  {
    var r := RegisterRun(Abstract(INITIAL), ops);
    assert NegRiskFamilies in NEGRISK_DOMAINS && NegRiskFamilies !in FULLSET_DOMAINS;
    LogSimulatesRegisters(INITIAL, ops);
    RegistersHoldLatestUncleared(ops, FULLSET_DOMAINS);
    RegistersHoldLatestUncleared(ops, NEGRISK_DOMAINS);
    LatestIsUnique(ops, FULLSET_DOMAINS, r.fullsetDirty, fullset);
    LatestIsUnique(ops, NEGRISK_DOMAINS, r.negriskDirty, negrisk);
  }
}
