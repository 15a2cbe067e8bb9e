/** Two stores that differ in where they started and agree on everything the journal tells them:
    crates/state/src/store.rs and apply.rs. */
module FactAgreement {
  import opened Options
  import opened Text
  import opened StateFacts
  import opened StateStores
  import opened Ingress
  import opened DrainProperties
  import opened FactFolds

  /** Facts that agree on all the log establishes: they differ by an offset of the version, in the
      anchors, and in pending items of which the second has no others. */
  ghost predicate AgreesUpTo(f: Facts, g: Facts, offset: nat) {
    && f == g.(stateVersion := f.stateVersion, lastConsumed := f.lastConsumed, lastApplied := f.lastApplied,
               pending := f.pending)
    && f.stateVersion == g.stateVersion + offset
    && forall r :: r in g.pending ==> r in f.pending && f.pending[r] == g.pending[r]
  }

  /** Pending items that are not the second's come from elsewhere. */
  ghost predicate RestIsFrom(
      f: map<Bytes, PendingReconcileAnchor>, g: map<Bytes, PendingReconcileAnchor>,
      rest: map<Bytes, PendingReconcileAnchor>)
  {
    forall r :: r in f && r !in g ==> r in rest && f[r] == rest[r]
  }

  lemma DiscoveryAgrees(f: Facts, g: Facts, offset: nat, record: FamilyDiscoveryRecord)
    requires AgreesUpTo(f, g, offset)
    ensures AgreesUpTo(WithDiscovery(f, record), WithDiscovery(g, record), offset)
    ensures WithDiscovery(f, record).pending == f.pending && WithDiscovery(g, record).pending == g.pending
  {
    assert f.discoveries == g.discoveries && f.backfills == g.backfills;
  }

  lemma BackfillAgrees(f: Facts, g: Facts, offset: nat, familyId: Bytes, cursor: Bytes, completedAt: Option<int>)
    requires AgreesUpTo(f, g, offset)
    ensures AgreesUpTo(WithBackfill(f, familyId, cursor, completedAt), WithBackfill(g, familyId, cursor, completedAt),
                       offset)
    ensures WithBackfill(f, familyId, cursor, completedAt).pending == f.pending
    ensures WithBackfill(g, familyId, cursor, completedAt).pending == g.pending
  {
    assert f.discoveries == g.discoveries && f.backfills == g.backfills;
    if familyId in f.discoveries {
    } else if familyId in f.backfills {
    } else {
    }
  }

  lemma EffectAgrees(f: Facts, g: Facts, offset: nat, n: int, key: FactKey, hint: FactApplyHint,
                     rest: map<Bytes, PendingReconcileAnchor>)
    requires AgreesUpTo(f, g, offset) && RestIsFrom(f.pending, g.pending, rest)
    ensures var x := Effect(f, n, key, hint).facts; var y := Effect(g, n, key, hint).facts;
            AgreesUpTo(x, y, offset) && RestIsFrom(x.pending, y.pending, rest)
  {
    match hint
    case NoEffect =>
    case FamilyDiscovery(record) => DiscoveryAgrees(f, g, offset, record);
    case FamilyBackfill(familyId, cursor, completedAt) => BackfillAgrees(f, g, offset, familyId, cursor, completedAt);
    case PendingReconcile(anchor) =>
    case RuntimeAttention(anchor) =>
    case LiveReconcileObserved(pendingRef, terminal) =>
  }

  lemma StepAgrees(f: Facts, g: Facts, offset: nat, x: InputTaskEvent, rest: map<Bytes, PendingReconcileAnchor>)
    requires AgreesUpTo(f, g, offset) && RestIsFrom(f.pending, g.pending, rest)
    requires ApplyOnly(f, x).Ok? && ApplyOnly(g, x).Ok?
    ensures var f' := ApplyOnly(f, x).value; var g' := ApplyOnly(g, x).value;
            AgreesUpTo(f', g', offset) && RestIsFrom(f'.pending, g'.pending, rest)
  {
    AcceptanceIff(f, x);
    AcceptanceIff(g, x);
    var n, key := x.journalSeq, x.event.key;
    var f1 := if n in f.consumed then f else f.(lastConsumed := Some(n), consumed := f.consumed[n := key]);
    var g1 := if n in g.consumed then g else g.(lastConsumed := Some(n), consumed := g.consumed[n := key]);
    assert AgreesUpTo(f1, g1, offset);
    if key !in f1.applied {
      EffectAgrees(f1, g1, offset, n, key, ApplyHint(x), rest);
    }
  }

  lemma {:induction false} FoldAgrees(
      apply: Applier<Facts, ApplyError>, f: Facts, g: Facts, offset: nat, log: seq<InputTaskEvent>,
      rest: map<Bytes, PendingReconcileAnchor>)
    requires AppliesFacts(apply) && AgreesUpTo(f, g, offset) && RestIsFrom(f.pending, g.pending, rest)
    requires Fold(apply, f, log).Ok? && Fold(apply, g, log).Ok?
    ensures var f' := Fold(apply, f, log).value; var g' := Fold(apply, g, log).value;
            AgreesUpTo(f', g', offset) && RestIsFrom(f'.pending, g'.pending, rest)
    decreases |log|
  {
    if log != [] {
      var n := |log| - 1;
      FoldLast(apply, f, log);
      FoldLast(apply, g, log);
      FoldAgrees(apply, f, g, offset, log[..n], rest);
      StepAgrees(Fold(apply, f, log[..n]).value, Fold(apply, g, log[..n]).value, offset, log[n], rest);
    }
  }
}
