/** What later sequences repair of what repeated deliveries spoil: crates/app-live/src/supervisor.rs:660-694
    and 854-861 over crates/state/src/apply.rs:60-183.

    A log may be no faithful record after one sequence and be one again at the end of the batch, because a
    later sequence sets or clears the pending item that differed. Here is exactly when. */
module Healing {
  import opened Options
  import opened Text
  import opened StateFacts
  import opened StateStores
  import opened DrainProperties
  import opened FactFolds
  import opened Redelivery

  type Items = map<Bytes, PendingReconcileAnchor>

  /** The references under which two lists of pending items differ. */
  function Differing(p: Items, q: Items): set<Bytes> {
    set r | r in p.Keys + q.Keys && !(r in p && r in q && p[r] == q[r])
  }

  lemma NoneDiffer(p: Items, q: Items)
    ensures Differing(p, q) == {} <==> p == q
  {
    if Differing(p, q) == {} {
      forall r | r in p.Keys + q.Keys ensures r in p && r in q && p[r] == q[r] {
        assert r !in Differing(p, q);
      }
      assert p.Keys == q.Keys;
    }
  }

  lemma SettingBoth(p: Items, q: Items, r: Bytes, a: PendingReconcileAnchor, b: PendingReconcileAnchor)
    ensures Differing(p[r := a], q[r := b]) == Differing(p, q) - {r} + if a == b then {} else {r}
  {
  }

  lemma ClearingBoth(p: Items, q: Items, r: Bytes)
    ensures Differing(p - {r}, q - {r}) == Differing(p, q) - {r}
  {
  }

  /** The reference that the settling delivery clears, if it clears one. */
  function ClearedBy(decider: Option<InputTaskEvent>): set<Bytes> {
    if decider.None? then {}
    else
      var hint := ApplyHint(decider.value);
      if hint.LiveReconcileObserved? && hint.terminal then {hint.pendingRef} else {}
  }

  /** The references whose items a group of deliveries sets or clears. */
  function TouchedBy(applied: set<FactKey>, group: seq<InputTaskEvent>): set<Bytes> {
    if group == [] || group[0].event.key in applied then {}
    else
      (if LastAnchor(Undecided(group)).Some? then {RefFromKey("pending", group[0].event.key)} else {})
      + ClearedBy(Decider(group))
  }

  /** The references that repeated deliveries leave with another item than a replay does, and that no
      later sequence of the batch sets or clears. */
  function Stale(applied: set<FactKey>, batch: seq<InputTaskEvent>): set<Bytes>
    decreases |batch|
  {
    if batch == [] then {}
    else
      var front, group := batch[..Cut(batch)], batch[Cut(batch)..];
      var before := applied + SettledBy(front);
      Stale(applied, front) - TouchedBy(before, group)
      + if Harmless(before, group) then {} else {RefFromKey("pending", group[0].event.key)}
  }

  /** Harmless sequences leave nothing to repair. */
  lemma {:induction false} HarmlessLeavesNothing(applied: set<FactKey>, batch: seq<InputTaskEvent>)
    requires HarmlessBatch(applied, batch)
    ensures Stale(applied, batch) == {}
    decreases |batch|
  {
    if batch != [] {
      HarmlessLeavesNothing(applied, batch[..Cut(batch)]);
    }
  }

  // ----- One group -----

  /** Stores that agree on everything but pending items. */
  ghost predicate UpToPending(f: Facts, g: Facts) {
    f == g.(pending := f.pending)
  }

  /** Two items asked for, live and on replay, before the fact is settled. */
  lemma AnchorsDiffer(f: Facts, g: Facts, n: int, key: FactKey, a: Option<PendingReconcileAnchor>,
                      b: Option<PendingReconcileAnchor>)
    requires UpToPending(f, g) && (a.Some? <==> b.Some?)
    requires a.Some? ==> a.value.pendingRef == b.value.pendingRef == RefFromKey("pending", key)
    ensures var x, y := WithAnchor(Bound(f, n, key), a), WithAnchor(Bound(g, n, key), b);
            && UpToPending(x, y)
            && Differing(x.pending, y.pending)
               == Differing(f.pending, g.pending) - (if a.Some? then {RefFromKey("pending", key)} else {})
                  + if a == b then {} else {RefFromKey("pending", key)}
  {
    if a.Some? {
      SettingBoth(f.pending, g.pending, RefFromKey("pending", key), a.value, b.value);
    }
  }

  lemma SettlingDiffers(f: Facts, g: Facts, n: int, key: FactKey, decider: Option<InputTaskEvent>)
    requires UpToPending(f, g) && (decider.Some? ==> Settling(decider.value))
    ensures var x, y := Decided(f, n, key, decider), Decided(g, n, key, decider);
            UpToPending(x, y) && Differing(x.pending, y.pending) == Differing(f.pending, g.pending) - ClearedBy(decider)
  {
    if decider.Some? {
      var hint := ApplyHint(decider.value);
      EffectOnPending(f, g, n, key, hint);
      if hint.LiveReconcileObserved? && hint.terminal {
        ClearingBoth(f.pending, g.pending, hint.pendingRef);
      }
    }
  }

  lemma SetThenClear<T>(d: set<T>, asked: set<T>, differs: set<T>, cleared: set<T>, r: T, harmless: bool)
    requires differs == {} || differs == {r}
    requires harmless <==> differs == {} || r in cleared
    ensures d - asked + differs - cleared == d - (asked + cleared) + if harmless then {} else {r}
  {
  }

  lemma RequestAndSettling(
      f: Facts, g: Facts, n: int, key: FactKey, a: Option<PendingReconcileAnchor>, b: Option<PendingReconcileAnchor>,
      decider: Option<InputTaskEvent>, harmless: bool)
    requires UpToPending(f, g) && (a.Some? <==> b.Some?) && (decider.Some? ==> Settling(decider.value))
    requires a.Some? ==> a.value.pendingRef == b.value.pendingRef == RefFromKey("pending", key)
    requires harmless <==> a == b || RefFromKey("pending", key) in ClearedBy(decider)
    ensures var x := Decided(WithAnchor(Bound(f, n, key), a), n, key, decider);
            var y := Decided(WithAnchor(Bound(g, n, key), b), n, key, decider);
            && UpToPending(x, y)
            && Differing(x.pending, y.pending)
               == Differing(f.pending, g.pending)
                  - ((if a.Some? then {RefFromKey("pending", key)} else {}) + ClearedBy(decider))
                  + if harmless then {} else {RefFromKey("pending", key)}
  {
    var r := RefFromKey("pending", key);
    AnchorsDiffer(f, g, n, key, a, b);
    SettlingDiffers(WithAnchor(Bound(f, n, key), a), WithAnchor(Bound(g, n, key), b), n, key, decider);
    SetThenClear(Differing(f.pending, g.pending), if a.Some? then {r} else {}, if a == b then {} else {r},
                 ClearedBy(decider), r, harmless);
  }

  lemma UnappliedGroup(f: Facts, n: int, key: FactKey, group: seq<InputTaskEvent>)
    requires key !in f.applied && Group(group, n, key) && group != []
    ensures var u := Undecided(group); var a, b, decider := LastAnchor(u), LastAnchor(Once(u)), Decider(group);
            && GroupFacts(f, n, key, group) == Decided(WithAnchor(Bound(f, n, key), a), n, key, decider)
            && GroupFacts(f, n, key, Once(group)) == Decided(WithAnchor(Bound(f, n, key), b), n, key, decider)
            && (decider.Some? ==> Settling(decider.value))
            && (Harmless(f.applied.Keys, group) <==> a == b || SettlesItself(decider))
            && TouchedBy(f.applied.Keys, group)
               == (if a.Some? then {RefFromKey("pending", key)} else {}) + ClearedBy(decider)
  {
    OnceDecides(group);
    DeciderOfGroup(group);
  }

  /** The live run applies every delivery of a group, the replay each once. */
  lemma GroupDiffers(f: Facts, g: Facts, n: int, key: FactKey, group: seq<InputTaskEvent>)
    requires UpToPending(f, g) && Group(group, n, key) && group != []
    ensures var x, y := GroupFacts(f, n, key, group), GroupFacts(g, n, key, Once(group));
            && UpToPending(x, y)
            && Differing(x.pending, y.pending)
               == Differing(f.pending, g.pending) - TouchedBy(f.applied.Keys, group)
                  + if Harmless(f.applied.Keys, group) then {} else {RefFromKey("pending", key)}
  {
    if key !in f.applied {
      UnappliedGroup(f, n, key, group);
      UnappliedGroup(g, n, key, group);
      AnchorsOfGroup(group, n, key);
      SettlesItselfIff(group, n, key);
      var u := Undecided(group);
      RequestAndSettling(f, g, n, key, LastAnchor(u), LastAnchor(Once(u)), Decider(group),
                         Harmless(f.applied.Keys, group));
    }
  }

  /** Live and on replay the last request, if there is one, is under the reference of the fact. */
  lemma AnchorsOfGroup(group: seq<InputTaskEvent>, n: int, key: FactKey)
    requires Group(group, n, key)
    ensures var u := Undecided(group); var a, b := LastAnchor(u), LastAnchor(Once(u));
            && (a.Some? <==> b.Some?)
            && (a.Some? ==> a.value.pendingRef == b.value.pendingRef == RefFromKey("pending", key))
  {
    var u := Undecided(group);
    UndecidedIsGroup(group, n, key);
    OnceIsGroup(u, n, key);
    AnchorInOnce(u);
    AnchorInOnce(Once(u));
    if LastAnchor(u).Some? {
      LastAnchorReference(u, n, key);
      LastAnchorReference(Once(u), n, key);
    }
  }

  lemma SettlesItselfIff(group: seq<InputTaskEvent>, n: int, key: FactKey)
    requires Group(group, n, key)
    ensures SettlesItself(Decider(group)) <==> RefFromKey("pending", key) in ClearedBy(Decider(group))
  {
    DeciderOfGroup(group);
  }

  // ----- Whole batches -----

  /** What a replay of the log makes of a batch agrees with the live facts but for the stale items. */
  lemma {:induction false} BatchDiffers(start: Facts, f: Facts, log: seq<InputTaskEvent>, batch: seq<InputTaskEvent>)
    requires Logged(start, f, log) && FreshBatch(f, batch)
    ensures var replayed := Fold(FactsApplier(), start, CommitAll(log, batch));
            var live := Fold(FactsApplier(), f, batch).value;
            && replayed.Ok? && Logged(start, replayed.value, CommitAll(log, batch)) && UpToPending(live, replayed.value)
            && Differing(live.pending, replayed.value.pending) == Stale(f.applied.Keys, batch)
    decreases |batch|
  {
    LoggedShape(start, f, log);
    if batch == [] {
      NoneDiffer(f.pending, f.pending);
    } else {
      BatchSplits(f, batch);
      var k := Cut(batch);
      BatchDiffers(start, f, log, batch[..k]);
      FrontIsBounded(f, batch[..k]);
      NextGroupDiffers(start, f, log, batch[..k], batch[k..]);
    }
  }

  lemma FrontIsBounded(f: Facts, front: seq<InputTaskEvent>)
    requires FreshBatch(f, front) && BoundedBy(f.consumed, f.lastConsumed)
    ensures BoundedBy(Fold(FactsApplier(), f, front).value.consumed, Fold(FactsApplier(), f, front).value.lastConsumed)
  {
    SortedInOrder(front);
    if front != [] {
      assert front[0] in front;
    }
    FoldMovesAnchor(f, front);
  }

  lemma NextGroupDiffers(
      start: Facts, f: Facts, log: seq<InputTaskEvent>, front: seq<InputTaskEvent>, group: seq<InputTaskEvent>)
    requires FollowedBy(f, front, group)
    requires var replayed := Fold(FactsApplier(), start, CommitAll(log, front));
             && replayed.Ok? && Logged(start, replayed.value, CommitAll(log, front))
             && UpToPending(Fold(FactsApplier(), f, front).value, replayed.value)
    requires BoundedBy(Fold(FactsApplier(), f, front).value.consumed, Fold(FactsApplier(), f, front).value.lastConsumed)
    ensures var old_ := Fold(FactsApplier(), start, CommitAll(log, front)).value;
            var replayed := Fold(FactsApplier(), start, CommitAll(log, front + group));
            var live := Fold(FactsApplier(), f, front + group);
            && live.Ok? && replayed.Ok? && Logged(start, replayed.value, CommitAll(log, front + group))
            && UpToPending(live.value, replayed.value)
            && Differing(live.value.pending, replayed.value.pending)
               == Differing(Fold(FactsApplier(), f, front).value.pending, old_.pending)
                  - TouchedBy(f.applied.Keys + SettledBy(front), group)
                  + if Harmless(f.applied.Keys + SettledBy(front), group) then {}
                    else {RefFromKey("pending", group[0].event.key)}
  {
    var live := Fold(FactsApplier(), f, front).value;
    var replayed := Fold(FactsApplier(), start, CommitAll(log, front)).value;
    var n, key := group[0].journalSeq, group[0].event.key;
    FoldSettles(f, front);
    FoldConcat(FactsApplier(), f, front, group);
    GroupFolds(live, n, key, group);
    GroupReplaysIff(start, replayed, CommitAll(log, front), n, key, group);
    CommitAllConcat(log, front, group);
    CommitAllKeepsOrder(CommitAll(log, front), group);
    GroupDiffers(live, replayed, n, key, group);
  }

  /** Exactly when the log is a faithful record at the end of a batch: every item that some sequence leaves
      different is set alike or cleared by a later one. */
  lemma EndsFaithfulIff(start: Facts, f: Facts, log: seq<InputTaskEvent>, batch: seq<InputTaskEvent>)
    requires Logged(start, f, log) && FreshBatch(f, batch)
    ensures Logged(start, Fold(FactsApplier(), f, batch).value, CommitAll(log, batch))
            <==> Stale(f.applied.Keys, batch) == {}
  {
    BatchDiffers(start, f, log, batch);
    NoneDiffer(Fold(FactsApplier(), f, batch).value.pending,
               Fold(FactsApplier(), start, CommitAll(log, batch)).value.pending);
  }
}
