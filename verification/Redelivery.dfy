/** Inputs delivered again under a sequence already used, with the same fact but another payload:
    crates/app-live/src/supervisor.rs:660-694 and 854-861 over crates/state/src/apply.rs:60-183.

    A drain applies every delivery; the log keeps each input once. Here is exactly when the two
    agree on the facts. */
module Redelivery {
  import opened Options
  import opened StableSort
  import opened StateFacts
  import opened StateStores
  import opened Ingress
  import opened DrainProperties
  import opened FactFolds
  import opened Text

  // ----- The deliveries of one sequence -----

  /** The deliveries a group holds under one sequence, each carrying the same fact. */
  ghost predicate Group(group: seq<InputTaskEvent>, n: int, key: FactKey) {
    forall i :: 0 <= i < |group| ==> group[i].journalSeq == n && group[i].event.key == key
  }

  /** An input that settles its fact: unless the fact was applied before, it is applied. */
  predicate Settling(input: InputTaskEvent) {
    var hint := ApplyHint(input);
    !hint.PendingReconcile? && !(hint.LiveReconcileObserved? && !hint.terminal)
  }

  /** What is delivered before the fact is settled. */
  function Undecided(group: seq<InputTaskEvent>): (r: seq<InputTaskEvent>)
    ensures |r| <= |group|
    ensures forall x :: x in r ==> x in group && !Settling(x)
  {
    if group == [] || Settling(group[0]) then [] else [group[0]] + Undecided(group[1..])
  }

  /** The delivery that settles the fact, if any. */
  function Decider(group: seq<InputTaskEvent>): Option<InputTaskEvent> {
    if group == [] then None else if Settling(group[0]) then Some(group[0]) else Decider(group[1..])
  }

  /** The reconcile item that the last of the deliveries to ask for one leaves pending. */
  function LastAnchor(group: seq<InputTaskEvent>): Option<PendingReconcileAnchor> {
    if group == [] then None
    else
      var hint := ApplyHint(group[|group| - 1]);
      if hint.PendingReconcile? then Some(hint.anchor) else LastAnchor(group[..|group| - 1])
  }

  /** The group without repeats, by first occurrence. */
  function Once(group: seq<InputTaskEvent>): (r: seq<InputTaskEvent>)
    ensures forall x :: x in r <==> x in group
    ensures NoRepeats(r)
  {
    if group == [] then []
    else
      var front, last := Once(group[..|group| - 1]), group[|group| - 1];
      assert group == group[..|group| - 1] + [last];
      if last in front then front else front + [last]
  }

  // ----- What a group does to the facts -----

  function Bound(f: Facts, n: int, key: FactKey): Facts {
    f.(lastConsumed := Some(n), consumed := f.consumed[n := key])
  }

  function WithAnchor(f: Facts, anchor: Option<PendingReconcileAnchor>): Facts {
    if anchor.None? then f else f.(pending := f.pending[anchor.value.pendingRef := anchor.value])
  }

  function Decided(f: Facts, n: int, key: FactKey, decider: Option<InputTaskEvent>): Facts {
    if decider.None? then f else Effect(f, n, key, ApplyHint(decider.value)).facts
  }

  /** The facts after a group: the last item asked for before the fact is settled, then the settling. */
  function GroupFacts(f: Facts, n: int, key: FactKey, group: seq<InputTaskEvent>): Facts {
    if key in f.applied then Bound(f, n, key)
    else Decided(WithAnchor(Bound(f, n, key), LastAnchor(Undecided(group))), n, key, Decider(group))
  }

  lemma {:induction false} DeciderPush(group: seq<InputTaskEvent>, x: InputTaskEvent)
    ensures Decider(group + [x]) == if Decider(group).None? && Settling(x) then Some(x) else Decider(group)
  {
    var more := group + [x];
    if group == [] {
      assert more[1..] == [];
    } else if !Settling(group[0]) {
      assert more[0] == group[0] && more[1..] == group[1..] + [x];
      DeciderPush(group[1..], x);
    }
  }

  lemma {:induction false} UndecidedIsAll(group: seq<InputTaskEvent>)
    ensures Decider(group).None? <==> Undecided(group) == group
  {
    if group != [] && !Settling(group[0]) {
      UndecidedIsAll(group[1..]);
      assert group == [group[0]] + group[1..];
    }
  }

  lemma {:induction false} UndecidedPush(group: seq<InputTaskEvent>, x: InputTaskEvent)
    ensures Undecided(group + [x])
            == if Decider(group).None? && !Settling(x) then Undecided(group) + [x] else Undecided(group)
  {
    var more := group + [x];
    if group == [] {
      assert more[1..] == [] && Undecided([]) == [];
    } else if !Settling(group[0]) {
      assert more[0] == group[0] && more[1..] == group[1..] + [x];
      UndecidedPush(group[1..], x);
    }
  }

  /** What one more delivery does to a group. */
  lemma GroupPush(group: seq<InputTaskEvent>, x: InputTaskEvent)
    ensures Undecided(group + [x])
            == if Decider(group).None? && !Settling(x) then Undecided(group) + [x] else Undecided(group)
    ensures Decider(group + [x]) == if Decider(group).None? && Settling(x) then Some(x) else Decider(group)
    ensures Decider(group).None? ==> Undecided(group) == group
  {
    UndecidedPush(group, x);
    DeciderPush(group, x);
    UndecidedIsAll(group);
  }

  lemma LastAnchorPush(group: seq<InputTaskEvent>, x: InputTaskEvent)
    ensures LastAnchor(group + [x])
            == if ApplyHint(x).PendingReconcile? then Some(ApplyHint(x).anchor) else LastAnchor(group)
  {
    assert (group + [x])[..|group|] == group;
  }

  /** Every item asked for under one fact has one reference. */
  lemma ReferenceOfFact(x: InputTaskEvent)
    requires ApplyHint(x).PendingReconcile?
    ensures ApplyHint(x).anchor.pendingRef == RefFromKey("pending", x.event.key)
  {
  }

  lemma {:induction false} LastAnchorReference(group: seq<InputTaskEvent>, n: int, key: FactKey)
    requires Group(group, n, key) && LastAnchor(group).Some?
    ensures LastAnchor(group).value.pendingRef == RefFromKey("pending", key)
  {
    var m := |group| - 1;
    if ApplyHint(group[m]).PendingReconcile? {
      ReferenceOfFact(group[m]);
    } else {
      LastAnchorReference(group[..m], n, key);
    }
  }

  lemma SettlingApplies(f: Facts, n: int, x: InputTaskEvent)
    ensures Settling(x) <==> Effect(f, n, x.event.key, ApplyHint(x)).result.value.Applied?
    ensures Settling(x) ==> x.event.key in Effect(f, n, x.event.key, ApplyHint(x)).facts.applied
  {
    EffectConsumesNothing(f, n, x.event.key, ApplyHint(x));
  }

  /** One more delivery of a bound fact. */
  lemma DeliveredAgain(f: Facts, n: int, key: FactKey, x: InputTaskEvent)
    requires x.journalSeq == n && x.event.key == key && n in f.consumed && f.consumed[n] == key
    ensures ApplyOnly(f, x) == Ok(if key in f.applied then f else Effect(f, n, key, ApplyHint(x)).facts)
  {
    AcceptanceIff(f, x);
  }

  lemma DeliveredFirst(f: Facts, n: int, key: FactKey, x: InputTaskEvent)
    requires x.journalSeq == n && x.event.key == key && n !in f.consumed && After(x, f.lastConsumed)
    ensures ApplyOnly(f, x)
            == Ok(if key in f.applied then Bound(f, n, key) else Effect(Bound(f, n, key), n, key, ApplyHint(x)).facts)
  {
    AcceptanceIff(f, x);
  }

  /** What a delivery adds to an undecided group. */
  lemma StillUndecided(f: Facts, n: int, key: FactKey, before: Option<PendingReconcileAnchor>, x: InputTaskEvent)
    requires x.event.key == key && !Settling(x)
    requires before.Some? ==> before.value.pendingRef == RefFromKey("pending", key)
    ensures Effect(WithAnchor(f, before), n, key, ApplyHint(x)).facts
         == WithAnchor(f, if ApplyHint(x).PendingReconcile? then Some(ApplyHint(x).anchor) else before)
  {
    if ApplyHint(x).PendingReconcile? {
      ReferenceOfFact(x);
      var a := ApplyHint(x).anchor;
      if before.Some? {
        assert f.pending[before.value.pendingRef := before.value][a.pendingRef := a] == f.pending[a.pendingRef := a];
      }
    }
  }

  lemma NotAppliedByAnchor(f: Facts, anchor: Option<PendingReconcileAnchor>)
    ensures WithAnchor(f, anchor).applied == f.applied && WithAnchor(f, anchor).consumed == f.consumed
    ensures WithAnchor(f, anchor).lastConsumed == f.lastConsumed
  {
  }

  lemma DecidedKeeps(f: Facts, n: int, decider: InputTaskEvent)
    requires Settling(decider)
    ensures var g := Decided(f, n, decider.event.key, Some(decider));
            g.consumed == f.consumed && g.lastConsumed == f.lastConsumed && decider.event.key in g.applied
  {
    SettlingApplies(f, n, decider);
    EffectConsumesNothing(f, n, decider.event.key, ApplyHint(decider));
  }

  lemma {:induction false} DeciderOfGroup(group: seq<InputTaskEvent>)
    ensures Decider(group).Some? ==> Decider(group).value in group && Settling(Decider(group).value)
  {
    if group != [] && !Settling(group[0]) {
      DeciderOfGroup(group[1..]);
    }
  }

  lemma UndecidedIsGroup(group: seq<InputTaskEvent>, n: int, key: FactKey)
    requires Group(group, n, key)
    ensures Group(Undecided(group), n, key)
  {
    forall i | 0 <= i < |Undecided(group)|
      ensures Undecided(group)[i].journalSeq == n && Undecided(group)[i].event.key == key
    {
      assert Undecided(group)[i] in group;
    }
  }

  /** The journal entry of a group. */
  lemma GroupFactsBound(f: Facts, n: int, key: FactKey, group: seq<InputTaskEvent>)
    requires Group(group, n, key)
    ensures var g := GroupFacts(f, n, key, group);
            && g.consumed == f.consumed[n := key] && g.lastConsumed == Some(n)
            && (key in f.applied || Decider(group).Some? ==> key in g.applied)
            && (Decider(group).None? ==> g.applied == f.applied)
  {
    DeciderOfGroup(group);
    NotAppliedByAnchor(Bound(f, n, key), LastAnchor(Undecided(group)));
    if Decider(group).Some? {
      DecidedKeeps(WithAnchor(Bound(f, n, key), LastAnchor(Undecided(group))), n, Decider(group).value);
    }
  }

  lemma GroupFactsPush(f: Facts, n: int, key: FactKey, group: seq<InputTaskEvent>, x: InputTaskEvent)
    requires Group(group + [x], n, key) && group != []
    ensures ApplyOnly(GroupFacts(f, n, key, group), x) == Ok(GroupFacts(f, n, key, group + [x]))
  {
    var all := group + [x];
    assert forall i :: 0 <= i < |group| ==> all[i] == group[i];
    assert all[|group|] == x;
    var g := GroupFacts(f, n, key, group);
    GroupFactsBound(f, n, key, group);
    DeliveredAgain(g, n, key, x);
    GroupPush(group, x);
    if key !in f.applied && Decider(group).None? {
      var anchor := LastAnchor(Undecided(group));
      UndecidedIsGroup(group, n, key);
      if anchor.Some? {
        LastAnchorReference(Undecided(group), n, key);
      }
      if !Settling(x) {
        StillUndecided(Bound(f, n, key), n, key, anchor, x);
        LastAnchorPush(Undecided(group), x);
      }
    }
  }

  lemma OneDelivery(x: InputTaskEvent)
    ensures Decider([x]) == if Settling(x) then Some(x) else None
    ensures LastAnchor(Undecided([x])) == if ApplyHint(x).PendingReconcile? then Some(ApplyHint(x).anchor) else None
  {
    if !Settling(x) {
      UndecidedIsAll([x]);
    }
  }

  lemma GroupFactsFirst(f: Facts, n: int, key: FactKey, x: InputTaskEvent)
    requires x.journalSeq == n && x.event.key == key && n !in f.consumed && After(x, f.lastConsumed)
    ensures ApplyOnly(f, x) == Ok(GroupFacts(f, n, key, [x]))
  {
    DeliveredFirst(f, n, key, x);
    OneDelivery(x);
    if !Settling(x) {
      StillUndecided(Bound(f, n, key), n, key, None, x);
    }
  }

  /** Folding a fresh group gives the facts above. */
  lemma {:induction false} GroupFolds(f: Facts, n: int, key: FactKey, group: seq<InputTaskEvent>)
    requires Group(group, n, key) && group != [] && n !in f.consumed && After(group[0], f.lastConsumed)
    ensures Fold(FactsApplier(), f, group) == Ok(GroupFacts(f, n, key, group))
    decreases |group|
  {
    var m := |group| - 1;
    var front, last := group[..m], group[m];
    assert group == front + [last];
    if m == 0 {
      FoldOne(FactsApplier(), f, last);
      assert group == [last];
      assert FactsApplier()(f, last) == ApplyOnly(f, last);
      GroupFactsFirst(f, n, key, last);
    } else {
      GroupFolds(f, n, key, front);
      FoldAppend(FactsApplier(), f, front, last);
      var g := GroupFacts(f, n, key, front);
      assert FactsApplier()(g, last) == ApplyOnly(g, last);
      GroupFactsPush(f, n, key, front, last);
    }
  }

  // ----- When a repeat does not matter -----

  lemma {:induction false} OnceDecides(group: seq<InputTaskEvent>)
    ensures Decider(Once(group)) == Decider(group)
    ensures Undecided(Once(group)) == Once(Undecided(group))
  {
    if group != [] {
      var m := |group| - 1;
      var front, last := group[..m], group[m];
      assert group == front + [last];
      OnceDecides(front);
      GroupPush(front, last);
      GroupPush(Once(front), last);
      if Decider(front).None? {
        assert Undecided(front) == front;
        assert Undecided(Once(front)) == Once(front);
        if Settling(last) {
          DecidedNotInUndecided(front, last);
        } else {
          assert (front + [last])[..m] == front;
        }
      }
    }
  }

  lemma DecidedNotInUndecided(group: seq<InputTaskEvent>, x: InputTaskEvent)
    requires Undecided(group) == group && Settling(x)
    ensures x !in group
  {
  }

  /** The reconcile item of the fact is itself what the settling delivery settles. */
  predicate SettlesItself(decider: Option<InputTaskEvent>) {
    && decider.Some?
    && ApplyHint(decider.value) == LiveReconcileObserved(RefFromKey("pending", decider.value.event.key), true)
  }

  /** A group applied in full and applied once each leave the same facts: the fact was applied before,
      or the last item asked for before it is settled is also the last among first deliveries, or the
      settling delivery takes that very item away. */
  predicate Harmless(applied: set<FactKey>, group: seq<InputTaskEvent>) {
    || group == []
    || group[0].event.key in applied
    || LastAnchor(Undecided(group)) == LastAnchor(Once(Undecided(group)))
    || SettlesItself(Decider(group))
  }

  lemma {:induction false} AnchorInOnce(group: seq<InputTaskEvent>)
    ensures LastAnchor(group).Some? <==> exists x :: x in group && ApplyHint(x).PendingReconcile?
  {
    if group != [] {
      var m := |group| - 1;
      assert group == group[..m] + [group[m]];
      AnchorInOnce(group[..m]);
    }
  }

  /** Setting one entry to two values makes two maps, and every later effect but its removal keeps
      them apart. */
  lemma AnchorsTold(f: Facts, n: int, key: FactKey, a: PendingReconcileAnchor, b: PendingReconcileAnchor,
                    decider: Option<InputTaskEvent>)
    requires a.pendingRef == b.pendingRef == RefFromKey("pending", key) && a != b
    requires decider.Some? ==> Settling(decider.value) && decider.value.event.key == key
    ensures Decided(WithAnchor(f, Some(a)), n, key, decider) == Decided(WithAnchor(f, Some(b)), n, key, decider)
            <==> SettlesItself(decider)
    ensures Decided(WithAnchor(f, Some(a)), n, key, decider).pending
            == Decided(WithAnchor(f, Some(b)), n, key, decider).pending
            <==> SettlesItself(decider)
  {
    var ref := a.pendingRef;
    var fa, fb := WithAnchor(f, Some(a)), WithAnchor(f, Some(b));
    assert fa == fb.(pending := fa.pending);
    assert fa.pending[ref] == a && fb.pending[ref] == b;
    if decider.Some? {
      EffectOnPending(fa, fb, n, key, ApplyHint(decider.value));
      var x, y := Decided(fa, n, key, decider), Decided(fb, n, key, decider);
      assert x == y.(pending := x.pending);
      if SettlesItself(decider) {
        assert fa.pending - {ref} == fb.pending - {ref};
        assert x == y.(pending := y.pending) == y;
      } else {
        assert x.pending[ref] == a && y.pending[ref] == b;
      }
    }
  }

  function PendingAfter(pending: map<Bytes, PendingReconcileAnchor>, hint: FactApplyHint)
    : map<Bytes, PendingReconcileAnchor>
  {
    if hint.PendingReconcile? then pending[hint.anchor.pendingRef := hint.anchor]
    else if hint.LiveReconcileObserved? && hint.terminal then pending - {hint.pendingRef}
    else pending
  }

  /** An effect reads the pending items for nothing but their own change. */
  lemma EffectOnPending(f: Facts, g: Facts, n: int, key: FactKey, hint: FactApplyHint)
    requires f == g.(pending := f.pending)
    ensures var x := Effect(f, n, key, hint); var y := Effect(g, n, key, hint);
            && x.result == y.result && x.facts == y.facts.(pending := x.facts.pending)
            && x.facts.pending == PendingAfter(f.pending, hint) && y.facts.pending == PendingAfter(g.pending, hint)
  {
    match hint
    case NoEffect =>
    case FamilyDiscovery(record) => assert WithDiscovery(f, record) == WithDiscovery(g, record).(pending := f.pending);
    case FamilyBackfill(familyId, cursor, completedAt) => BackfillOnPending(f, g, familyId, cursor, completedAt);
    case PendingReconcile(anchor) =>
    case RuntimeAttention(anchor) =>
    case LiveReconcileObserved(pendingRef, terminal) =>
  }

  lemma BackfillOnPending(f: Facts, g: Facts, familyId: Bytes, cursor: Bytes, completedAt: Option<int>)
    requires f == g.(pending := f.pending)
    ensures WithBackfill(f, familyId, cursor, completedAt)
            == WithBackfill(g, familyId, cursor, completedAt).(pending := f.pending)
    ensures WithBackfill(g, familyId, cursor, completedAt).pending == g.pending
  {
    assert f.discoveries == g.discoveries && f.backfills == g.backfills;
    if familyId in f.discoveries {
    } else if familyId in f.backfills {
    } else {
    }
  }

  /** Exactly when repeats do not matter. */
  lemma GroupFactsOnceIff(f: Facts, n: int, key: FactKey, group: seq<InputTaskEvent>)
    requires Group(group, n, key) && group != []
    ensures GroupFacts(f, n, key, group) == GroupFacts(f, n, key, Once(group)) <==> Harmless(f.applied.Keys, group)
    ensures GroupFacts(f, n, key, group).pending == GroupFacts(f, n, key, Once(group)).pending
            <==> Harmless(f.applied.Keys, group)
  {
    if key !in f.applied {
      OnceDecides(group);
      DeciderOfGroup(group);
      var u := Undecided(group);
      var a, b := LastAnchor(u), LastAnchor(Once(u));
      UndecidedIsGroup(group, n, key);
      AnchorInOnce(u);
      AnchorInOnce(Once(u));
      if a != b {
        OnceIsGroup(u, n, key);
        LastAnchorReference(u, n, key);
        LastAnchorReference(Once(u), n, key);
        AnchorsTold(Bound(f, n, key), n, key, a.value, b.value, Decider(group));
      }
    }
  }

  lemma OnceIsGroup(group: seq<InputTaskEvent>, n: int, key: FactKey)
    requires Group(group, n, key)
    ensures Group(Once(group), n, key)
    ensures group != [] ==> Once(group) != []
  {
    forall i | 0 <= i < |Once(group)| ensures Once(group)[i].journalSeq == n && Once(group)[i].event.key == key {
      assert Once(group)[i] in group;
    }
    if group != [] {
      assert group[0] in Once(group);
    }
  }

  // ----- What the log makes of a group -----

  lemma {:induction false} CommitAllConcat(log: seq<InputTaskEvent>, a: seq<InputTaskEvent>, b: seq<InputTaskEvent>)
    ensures CommitAll(log, a + b) == CommitAll(CommitAll(log, a), b)
    decreases |a|
  {
    if a == [] {
      assert a + b == b;
    } else {
      assert (a + b)[1..] == a[1..] + b;
      CommitAllConcat(Commit(log, a[0]), a[1..], b);
    }
  }

  lemma {:induction false} CommitAllKeepsOrder(log: seq<InputTaskEvent>, batch: seq<InputTaskEvent>)
    requires Sorted(log, BySeq) && NoRepeats(log)
    ensures Sorted(CommitAll(log, batch), BySeq) && NoRepeats(CommitAll(log, batch))
    decreases |batch|
  {
    if batch != [] {
      CommitKeepsOrder(log, batch[0]);
      CommitAllKeepsOrder(Commit(log, batch[0]), batch[1..]);
    }
  }

  lemma CommitOne(log: seq<InputTaskEvent>, x: InputTaskEvent)
    ensures CommitAll(log, [x]) == Commit(log, x)
  {
    assert [x][1..] == [];
  }

  /** A group above the log is appended, each of its inputs once. */
  lemma {:induction false} GroupCommits(log: seq<InputTaskEvent>, n: int, key: FactKey, group: seq<InputTaskEvent>)
    requires Sorted(log, BySeq) && NoRepeats(log) && Group(group, n, key)
    requires forall x :: x in log ==> x.journalSeq < n
    ensures CommitAll(log, group) == log + Once(group)
    decreases |group|
  {
    if group == [] {
      assert log + Once(group) == log;
    } else {
      var m := |group| - 1;
      var front, last := group[..m], group[m];
      assert group == front + [last];
      GroupCommits(log, n, key, front);
      CommitAllConcat(log, front, [last]);
      CommitOne(CommitAll(log, front), last);
      CommitAllKeepsOrder(log, front);
      assert last in log + Once(front) <==> last in Once(front);
      if last !in front {
        forall x | x in log + Once(front) ensures x.journalSeq <= n {
          assert x in log || x in front;
        }
        CommitAppends(log + Once(front), last);
        assert log + Once(front) + [last] == log + (Once(front) + [last]);
      }
    }
  }

  /** Exactly when the log is still a faithful record after all deliveries of one new sequence. */
  lemma GroupReplaysIff(start: Facts, f: Facts, log: seq<InputTaskEvent>, n: int, key: FactKey,
                        group: seq<InputTaskEvent>)
    requires Logged(start, f, log) && Group(group, n, key) && group != [] && After(group[0], f.lastConsumed)
    ensures Fold(FactsApplier(), f, group) == Ok(GroupFacts(f, n, key, group))
    ensures Fold(FactsApplier(), start, CommitAll(log, group)) == Ok(GroupFacts(f, n, key, Once(group)))
    ensures Logged(start, GroupFacts(f, n, key, group), CommitAll(log, group)) <==> Harmless(f.applied.Keys, group)
  {
    LoggedShape(start, f, log);
    GroupFolds(f, n, key, group);
    OnceIsGroup(group, n, key);
    GroupFolds(f, n, key, Once(group));
    GroupCommits(log, n, key, group);
    FoldConcat(FactsApplier(), start, log, Once(group));
    CommitAllKeepsOrder(log, group);
    GroupFactsOnceIff(f, n, key, group);
  }

  // ----- Batches of many sequences -----

  /** Where the last sequence of a batch begins. */
  function Cut(batch: seq<InputTaskEvent>): (k: nat)
    requires batch != []
    ensures k < |batch|
    ensures forall i :: k <= i < |batch| ==> batch[i].journalSeq == batch[|batch| - 1].journalSeq
    ensures k > 0 ==> batch[k - 1].journalSeq != batch[|batch| - 1].journalSeq
  {
    var m := |batch| - 1;
    if m > 0 && batch[m - 1].journalSeq == batch[m].journalSeq then Cut(batch[..m]) else m
  }

  /** The facts that a batch settles. */
  function SettledBy(batch: seq<InputTaskEvent>): set<FactKey> {
    set x | x in batch && Settling(x) :: x.event.key
  }

  /** The deliveries of each sequence are harmless, after what the earlier sequences have settled. */
  predicate HarmlessBatch(applied: set<FactKey>, batch: seq<InputTaskEvent>)
    decreases |batch|
  {
    || batch == []
    || (var k := Cut(batch);
        HarmlessBatch(applied, batch[..k]) && Harmless(applied + SettledBy(batch[..k]), batch[k..]))
  }

  /** After each sequence of the batch the log is a faithful record. */
  ghost predicate FaithfulThroughout(start: Facts, f: Facts, log: seq<InputTaskEvent>, batch: seq<InputTaskEvent>)
    decreases |batch|
  {
    var folded := Fold(FactsApplier(), f, batch);
    && folded.Ok? && Logged(start, folded.value, CommitAll(log, batch))
    && (batch == [] || FaithfulThroughout(start, f, log, batch[..Cut(batch)]))
  }

  lemma SettlesKey(f: Facts, input: InputTaskEvent)
    requires ApplyOnly(f, input).Ok?
    ensures ApplyOnly(f, input).value.applied.Keys == f.applied.Keys + if Settling(input) then {input.event.key} else {}
  {
    OnlyApplyingAdvances(f, input);
    var n, key, hint := input.journalSeq, input.event.key, ApplyHint(input);
    var f1 := if n in f.consumed then f else Bound(f, n, key);
    if key !in f1.applied {
      SettlingApplies(f1, n, input);
      AppliesOneKey(f1, n, key, hint);
    }
  }

  lemma AppliesOneKey(f: Facts, n: int, key: FactKey, hint: FactApplyHint)
    ensures var e := Effect(f, n, key, hint);
            e.result.Ok? && e.facts.applied.Keys == f.applied.Keys + if e.result.value.Applied? then {key} else {}
  {
    match hint
    case FamilyDiscovery(record) => assert WithDiscovery(f, record).applied == f.applied;
    case FamilyBackfill(familyId, cursor, completedAt) =>
      assert WithBackfill(f, familyId, cursor, completedAt).applied == f.applied;
    case _ =>
  }

  lemma {:induction false} AnyFoldSettles(apply: Applier<Facts, ApplyError>, f: Facts, batch: seq<InputTaskEvent>)
    requires AppliesFacts(apply) && Fold(apply, f, batch).Ok?
    ensures Fold(apply, f, batch).value.applied.Keys == f.applied.Keys + SettledBy(batch)
    decreases |batch|
  {
    if batch != [] {
      var m := |batch| - 1;
      FoldLast(apply, f, batch);
      AnyFoldSettles(apply, f, batch[..m]);
      SettlesKey(Fold(apply, f, batch[..m]).value, batch[m]);
      SettledByMore(batch[..m], batch[m]);
      assert batch == batch[..m] + [batch[m]];
    }
  }

  lemma FoldSettles(f: Facts, batch: seq<InputTaskEvent>)
    requires Fold(FactsApplier(), f, batch).Ok?
    ensures Fold(FactsApplier(), f, batch).value.applied.Keys == f.applied.Keys + SettledBy(batch)
  {
    FactsApplierApplies();
    AnyFoldSettles(FactsApplier(), f, batch);
  }

  lemma SettledByMore(front: seq<InputTaskEvent>, last: InputTaskEvent)
    ensures SettledBy(front + [last]) == SettledBy(front) + if Settling(last) then {last.event.key} else {}
  {
  }

  /** The inputs of the last sequence of a batch carry one fact. */
  lemma LastIsGroup(batch: seq<InputTaskEvent>)
    requires batch != [] && OneFactPerSeq(batch)
    ensures var group := batch[Cut(batch)..]; Group(group, group[0].journalSeq, group[0].event.key)
  {
    var k := Cut(batch);
    var group := batch[k..];
    forall i | 0 <= i < |group|
      ensures group[i].journalSeq == group[0].journalSeq && group[i].event.key == group[0].event.key
    {
      assert group[i] == batch[k + i] && group[0] == batch[k] && batch[k + i] in batch && batch[k] in batch;
    }
  }

  lemma FrontFolds(f: Facts, batch: seq<InputTaskEvent>, k: nat)
    requires k <= |batch| && Fold(FactsApplier(), f, batch).Ok?
    ensures Fold(FactsApplier(), f, batch[..k]).Ok?
  {
    assert batch == batch[..k] + batch[k..];
    FoldConcat(FactsApplier(), f, batch[..k], batch[k..]);
  }

  /** A batch in order is its last sequence behind everything lower. */
  lemma LastSequence(batch: seq<InputTaskEvent>)
    requires batch != [] && Sorted(batch, BySeq)
    ensures var k := Cut(batch);
            && batch == batch[..k] + batch[k..] && Sorted(batch[..k], BySeq)
            && (k > 0 ==> batch[..k][k - 1].journalSeq < batch[k].journalSeq)
  {
    var k := Cut(batch);
    if k > 0 {
      assert BySeq(batch[k - 1], batch[k]);
    }
  }

  /** What comes next in order lies above what a batch consumed. */
  lemma NextIsAfter(f: Facts, front: seq<InputTaskEvent>, next: InputTaskEvent)
    requires Fold(FactsApplier(), f, front).Ok? && Sorted(front, BySeq) && BoundedBy(f.consumed, f.lastConsumed)
    requires forall x :: x in front ==> After(x, f.lastConsumed)
    requires After(next, f.lastConsumed)
    requires front != [] ==> front[|front| - 1].journalSeq < next.journalSeq
    ensures After(next, Fold(FactsApplier(), f, front).value.lastConsumed)
  {
    SortedInOrder(front);
    FoldMovesAnchor(f, front);
  }

  /** A fresh batch in order that folds. */
  ghost predicate FreshBatch(f: Facts, batch: seq<InputTaskEvent>) {
    && Sorted(batch, BySeq) && Fold(FactsApplier(), f, batch).Ok?
    && forall x :: x in batch ==> After(x, f.lastConsumed)
  }

  /** The deliveries of one sequence, above what a batch consumed. */
  ghost predicate FollowedBy(f: Facts, front: seq<InputTaskEvent>, group: seq<InputTaskEvent>) {
    && Fold(FactsApplier(), f, front).Ok?
    && group != [] && Group(group, group[0].journalSeq, group[0].event.key)
    && After(group[0], Fold(FactsApplier(), f, front).value.lastConsumed)
  }

  /** One more sequence after a faithful record. */
  lemma NextGroupReplaysIff(start: Facts, f: Facts, log: seq<InputTaskEvent>, front: seq<InputTaskEvent>,
                            group: seq<InputTaskEvent>)
    requires FollowedBy(f, front, group)
    requires Logged(start, Fold(FactsApplier(), f, front).value, CommitAll(log, front))
    ensures Fold(FactsApplier(), f, front + group).Ok?
    ensures Logged(start, Fold(FactsApplier(), f, front + group).value, CommitAll(log, front + group))
            <==> Harmless(f.applied.Keys + SettledBy(front), group)
  {
    var g := Fold(FactsApplier(), f, front).value;
    FoldSettles(f, front);
    GroupReplaysIff(start, g, CommitAll(log, front), group[0].journalSeq, group[0].event.key, group);
    FoldConcat(FactsApplier(), f, front, group);
    CommitAllConcat(log, front, group);
  }

  lemma BatchSplits(f: Facts, batch: seq<InputTaskEvent>)
    requires batch != [] && FreshBatch(f, batch) && BoundedBy(f.consumed, f.lastConsumed)
    ensures var k := Cut(batch);
            batch == batch[..k] + batch[k..] && FreshBatch(f, batch[..k]) && FollowedBy(f, batch[..k], batch[k..])
  {
    LastSequence(batch);
    FoldAboveSucceedsIff(f, batch);
    LastIsGroup(batch);
    var k := Cut(batch);
    var front, group := batch[..k], batch[k..];
    FrontFolds(f, batch, k);
    assert forall x :: x in front ==> x in batch;
    assert batch[k] in batch;
    NextIsAfter(f, front, batch[k]);
  }

  /** Exactly when the log stays a faithful record through a batch. */
  lemma {:induction false} BatchReplaysIff(start: Facts, f: Facts, log: seq<InputTaskEvent>, batch: seq<InputTaskEvent>)
    requires Logged(start, f, log) && FreshBatch(f, batch)
    ensures FaithfulThroughout(start, f, log, batch) <==> HarmlessBatch(f.applied.Keys, batch)
    decreases |batch|
  {
    if batch != [] {
      LoggedShape(start, f, log);
      BatchSplits(f, batch);
      var k := Cut(batch);
      BatchReplaysIff(start, f, log, batch[..k]);
      if HarmlessBatch(f.applied.Keys, batch[..k]) {
        FaithfulIsLogged(start, f, log, batch[..k]);
        NextGroupReplaysIff(start, f, log, batch[..k], batch[k..]);
      }
    }
  }

  lemma FaithfulIsLogged(start: Facts, f: Facts, log: seq<InputTaskEvent>, batch: seq<InputTaskEvent>)
    requires FaithfulThroughout(start, f, log, batch)
    ensures Fold(FactsApplier(), f, batch).Ok?
    ensures Logged(start, Fold(FactsApplier(), f, batch).value, CommitAll(log, batch))
  {
  }

  // ----- Batches that are always harmless -----

  /** Inputs that share a sequence are the same input. */
  ghost predicate OneInputPerSeq(batch: seq<InputTaskEvent>) {
    forall x, y :: x in batch && y in batch && x.journalSeq == y.journalSeq ==> x == y
  }

  lemma {:induction false} OnceOfOne(group: seq<InputTaskEvent>, x: InputTaskEvent)
    requires group != [] && forall i :: 0 <= i < |group| ==> group[i] == x
    ensures Once(group) == [x]
  {
    var m := |group| - 1;
    if m > 0 {
      OnceOfOne(group[..m], x);
    } else {
      assert Once([]) == [] && group[..0] == [];
    }
  }

  lemma {:induction false} LastAnchorOfOne(group: seq<InputTaskEvent>, x: InputTaskEvent)
    requires group != [] && forall i :: 0 <= i < |group| ==> group[i] == x
    ensures LastAnchor(group) == if ApplyHint(x).PendingReconcile? then Some(ApplyHint(x).anchor) else None
  {
    var m := |group| - 1;
    if m > 0 {
      LastAnchorOfOne(group[..m], x);
    } else {
      assert LastAnchor([]) == None && group[..0] == [];
    }
  }

  /** Requests only: nothing is settled. */
  lemma {:induction false} RequestsSettleNothing(group: seq<InputTaskEvent>)
    requires forall i :: 0 <= i < |group| ==> !Settling(group[i])
    ensures Undecided(group) == group && Decider(group) == None
  {
    if group != [] {
      var rest := group[1..];
      forall i | 0 <= i < |rest| ensures !Settling(rest[i]) {
        assert rest[i] == group[i + 1];
      }
      RequestsSettleNothing(rest);
      assert group == [group[0]] + rest;
    }
  }

  lemma OneInputGroupIsHarmless(applied: set<FactKey>, group: seq<InputTaskEvent>, x: InputTaskEvent)
    requires group != [] && forall i :: 0 <= i < |group| ==> group[i] == x
    ensures Harmless(applied, group)
  {
    if Settling(x) {
      assert Undecided(group) == [] && Once([]) == [];
    } else {
      RequestsSettleNothing(group);
      OnceOfOne(group, x);
      LastAnchorOfOne(group, x);
      LastAnchorOfOne([x], x);
    }
  }

  /** When a sequence names one input, nothing delivered again does harm. */
  lemma {:induction false} OneInputIsHarmless(applied: set<FactKey>, batch: seq<InputTaskEvent>)
    requires OneInputPerSeq(batch)
    ensures HarmlessBatch(applied, batch)
    decreases |batch|
  {
    if batch != [] {
      var k := Cut(batch);
      var front, group := batch[..k], batch[k..];
      assert forall x :: x in front ==> x in batch;
      OneInputIsHarmless(applied, front);
      forall i | 0 <= i < |group| ensures group[i] == group[0] {
        assert group[i] == batch[k + i] && batch[k + i] in batch && batch[k] in batch;
      }
      OneInputGroupIsHarmless(applied + SettledBy(front), group, group[0]);
    }
  }

  // ----- The least harmful redelivery -----

  lemma OncePush(group: seq<InputTaskEvent>, x: InputTaskEvent)
    ensures Once(group + [x]) == if x in group then Once(group) else Once(group) + [x]
  {
    assert (group + [x])[..|group|] == group;
  }

  lemma OnceOfThree(a: InputTaskEvent, b: InputTaskEvent)
    requires a != b
    ensures Once([a, b]) == [a, b] && Once([a, b, a]) == [a, b]
  {
    assert Once([]) == [];
    assert [] + [a] == [a] && [a] + [b] == [a, b] && [a, b] + [a] == [a, b, a];
    OncePush([], a);
    OncePush([a], b);
    OncePush([a, b], a);
  }

  lemma LastRequest(group: seq<InputTaskEvent>, x: InputTaskEvent)
    requires group != [] && group[|group| - 1] == x && ApplyHint(x).PendingReconcile?
    ensures LastAnchor(group) == Some(ApplyHint(x).anchor)
  {
  }

  lemma RequestsOnly(applied: set<FactKey>, group: seq<InputTaskEvent>)
    requires group != [] && forall i :: 0 <= i < |group| ==> !Settling(group[i])
    ensures Harmless(applied, group) <==> group[0].event.key in applied || LastAnchor(group) == LastAnchor(Once(group))
  {
    RequestsSettleNothing(group);
  }

  /** Two requests of one fact to reconcile do no harm. The first of them delivered once more does,
      unless the fact was applied before or both leave the same item pending. */
  lemma ThirdDeliveryHarms(applied: set<FactKey>, a: InputTaskEvent, b: InputTaskEvent)
    requires ApplyHint(a).PendingReconcile? && ApplyHint(b).PendingReconcile? && a != b
    ensures Harmless(applied, [a, b])
    ensures Harmless(applied, [a, b, a]) <==> a.event.key in applied || ApplyHint(a).anchor == ApplyHint(b).anchor
  {
    assert !Settling(a) && !Settling(b);
    OnceOfThree(a, b);
    RequestsOnly(applied, [a, b]);
    RequestsOnly(applied, [a, b, a]);
    LastRequest([a, b], b);
    LastRequest([a, b, a], a);
  }
}
