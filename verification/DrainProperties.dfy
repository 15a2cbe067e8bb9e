/** What draining the ingress queue promises, over every queue, log and store. */
module DrainProperties {
  import opened Options
  import opened StableSort
  import opened StateFacts
  import opened Ingress

  lemma BySeqTotal()
    ensures TotalPreorder(BySeq)
  {
  }

  predicate NoRepeats(log: seq<InputTaskEvent>) {
    forall i, j :: 0 <= i < j < |log| ==> log[i] != log[j]
  }

  // ----- The queue and the log stay sorted -----

  lemma PushKeepsOrder(queue: seq<InputTaskEvent>, input: InputTaskEvent)
    requires Sorted(queue, BySeq)
    ensures Sorted(Enqueued(queue, input), BySeq)
    ensures multiset(Enqueued(queue, input)) == multiset(queue) + multiset{input}
  {
    BySeqTotal();
    SortSorts(queue + [input], BySeq);
    SortPermutes(queue + [input], BySeq);
  }

  /** Where a stable sort puts a late arrival: behind everything with the same or a lower sequence. */
  function Place(queue: seq<InputTaskEvent>, input: InputTaskEvent): (k: nat)
    ensures k <= |queue|
  {
    if queue == [] || BySeq(queue[|queue| - 1], input) then |queue| else Place(queue[..|queue| - 1], input)
  }

  lemma Regroup(a: seq<InputTaskEvent>, x: InputTaskEvent, b: seq<InputTaskEvent>, last: InputTaskEvent)
    ensures a + [x] + b + [last] == a + [x] + (b + [last])
  {
  }

  lemma {:induction false} InsertAtPlace(queue: seq<InputTaskEvent>, input: InputTaskEvent)
    ensures var k := Place(queue, input);
            Insert(queue, input, BySeq) == queue[..k] + [input] + queue[k..]
  {
    var k := Place(queue, input);
    if queue == [] || BySeq(queue[|queue| - 1], input) {
      assert queue[..k] == queue && queue[k..] == [];
    } else {
      var n := |queue| - 1;
      InsertAtPlace(queue[..n], input);
      assert queue[..n][..k] == queue[..k];
      assert queue[k..] == queue[..n][k..] + [queue[n]];
      Regroup(queue[..k], input, queue[..n][k..], queue[n]);
    }
  }

  lemma {:induction false} PlaceSeparates(queue: seq<InputTaskEvent>, input: InputTaskEvent)
    requires Sorted(queue, BySeq)
    ensures forall i :: 0 <= i < Place(queue, input) ==> queue[i].journalSeq <= input.journalSeq
    ensures forall i :: Place(queue, input) <= i < |queue| ==> input.journalSeq < queue[i].journalSeq
  {
    if queue != [] {
      var n := |queue| - 1;
      if BySeq(queue[n], input) {
        assert forall i :: 0 <= i < n ==> BySeq(queue[i], queue[n]);
      } else {
        PlaceSeparates(queue[..n], input);
      }
    }
  }

  /** Arrivals with equal sequences keep their arrival order. */
  lemma PushIsStable(queue: seq<InputTaskEvent>, input: InputTaskEvent)
    requires Sorted(queue, BySeq)
    ensures var k := Place(queue, input);
            && Enqueued(queue, input) == queue[..k] + [input] + queue[k..]
            && (forall i :: 0 <= i < k ==> queue[i].journalSeq <= input.journalSeq)
            && (forall i :: k <= i < |queue| ==> input.journalSeq < queue[i].journalSeq)
  {
    PushThenSort(queue, input, BySeq);
    InsertAtPlace(queue, input);
    PlaceSeparates(queue, input);
  }

  lemma InsertionKeepsDistinct(log: seq<InputTaskEvent>, input: InputTaskEvent, k: nat)
    requires NoRepeats(log) && input !in log && k <= |log|
    ensures var r := log[..k] + [input] + log[k..];
            NoRepeats(r) && forall x :: x in r <==> x in log || x == input
  {
    var r := log[..k] + [input] + log[k..];
    forall i | 0 <= i < |r| ensures r[i] == if i < k then log[i] else if i == k then input else log[i - 1] {
    }
    forall x | x in log ensures x in r {
      var i :| 0 <= i < |log| && log[i] == x;
      assert r[if i < k then i else i + 1] == x;
    }
    assert r[k] == input;
  }

  lemma CommitKeepsOrder(log: seq<InputTaskEvent>, input: InputTaskEvent)
    requires Sorted(log, BySeq) && NoRepeats(log)
    ensures Sorted(Commit(log, input), BySeq) && NoRepeats(Commit(log, input))
    ensures forall x :: x in Commit(log, input) <==> x in log || x == input
  {
    if input !in log {
      PushKeepsOrder(log, input);
      PushThenSort(log, input, BySeq);
      InsertAtPlace(log, input);
      InsertionKeepsDistinct(log, input, Place(log, input));
    }
  }

  /** An input above the whole log is appended. */
  lemma CommitAppends(log: seq<InputTaskEvent>, input: InputTaskEvent)
    requires Sorted(log, BySeq) && input !in log
    requires forall x :: x in log ==> x.journalSeq <= input.journalSeq
    ensures Commit(log, input) == log + [input]
  {
    PushThenSort(log, input, BySeq);
    if log != [] {
      assert log[|log| - 1] in log;
    }
  }

  // ----- What one drain consumes -----

  /** The entries a drain with this anchor may touch, and those it must leave. */
  function Batch(queue: seq<InputTaskEvent>, anchor: Option<int>): seq<InputTaskEvent> {
    queue[FirstAfter(queue, anchor)..]
  }

  function Kept(queue: seq<InputTaskEvent>, anchor: Option<int>): seq<InputTaskEvent> {
    queue[..FirstAfter(queue, anchor)]
  }

  lemma BatchIsEverythingAfter(queue: seq<InputTaskEvent>, anchor: Option<int>)
    requires Sorted(queue, BySeq)
    ensures Kept(queue, anchor) + Batch(queue, anchor) == queue
    ensures Sorted(Batch(queue, anchor), BySeq)
    ensures forall x :: x in Batch(queue, anchor) ==> After(x, anchor)
    ensures forall x :: x in Kept(queue, anchor) ==> !After(x, anchor)
  {
    BatchIsSorted(queue, FirstAfter(queue, anchor));
    BatchIsAfter(queue, anchor);
  }

  lemma BatchIsAfter(queue: seq<InputTaskEvent>, anchor: Option<int>)
    requires Sorted(queue, BySeq)
    ensures forall x :: x in Batch(queue, anchor) ==> After(x, anchor)
  {
    var k := FirstAfter(queue, anchor);
    forall i | k <= i < |queue| ensures After(queue[i], anchor) {
      assert i == k || BySeq(queue[k], queue[i]);
    }
    forall x | x in queue[k..] ensures After(x, anchor) {
      var i :| 0 <= i < |queue[k..]| && queue[k..][i] == x;
      assert queue[k + i] == x;
    }
  }

  lemma BatchIsSorted(queue: seq<InputTaskEvent>, k: nat)
    requires Sorted(queue, BySeq) && k <= |queue|
    ensures Sorted(queue[k..], BySeq) && queue[..k] + queue[k..] == queue
  {
  }

  /** The first entry above the anchor is the one `remove` finds. */
  lemma {:induction false} RemoveFirstAfter(queue: seq<InputTaskEvent>, anchor: Option<int>)
    requires FirstAfter(queue, anchor) < |queue|
    ensures var k := FirstAfter(queue, anchor);
            && RemoveFirst(queue, queue[k]) == queue[..k] + queue[k + 1..]
            && Kept(queue, anchor) <= RemoveFirst(queue, queue[k])
  {
    var k := FirstAfter(queue, anchor);
    if k > 0 {
      RemoveFirstAfter(queue[1..], anchor);
      assert queue[0] != queue[k];
      assert queue[1..][k - 1] == queue[k];
      assert [queue[0]] + queue[1..][..k - 1] == queue[..k];
      assert queue[1..][k..] == queue[k + 1..];
    }
  }

  lemma {:induction false} FirstAfterIs(queue: seq<InputTaskEvent>, anchor: Option<int>, k: nat)
    requires k <= |queue|
    requires forall i :: 0 <= i < k ==> !After(queue[i], anchor)
    requires k < |queue| ==> After(queue[k], anchor)
    ensures FirstAfter(queue, anchor) == k
  {
  }

  lemma RemainderSplits(queue: seq<InputTaskEvent>, anchor: Option<int>)
    requires Sorted(queue, BySeq) && FirstAfter(queue, anchor) < |queue|
    ensures var k := FirstAfter(queue, anchor); var rest := RemoveFirst(queue, queue[k]);
            && Sorted(rest, BySeq)
            && Kept(rest, anchor) == Kept(queue, anchor)
            && Batch(rest, anchor) == Batch(queue, anchor)[1..]
  {
    RemoveFirstAfter(queue, anchor);
    var k := FirstAfter(queue, anchor);
    WithoutOne(queue, k);
    if k < |queue| - 1 {
      assert BySeq(queue[k], queue[k + 1]);
    }
    FirstAfterIs(queue[..k] + queue[k + 1..], anchor, k);
  }

  lemma WithoutOne(queue: seq<InputTaskEvent>, k: nat)
    requires Sorted(queue, BySeq) && k < |queue|
    ensures var rest := queue[..k] + queue[k + 1..];
            Sorted(rest, BySeq) && rest[..k] == queue[..k] && rest[k..] == queue[k..][1..]
  {
  }

  /** Applies a batch in order, stopping at the first refusal. */
  function Fold<S, E>(apply: Applier<S, E>, core: S, batch: seq<InputTaskEvent>): Result<S, E>
    decreases |batch|
  {
    if batch == [] then Ok(core)
    else
      var applied := apply(core, batch[0]);
      if applied.Err? then applied else Fold(apply, applied.value, batch[1..])
  }

  function CommitAll(log: seq<InputTaskEvent>, batch: seq<InputTaskEvent>): seq<InputTaskEvent>
    decreases |batch|
  {
    if batch == [] then log else CommitAll(Commit(log, batch[0]), batch[1..])
  }

  /** How many entries of a batch are accepted before the first refusal. */
  function Taken<S, E>(apply: Applier<S, E>, core: S, batch: seq<InputTaskEvent>): (k: nat)
    ensures k <= |batch|
    decreases |batch|
  {
    if batch == [] || apply(core, batch[0]).Err? then 0
    else 1 + Taken(apply, apply(core, batch[0]).value, batch[1..])
  }

  /** What is taken folds; what would be next is refused. */
  lemma {:induction false} TakenFolds<S, E>(apply: Applier<S, E>, core: S, batch: seq<InputTaskEvent>)
    ensures var k := Taken(apply, core, batch);
            && Fold(apply, core, batch[..k]).Ok?
            && (k == |batch| ==> batch[..k] == batch)
            && (k < |batch| ==>
                && apply(Fold(apply, core, batch[..k]).value, batch[k]).Err?
                && Fold(apply, core, batch) == Err(apply(Fold(apply, core, batch[..k]).value, batch[k]).error))
    decreases |batch|
  {
    var k := Taken(apply, core, batch);
    if k > 0 {
      TakenFolds(apply, apply(core, batch[0]).value, batch[1..]);
      assert batch[..k][1..] == batch[1..][..k - 1];
    }
  }

  /** Consumes a batch in order, the rest of the queue being in front of it. */
  function Consumed<S, E>(
      apply: Applier<S, E>, core: S, log: seq<InputTaskEvent>, kept: seq<InputTaskEvent>, batch: seq<InputTaskEvent>)
    : Drained<S, E>
    decreases |batch|
  {
    if batch == [] then Drained(Ok(0), core, log, kept)
    else
      var applied := apply(core, batch[0]);
      if applied.Err? then Drained(Err(applied.error), core, log, kept + batch)
      else Counted(1, Consumed(apply, applied.value, Commit(log, batch[0]), kept, batch[1..]))
  }

  lemma {:induction false} DrainIsConsumed<S, E>(
      apply: Applier<S, E>, core: S, log: seq<InputTaskEvent>, queue: seq<InputTaskEvent>, anchor: Option<int>)
    requires Sorted(queue, BySeq)
    ensures Drain(apply, core, log, queue, anchor)
         == Consumed(apply, core, log, Kept(queue, anchor), Batch(queue, anchor))
    decreases |queue|
  {
    var i := FirstAfter(queue, anchor);
    DrainTurn(apply, core, log, queue, anchor);
    assert Kept(queue, anchor) + Batch(queue, anchor) == queue;
    if i < |queue| {
      assert Batch(queue, anchor)[0] == queue[i];
      RemainderSplits(queue, anchor);
      var applied := apply(core, queue[i]);
      if applied.Ok? {
        DrainIsConsumed(apply, applied.value, Commit(log, queue[i]), RemoveFirst(queue, queue[i]), anchor);
      }
    }
  }

  lemma {:induction false} ConsumedUpToRefusal<S, E>(
      apply: Applier<S, E>, core: S, log: seq<InputTaskEvent>, kept: seq<InputTaskEvent>, batch: seq<InputTaskEvent>)
    ensures var d := Consumed(apply, core, log, kept, batch); var k := Taken(apply, core, batch);
            && Fold(apply, core, batch[..k]) == Ok(d.core)
            && d.log == CommitAll(log, batch[..k])
            && d.queue == kept + batch[k..]
            && (k == |batch| ==> d.result == Ok(k))
            && (k < |batch| ==> apply(d.core, batch[k]).Err? && d.result == Err(apply(d.core, batch[k]).error))
    decreases |batch|
  {
    if batch != [] {
      var applied := apply(core, batch[0]);
      if applied.Ok? {
        ConsumedUpToRefusal(apply, applied.value, Commit(log, batch[0]), kept, batch[1..]);
        var k := Taken(apply, applied.value, batch[1..]);
        assert batch[..k + 1][1..] == batch[1..][..k];
        assert batch[k + 1..] == batch[1..][k..];
      } else {
        assert batch[0..] == batch;
      }
    }
  }

  /** A drain consumes its batch, in queue order, up to the first refusal, and nothing else: the state
      is the fold of what it consumed, the log gained that, and the rest of the queue is untouched. */
  lemma DrainConsumesBatch<S, E>(
      apply: Applier<S, E>, core: S, log: seq<InputTaskEvent>, queue: seq<InputTaskEvent>, anchor: Option<int>)
    requires Sorted(queue, BySeq)
    ensures var d := Drain(apply, core, log, queue, anchor);
            var batch := Batch(queue, anchor); var k := Taken(apply, core, batch);
            && Fold(apply, core, batch[..k]) == Ok(d.core)
            && d.log == CommitAll(log, batch[..k])
            && d.queue == Kept(queue, anchor) + batch[k..]
            && (k == |batch| ==> d.result == Ok(k))
            && (k < |batch| ==> apply(d.core, batch[k]).Err? && d.result == Err(apply(d.core, batch[k]).error))
  {
    DrainIsConsumed(apply, core, log, queue, anchor);
    ConsumedUpToRefusal(apply, core, log, Kept(queue, anchor), Batch(queue, anchor));
  }

  /** A drain succeeds exactly when folding its batch does, and then has consumed all of it. */
  lemma DrainFolds<S, E>(
      apply: Applier<S, E>, core: S, log: seq<InputTaskEvent>, queue: seq<InputTaskEvent>, anchor: Option<int>)
    requires Sorted(queue, BySeq)
    ensures var d := Drain(apply, core, log, queue, anchor);
            var batch := Batch(queue, anchor); var folded := Fold(apply, core, batch);
            && (folded.Ok? ==> d == Drained(Ok(|batch|), folded.value, CommitAll(log, batch), Kept(queue, anchor)))
            && (folded.Err? ==> d.result == Err(folded.error))
  {
    var batch := Batch(queue, anchor);
    TakenFolds(apply, core, batch);
    DrainConsumesBatch(apply, core, log, queue, anchor);
    assert Kept(queue, anchor) + batch[|batch|..] == Kept(queue, anchor);
  }

  /** No input is lost or duplicated, however the drain ends: what was queued is either still queued
      or was consumed. */
  lemma DrainConservesInputs<S, E>(
      apply: Applier<S, E>, core: S, log: seq<InputTaskEvent>, queue: seq<InputTaskEvent>, anchor: Option<int>)
    requires Sorted(queue, BySeq)
    ensures var batch := Batch(queue, anchor);
            multiset(queue) == multiset(Drain(apply, core, log, queue, anchor).queue)
                             + multiset(batch[..Taken(apply, core, batch)])
  {
    DrainConsumesBatch(apply, core, log, queue, anchor);
    CutTwice(queue, FirstAfter(queue, anchor), Taken(apply, core, Batch(queue, anchor)));
  }

  lemma CutTwice<T>(s: seq<T>, i: nat, k: nat)
    requires i <= |s| && k <= |s[i..]|
    ensures multiset(s) == multiset(s[..i] + s[i..][k..]) + multiset(s[i..][..k])
  {
    assert s[i..] == s[i..][..k] + s[i..][k..];
    assert s == s[..i] + s[i..];
  }

  /** Whatever happens, a drain keeps the queue and the log sorted, and the log free of repeats. */
  lemma {:induction false} DrainKeepsOrder<S, E>(
      apply: Applier<S, E>, core: S, log: seq<InputTaskEvent>, queue: seq<InputTaskEvent>, anchor: Option<int>)
    requires Sorted(queue, BySeq) && Sorted(log, BySeq) && NoRepeats(log)
    ensures var d := Drain(apply, core, log, queue, anchor);
            Sorted(d.queue, BySeq) && Sorted(d.log, BySeq) && NoRepeats(d.log)
    decreases |queue|
  {
    var k := FirstAfter(queue, anchor);
    if k < |queue| {
      var input := queue[k];
      RemainderSplits(queue, anchor);
      RemoveFirstShortens(queue, input);
      CommitKeepsOrder(log, input);
      if apply(core, input).Ok? {
        DrainKeepsOrder(apply, apply(core, input).value, Commit(log, input), RemoveFirst(queue, input), anchor);
      }
    }
  }

}
