/** The applier of the state crate folded over inputs: when a fold succeeds, and which logs are a
    faithful record of the facts. */
module FactFolds {
  import opened Options
  import opened StableSort
  import opened StateFacts
  import opened StateStores
  import opened Ingress
  import opened DrainProperties

  function ApplyOnly(f: Facts, input: InputTaskEvent): Result<Facts, ApplyError> {
    var step := ApplyFacts(f, input);
    if step.result.Err? then Err(step.result.error) else Ok(step.facts)
  }

  function FactsApplier(): Applier<Facts, ApplyError> {
    (f: Facts, input: InputTaskEvent) => ApplyOnly(f, input)
  }

  // ----- Folds of longer batches -----

  lemma {:induction false} FoldConcat<S, E>(
      apply: Applier<S, E>, core: S, a: seq<InputTaskEvent>, b: seq<InputTaskEvent>)
    ensures var first := Fold(apply, core, a);
            Fold(apply, core, a + b) == if first.Err? then first else Fold(apply, first.value, b)
    decreases |a|
  {
    if a == [] {
      assert a + b == b;
    } else {
      assert (a + b)[1..] == a[1..] + b;
      if apply(core, a[0]).Ok? {
        FoldConcat(apply, apply(core, a[0]).value, a[1..], b);
      }
    }
  }

  lemma FoldAppend<S, E>(apply: Applier<S, E>, core: S, batch: seq<InputTaskEvent>, input: InputTaskEvent)
    ensures var first := Fold(apply, core, batch);
            Fold(apply, core, batch + [input]) == if first.Err? then first else apply(first.value, input)
  {
    FoldConcat(apply, core, batch, [input]);
    if Fold(apply, core, batch).Ok? {
      FoldOne(apply, Fold(apply, core, batch).value, input);
    }
  }

  lemma FoldOne<S, E>(apply: Applier<S, E>, core: S, input: InputTaskEvent)
    ensures Fold(apply, core, [input]) == apply(core, input)
  {
    var one := [input];
    assert one[1..] == [];
  }

  /** An applier that answers as `ApplyOnly` does, without saying how. */
  ghost predicate AppliesFacts(apply: Applier<Facts, ApplyError>) {
    forall f, input {:trigger ApplyOnly(f, input)} :: apply(f, input) == ApplyOnly(f, input)
  }

  lemma FactsApplierApplies()
    ensures AppliesFacts(FactsApplier())
  {
  }

  /** The last step of a fold. */
  lemma FoldLast<S, E>(apply: Applier<S, E>, core: S, batch: seq<InputTaskEvent>)
    requires batch != [] && Fold(apply, core, batch).Ok?
    ensures var n := |batch| - 1; var front := Fold(apply, core, batch[..n]);
            front.Ok? && apply(front.value, batch[n]) == Fold(apply, core, batch)
  {
    var n := |batch| - 1;
    assert batch == batch[..n] + [batch[n]];
    FoldAppend(apply, core, batch[..n], batch[n]);
  }

  // ----- When a fold succeeds -----

  /** Inputs that share a sequence carry the same fact. */
  ghost predicate OneFactPerSeq(batch: seq<InputTaskEvent>) {
    forall x, y :: x in batch && y in batch && x.journalSeq == y.journalSeq ==> x.event.key == y.event.key
  }

  /** The journal bookkeeping is all that can refuse an input. */
  function Binds(consumed: map<int, FactKey>, last: Option<int>, batch: seq<InputTaskEvent>): bool
    decreases |batch|
  {
    batch == []
    || (var n := batch[0].journalSeq;
        if n in consumed then consumed[n] == batch[0].event.key && Binds(consumed, last, batch[1..])
        else (last.None? || n > last.value) && Binds(consumed[n := batch[0].event.key], Some(n), batch[1..]))
  }

  lemma {:induction false} FoldSucceedsIffBinds(f: Facts, batch: seq<InputTaskEvent>)
    ensures Fold(FactsApplier(), f, batch).Ok? <==> Binds(f.consumed, f.lastConsumed, batch)
    decreases |batch|
  {
    if batch != [] {
      AcceptanceIff(f, batch[0]);
      var step := ApplyFacts(f, batch[0]);
      assert FactsApplier()(f, batch[0]) == ApplyOnly(f, batch[0]);
      if step.result.Ok? {
        FoldSucceedsIffBinds(step.facts, batch[1..]);
        assert batch[0].journalSeq in f.consumed ==> step.facts.consumed == f.consumed;
      }
    }
  }

  /** Nothing consumed lies above the last consumed sequence. */
  ghost predicate BoundedBy(consumed: map<int, FactKey>, last: Option<int>) {
    forall n :: n in consumed ==> last.Some? && n <= last.value
  }

  /** Inputs of the batch agree with a binding already made at its lowest possible sequence. */
  ghost predicate AgreesAtLast(consumed: map<int, FactKey>, last: Option<int>, batch: seq<InputTaskEvent>) {
    forall x :: x in batch && last == Some(x.journalSeq) ==>
      x.journalSeq in consumed && consumed[x.journalSeq] == x.event.key
  }

  lemma FirstOfBatch(batch: seq<InputTaskEvent>)
    requires batch != [] && Sorted(batch, BySeq)
    ensures Sorted(batch[1..], BySeq)
    ensures forall x :: x in batch <==> x == batch[0] || x in batch[1..]
    ensures forall x :: x in batch[1..] ==> batch[0].journalSeq <= x.journalSeq
  {
    var rest := batch[1..];
    assert batch == [batch[0]] + rest;
    forall x | x in rest ensures batch[0].journalSeq <= x.journalSeq {
      var i :| 0 <= i < |rest| && rest[i] == x;
      assert BySeq(batch[0], batch[i + 1]);
    }
  }

  lemma {:induction false} BindsIff(consumed: map<int, FactKey>, last: Option<int>, batch: seq<InputTaskEvent>)
    requires Sorted(batch, BySeq) && BoundedBy(consumed, last)
    requires forall x :: x in batch ==> last.None? || x.journalSeq >= last.value
    ensures Binds(consumed, last, batch) <==> OneFactPerSeq(batch) && AgreesAtLast(consumed, last, batch)
    decreases |batch|
  {
    if batch != [] {
      var first, rest := batch[0], batch[1..];
      var n := first.journalSeq;
      FirstOfBatch(batch);
      if n in consumed {
        BindsIff(consumed, last, rest);
      } else if last.None? || n > last.value {
        BindsIff(consumed[n := first.event.key], Some(n), rest);
      }
    }
  }

  /** A batch above everything consumed folds exactly when no two of its inputs bind one sequence
      to two facts. */
  lemma FoldAboveSucceedsIff(f: Facts, batch: seq<InputTaskEvent>)
    requires Sorted(batch, BySeq) && BoundedBy(f.consumed, f.lastConsumed)
    requires forall x :: x in batch ==> After(x, f.lastConsumed)
    ensures Fold(FactsApplier(), f, batch).Ok? <==> OneFactPerSeq(batch)
  {
    FoldSucceedsIffBinds(f, batch);
    BindsIff(f.consumed, f.lastConsumed, batch);
  }

  // ----- Logs -----

  /** The log is in order and without repeats, and folding it from a start that has consumed nothing
      gives the facts. */
  ghost predicate Logged(start: Facts, f: Facts, log: seq<InputTaskEvent>) {
    && start.consumed == map[]
    && Sorted(log, BySeq) && NoRepeats(log)
    && Fold(FactsApplier(), start, log) == Ok(f)
  }

  /** The anchor follows an accepted input that is not below it. */
  lemma AnchorStep(f: Facts, input: InputTaskEvent)
    requires ApplyOnly(f, input).Ok? && BoundedBy(f.consumed, f.lastConsumed)
    requires After(input, f.lastConsumed) || f.lastConsumed == Some(input.journalSeq)
    ensures var g := ApplyOnly(f, input).value;
            BoundedBy(g.consumed, g.lastConsumed) && g.lastConsumed == Some(input.journalSeq)
  {
    AcceptanceIff(f, input);
  }

  /** In journal order, entry by entry. */
  predicate InOrder(batch: seq<InputTaskEvent>) {
    var n := |batch| - 1;
    n <= 0 || (InOrder(batch[..n]) && batch[n - 1].journalSeq <= batch[n].journalSeq)
  }

  lemma {:induction false} SortedInOrder(batch: seq<InputTaskEvent>)
    requires Sorted(batch, BySeq)
    ensures InOrder(batch)
  {
    var n := |batch| - 1;
    if n > 0 {
      assert BySeq(batch[n - 1], batch[n]);
      SortedInOrder(batch[..n]);
    }
  }

  /** The anchor follows a batch that is in order and begins above it. */
  lemma {:induction false} AnyFoldMovesAnchor(apply: Applier<Facts, ApplyError>, f: Facts, batch: seq<InputTaskEvent>)
    requires AppliesFacts(apply) && Fold(apply, f, batch).Ok?
    requires InOrder(batch) && BoundedBy(f.consumed, f.lastConsumed)
    requires batch != [] ==> After(batch[0], f.lastConsumed)
    ensures var g := Fold(apply, f, batch).value;
            && BoundedBy(g.consumed, g.lastConsumed)
            && g.lastConsumed == if batch == [] then f.lastConsumed else Some(batch[|batch| - 1].journalSeq)
    decreases |batch|
  {
    if batch != [] {
      var n := |batch| - 1;
      FoldLast(apply, f, batch);
      AnyFoldMovesAnchor(apply, f, batch[..n]);
      AnchorStep(Fold(apply, f, batch[..n]).value, batch[n]);
    }
  }

  lemma FoldMovesAnchor(f: Facts, batch: seq<InputTaskEvent>)
    requires Fold(FactsApplier(), f, batch).Ok? && InOrder(batch) && BoundedBy(f.consumed, f.lastConsumed)
    requires batch != [] ==> After(batch[0], f.lastConsumed)
    ensures var g := Fold(FactsApplier(), f, batch).value;
            && BoundedBy(g.consumed, g.lastConsumed)
            && g.lastConsumed == if batch == [] then f.lastConsumed else Some(batch[|batch| - 1].journalSeq)
  {
    FactsApplierApplies();
    AnyFoldMovesAnchor(FactsApplier(), f, batch);
  }

  /** From a start that has consumed nothing, a first input at or below the anchor is refused. */
  lemma FirstIsAfter(start: Facts, log: seq<InputTaskEvent>)
    requires start.consumed == map[] && log != [] && Fold(FactsApplier(), start, log).Ok?
    ensures After(log[0], start.lastConsumed)
  {
    assert FactsApplier()(start, log[0]) == ApplyOnly(start, log[0]);
    AcceptanceIff(start, log[0]);
  }

  lemma LastIsHighest(log: seq<InputTaskEvent>, x: InputTaskEvent)
    requires Sorted(log, BySeq) && x in log
    ensures x.journalSeq <= log[|log| - 1].journalSeq
  {
    var i :| 0 <= i < |log| && log[i] == x;
    assert i == |log| - 1 || BySeq(log[i], log[|log| - 1]);
  }

  /** Nothing in a faithful log lies above the last consumed sequence, which is its last entry's,
      and that entry is bound there. */
  lemma LoggedShape(start: Facts, f: Facts, log: seq<InputTaskEvent>)
    requires Logged(start, f, log)
    ensures BoundedBy(f.consumed, f.lastConsumed)
    ensures log == [] ==> f == start
    ensures log != [] ==> f.lastConsumed == Some(log[|log| - 1].journalSeq)
    ensures forall x :: x in log ==> f.lastConsumed.Some? && x.journalSeq <= f.lastConsumed.value
    ensures start.lastConsumed.Some? ==> f.lastConsumed.Some? && start.lastConsumed.value <= f.lastConsumed.value
  {
    SortedInOrder(log);
    if log != [] {
      FirstIsAfter(start, log);
      LastIsHighest(log, log[0]);
    }
    FoldMovesAnchor(start, log);
    forall x | x in log ensures x.journalSeq <= log[|log| - 1].journalSeq {
      LastIsHighest(log, x);
    }
  }

  /** An input above everything consumed is above the whole log. */
  lemma FreshIsAppended(start: Facts, f: Facts, log: seq<InputTaskEvent>, input: InputTaskEvent)
    requires Logged(start, f, log) && After(input, f.lastConsumed)
    ensures Commit(log, input) == log + [input]
  {
    LoggedShape(start, f, log);
    CommitAppends(log, input);
  }

  /** A fresh input that is accepted extends the log. */
  lemma LoggedStep(start: Facts, f: Facts, log: seq<InputTaskEvent>, input: InputTaskEvent)
    requires Logged(start, f, log) && ApplyOnly(f, input).Ok? && After(input, f.lastConsumed)
    ensures Logged(start, ApplyOnly(f, input).value, Commit(log, input))
    ensures ApplyOnly(f, input).value.lastConsumed == Some(input.journalSeq)
  {
    FreshIsAppended(start, f, log, input);
    CommitKeepsOrder(log, input);
    FoldAppend(FactsApplier(), start, log, input);
    assert FactsApplier()(f, input) == ApplyOnly(f, input);
    LoggedShape(start, ApplyOnly(f, input).value, Commit(log, input));
  }

  /** A log that folds from a start that has consumed nothing folds from a new store. */
  lemma LogFoldsFromNew(start: Facts, f: Facts, log: seq<InputTaskEvent>)
    requires Logged(start, f, log)
    ensures Fold(FactsApplier(), NO_FACTS, log).Ok? && Logged(NO_FACTS, Fold(FactsApplier(), NO_FACTS, log).value, log)
  {
    FoldSucceedsIffBinds(start, log);
    FoldSucceedsIffBinds(NO_FACTS, log);
  }
}
