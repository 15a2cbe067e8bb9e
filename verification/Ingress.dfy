/** crates/app-live/src/queues.rs (`IngressQueue`) and the drain loop of
    crates/app-live/src/supervisor.rs: journal entries arrive in any order and are consumed
    in journal order into a committed log. */
module Ingress {
  import opened Options
  import opened StableSort
  import opened StateFacts

  predicate BySeq(a: InputTaskEvent, b: InputTaskEvent) {
    a.journalSeq <= b.journalSeq
  }

  function Enqueued(queue: seq<InputTaskEvent>, input: InputTaskEvent): seq<InputTaskEvent> {
    Sort(queue + [input], BySeq)
  }

  predicate After(input: InputTaskEvent, last: Option<int>) {
    last.None? || input.journalSeq > last.value
  }

  /** The index of the first entry above the anchor, or the length if there is none. */
  function FirstAfter(queue: seq<InputTaskEvent>, last: Option<int>): (k: nat)
    ensures k <= |queue|
    ensures forall i :: 0 <= i < k ==> !After(queue[i], last)
    ensures k < |queue| ==> After(queue[k], last)
  {
    if queue == [] || After(queue[0], last) then 0 else 1 + FirstAfter(queue[1..], last)
  }

  function RemoveFirst(queue: seq<InputTaskEvent>, input: InputTaskEvent): seq<InputTaskEvent> {
    if queue == [] then []
    else if queue[0] == input then queue[1..]
    else [queue[0]] + RemoveFirst(queue[1..], input)
  }

  lemma {:induction false} RemoveFirstShortens(queue: seq<InputTaskEvent>, input: InputTaskEvent)
    requires input in queue
    ensures |RemoveFirst(queue, input)| == |queue| - 1
  {
    if queue[0] != input {
      assert input in queue[1..];
      RemoveFirstShortens(queue[1..], input);
    }
  }

  /** `record_committed_input`: once each, kept in journal order. */
  function Commit(log: seq<InputTaskEvent>, input: InputTaskEvent): seq<InputTaskEvent> {
    if input in log then log else Sort(log + [input], BySeq)
  }

  /** How one input changes the state it is applied to, or why it is refused. */
  type Applier<!S, !E> = (S, InputTaskEvent) -> Result<S, E>

  datatype Drained<S, E> = Drained(
    result: Result<nat, E>, core: S, log: seq<InputTaskEvent>, queue: seq<InputTaskEvent>)

  /** A drain that had already consumed n inputs. */
  function Counted<S, E>(n: nat, d: Drained<S, E>): Drained<S, E> {
    d.(result := if d.result.Ok? then Ok(n + d.result.value) else d.result)
  }

  /** `drain_input_tasks` with the anchor it captured at its start, for any applier: a refusal
      ends it with the refused entry still queued and nothing applied for it. */
  function Drain<S, E>(
      apply: Applier<S, E>, core: S, log: seq<InputTaskEvent>, queue: seq<InputTaskEvent>, anchor: Option<int>)
    : Drained<S, E>
    decreases |queue|
  {
    var k := FirstAfter(queue, anchor);
    if k == |queue| then Drained(Ok(0), core, log, queue)
    else
      var applied := apply(core, queue[k]);
      if applied.Err? then Drained(Err(applied.error), core, log, queue)
      else
        RemoveFirstShortens(queue, queue[k]);
        var rest := Drain(apply, applied.value, Commit(log, queue[k]), RemoveFirst(queue, queue[k]), anchor);
        Counted(1, rest)
  }

  /** One turn of the drain loop. */
  lemma DrainTurn<S, E>(
      apply: Applier<S, E>, core: S, log: seq<InputTaskEvent>, queue: seq<InputTaskEvent>, anchor: Option<int>)
    ensures var k := FirstAfter(queue, anchor); var whole := Drain(apply, core, log, queue, anchor);
            && (k == |queue| ==> whole == Drained(Ok(0), core, log, queue))
            && (k < |queue| ==>
                && queue[k] in queue && |RemoveFirst(queue, queue[k])| < |queue|
                && var applied := apply(core, queue[k]);
                   if applied.Err? then whole == Drained(Err(applied.error), core, log, queue)
                   else
                     var rest := Drain(apply, applied.value, Commit(log, queue[k]), RemoveFirst(queue, queue[k]),
                                       anchor);
                     whole == Counted(1, rest))
  {
    if FirstAfter(queue, anchor) < |queue| {
      RemoveFirstShortens(queue, queue[FirstAfter(queue, anchor)]);
    }
  }

  class IngressQueue {
    var backlog: seq<InputTaskEvent>

    constructor ()
      ensures backlog == []
    {
      backlog := [];
    }

    method Push(input: InputTaskEvent)
      modifies this
      ensures backlog == Enqueued(old(backlog), input)
    {
      backlog := backlog + [input];
      backlog := Sort(backlog, BySeq);
    }

    method NextAfter(last: Option<int>) returns (next: Option<InputTaskEvent>)
      ensures var k := FirstAfter(backlog, last);
              next == if k < |backlog| then Some(backlog[k]) else None
    {
      var i := 0;
      while i < |backlog|
        invariant 0 <= i <= |backlog|
        invariant FirstAfter(backlog, last) == i + FirstAfter(backlog[i..], last)
      {
        if After(backlog[i], last) {
          return Some(backlog[i]);
        }
        assert backlog[i..][1..] == backlog[i + 1..];
        i := i + 1;
      }
      return None;
    }

    method Remove(input: InputTaskEvent) returns (removed: Option<InputTaskEvent>)
      modifies this
      ensures backlog == RemoveFirst(old(backlog), input)
      ensures removed == if input in old(backlog) then Some(input) else None
    {
      var i := 0;
      while i < |backlog|
        invariant 0 <= i <= |backlog| && backlog == old(backlog)
        invariant input !in backlog[..i]
        invariant RemoveFirst(backlog, input) == backlog[..i] + RemoveFirst(backlog[i..], input)
      {
        if backlog[i] == input {
          removed := Some(backlog[i]);
          assert RemoveFirst(backlog[i..], input) == backlog[i + 1..];
          backlog := backlog[..i] + backlog[i + 1..];
          return;
        }
        assert backlog[..i + 1] == backlog[..i] + [backlog[i]];
        assert backlog[i..][1..] == backlog[i + 1..];
        i := i + 1;
      }
      assert backlog[..i] == backlog;
      return None;
    }
  }
}
