/** crates/journal/src/writer.rs and replay.rs. An append takes a ticket and then, in a separate
    step, pushes its entry under the lock, so entries of concurrent appends may land in any order.
    A poisoned lock loses the entry but not the ticket. */
module Journal {
  import opened Options
  import opened StableSort
  import opened Text

  datatype SourceKind = WsMarket | WsUser | RestHeartbeat | Internal

  /** A journal event without its timestamp. */
  datatype JournalEvent = JournalEvent(
    stream: Bytes, sourceKind: SourceKind, sourceSessionId: Bytes, sourceEventId: Bytes,
    dedupeKey: Bytes, causalParentId: Option<int>, eventType: Bytes, payload: Bytes)

  datatype Entry = Entry(journalSeq: int, event: JournalEvent)

  datatype JournalError = Poisoned

  /** The writer, and the appends that hold a ticket: still running, or failed on the lock. */
  datatype State = State(
    nextSeq: int, entries: seq<Entry>, poisoned: bool, inFlight: map<int, Entry>, lost: seq<Entry>)

  /** What the threads can do next. */
  datatype Action =
    | Begin(event: JournalEvent)       // an append takes its ticket
    | Finish(ticket: int)   // an append that holds a ticket takes the lock
    | Poison                // a thread dies holding the lock

  function Initial(): State {
    State(1, [], false, map[], [])
  }

  function Step(s: State, a: Action): State {
    match a
    case Begin(event) =>
      s.(nextSeq := s.nextSeq + 1, inFlight := s.inFlight[s.nextSeq := Entry(s.nextSeq, event)])
    case Finish(t) =>
      if t !in s.inFlight then s
      else if s.poisoned then s.(inFlight := s.inFlight - {t}, lost := s.lost + [s.inFlight[t]])
      else s.(inFlight := s.inFlight - {t}, entries := s.entries + [s.inFlight[t]])
    case Poison => s.(poisoned := true)
  }

  /** The state after a trace of actions in some interleaving. */
  function Run(trace: seq<Action>): State {
    if trace == [] then Initial() else Step(Run(trace[..|trace| - 1]), trace[|trace| - 1])
  }

  /** The events appended so far, in the order their tickets were taken. */
  function Begun(trace: seq<Action>): seq<JournalEvent> {
    if trace == [] then []
    else
      var before, last := Begun(trace[..|trace| - 1]), trace[|trace| - 1];
      if last.Begin? then before + [last.event] else before
  }

  function SeqOf(e: Entry): int {
    e.journalSeq
  }

  predicate SeqLeq(a: Entry, b: Entry) {
    a.journalSeq <= b.journalSeq
  }

  /** `replay_entries`. */
  function Replay(entries: seq<Entry>): seq<Entry> {
    Sort(entries, SeqLeq)
  }

  // ----- Every interleaving -----

  /** The tickets 1, 2, .., n. */
  function Tickets(n: nat): seq<int> {
    seq(n, i => i + 1)
  }

  /** Stored, in-flight and lost tickets together, with multiplicity. */
  ghost function Held(s: State): multiset<int> {
    multiset(Map(SeqOf, s.entries)) + multiset(s.inFlight.Keys) + multiset(Map(SeqOf, s.lost))
  }

  /** e is the entry its ticket was taken for. */
  ghost predicate Genuine(e: Entry, begun: seq<JournalEvent>) {
    1 <= e.journalSeq <= |begun| && e.event == begun[e.journalSeq - 1]
  }

  ghost predicate AllGenuine(s: State, begun: seq<JournalEvent>) {
    && (forall i :: 0 <= i < |s.entries| ==> Genuine(s.entries[i], begun))
    && (forall t :: t in s.inFlight ==> s.inFlight[t].journalSeq == t && Genuine(s.inFlight[t], begun))
    && (forall i :: 0 <= i < |s.lost| ==> Genuine(s.lost[i], begun))
  }

  lemma MapPush(s: seq<Entry>, e: Entry)
    ensures multiset(Map(SeqOf, s + [e])) == multiset(Map(SeqOf, s)) + multiset{e.journalSeq}
  {
    assert Map(SeqOf, s + [e]) == Map(SeqOf, s) + [e.journalSeq];
  }

  lemma StepKeepsGenuine(s: State, a: Action, begun: seq<JournalEvent>)
    requires AllGenuine(s, begun) && s.nextSeq == |begun| + 1
    ensures AllGenuine(Step(s, a), if a.Begin? then begun + [a.event] else begun)
  {
  }

  lemma TakenOut(keys: set<int>, t: int)
    requires t in keys
    ensures multiset(keys) == multiset(keys - {t}) + multiset{t}
  {
  }

  lemma FinishHolds(s: State, t: int)
    requires t in s.inFlight && s.inFlight[t].journalSeq == t
    ensures Held(Step(s, Finish(t))) == Held(s)
  {
    MapPush(s.entries, s.inFlight[t]);
    MapPush(s.lost, s.inFlight[t]);
    TakenOut(s.inFlight.Keys, t);
    assert Step(s, Finish(t)).inFlight.Keys == s.inFlight.Keys - {t};
  }

  lemma BeginHolds(s: State, event: JournalEvent)
    requires s.nextSeq !in s.inFlight
    ensures Held(Step(s, Begin(event))) == Held(s) + multiset{s.nextSeq}
  {
    var after := Step(s, Begin(event)).inFlight.Keys;
    assert after == s.inFlight.Keys + {s.nextSeq};
    TakenOut(after, s.nextSeq);
    assert after - {s.nextSeq} == s.inFlight.Keys;
  }

  lemma StepHolds(s: State, a: Action)
    requires s.nextSeq !in s.inFlight
    requires forall t :: t in s.inFlight ==> s.inFlight[t].journalSeq == t
    ensures Held(Step(s, a)) == Held(s) + if a.Begin? then multiset{s.nextSeq} else multiset{}
  {
    match a
    case Begin(event) => BeginHolds(s, event);
    case Finish(t) =>
      if t in s.inFlight {
        FinishHolds(s, t);
      }
    case Poison =>
  }

  lemma {:induction false} EntriesAreGenuine(trace: seq<Action>)
    ensures Run(trace).nextSeq == |Begun(trace)| + 1 && AllGenuine(Run(trace), Begun(trace))
  {
    if trace != [] {
      EntriesAreGenuine(trace[..|trace| - 1]);
      StepKeepsGenuine(Run(trace[..|trace| - 1]), trace[|trace| - 1], Begun(trace[..|trace| - 1]));
    }
  }

  lemma NextIsFree(s: State, begun: seq<JournalEvent>)
    requires s.nextSeq == |begun| + 1 && AllGenuine(s, begun)
    ensures s.nextSeq !in s.inFlight && forall t :: t in s.inFlight ==> s.inFlight[t].journalSeq == t
  {
  }

  lemma NextTicket(n: nat)
    ensures multiset(Tickets(n + 1)) == multiset(Tickets(n)) + multiset{n + 1}
  {
    assert Tickets(n + 1) == Tickets(n) + [n + 1];
  }

  lemma HeldNext(s: State, a: Action, n: nat, begun: seq<JournalEvent>)
    requires |begun| == n && s.nextSeq == n + 1 && AllGenuine(s, begun) && Held(s) == multiset(Tickets(n))
    ensures Held(Step(s, a)) == multiset(Tickets(if a.Begin? then n + 1 else n))
  {
    NextIsFree(s, begun);
    StepHolds(s, a);
    NextTicket(n);
  }

  lemma {:induction false} TicketsAreHeld(trace: seq<Action>)
    ensures Held(Run(trace)) == multiset(Tickets(|Begun(trace)|))
  {
    if trace == [] {
      assert Tickets(0) == [];
    } else {
      var before := trace[..|trace| - 1];
      TicketsAreHeld(before);
      EntriesAreGenuine(before);
      HeldNext(Run(before), trace[|trace| - 1], |Begun(before)|, Begun(before));
    }
  }

  /** However the appends interleave, every ticket below the next is held exactly once, by a stored
      entry, a running append or a lost one, and each entry carries the event its ticket was taken for. */
  lemma TicketsArePartitioned(trace: seq<Action>)
    ensures Run(trace).nextSeq == |Begun(trace)| + 1
    ensures Held(Run(trace)) == multiset(Tickets(|Begun(trace)|))
    ensures AllGenuine(Run(trace), Begun(trace))
  {
    EntriesAreGenuine(trace);
    TicketsAreHeld(trace);
  }

  lemma {:induction false} CountAbove(n: nat, t: int)
    ensures multiset(Tickets(n))[t] == if 1 <= t <= n then 1 else 0
  {
    if n > 0 {
      CountAbove(n - 1, t);
      assert Tickets(n) == Tickets(n - 1) + [n];
    }
  }

  lemma StoredAreDistinct(trace: seq<Action>)
    ensures Distinct(Map(SeqOf, Run(trace).entries))
  {
    var s := Run(trace);
    TicketsArePartitioned(trace);
    forall t ensures multiset(Map(SeqOf, s.entries))[t] <= 1 {
      CountAbove(|Begun(trace)|, t);
      assert Held(s)[t] == multiset(Tickets(|Begun(trace)|))[t];
    }
    CountsBoundRepeats(Map(SeqOf, s.entries));
  }

  predicate IntLeq(a: int, b: int) {
    a <= b
  }

  lemma ReplayedSeqs(entries: seq<Entry>)
    ensures Map(SeqOf, Replay(entries)) == Sort(Map(SeqOf, entries), IntLeq)
  {
    SortCommutesWithMap(SeqOf, entries, SeqLeq, IntLeq);
  }

  /** Replay is strictly increasing and loses nothing, whatever order the entries were pushed in. */
  lemma ReplayRestoresOrder(trace: seq<Action>)
    ensures var r := Replay(Run(trace).entries);
            && multiset(r) == multiset(Run(trace).entries)
            && forall i, j :: 0 <= i < j < |r| ==> r[i].journalSeq < r[j].journalSeq
  {
    var entries := Run(trace).entries;
    var r := Replay(entries);
    SortPermutes(entries, SeqLeq);
    StoredAreDistinct(trace);
    ReplayedSeqs(entries);
    SortSorts(Map(SeqOf, entries), IntLeq);
    SortKeepsDistinct(Map(SeqOf, entries), IntLeq);
    forall i, j | 0 <= i < j < |r| ensures r[i].journalSeq < r[j].journalSeq {
      assert Map(SeqOf, r)[i] != Map(SeqOf, r)[j] && IntLeq(Map(SeqOf, r)[i], Map(SeqOf, r)[j]);
    }
  }

  lemma ReplayedTickets(entries: seq<Entry>, n: nat)
    requires multiset(Map(SeqOf, entries)) == multiset(Tickets(n))
    ensures Map(SeqOf, Replay(entries)) == Tickets(n)
  {
    var seqs := Map(SeqOf, entries);
    ReplayedSeqs(entries);
    SortSorts(seqs, IntLeq);
    SortPermutes(seqs, IntLeq);
    SortedUnique(Sort(seqs, IntLeq), Tickets(n), IntLeq);
  }

  function History(begun: seq<JournalEvent>): seq<Entry> {
    seq(|begun|, i requires 0 <= i < |begun| => Entry(i + 1, begun[i]))
  }

  lemma GenuineInOrder(r: seq<Entry>, begun: seq<JournalEvent>)
    requires Map(SeqOf, r) == Tickets(|begun|) && forall i :: 0 <= i < |r| ==> Genuine(r[i], begun)
    ensures r == History(begun)
  {
    assert |r| == |Map(SeqOf, r)| == |begun|;
    forall i | 0 <= i < |r| ensures r[i] == History(begun)[i] {
      assert Map(SeqOf, r)[i] == Tickets(|begun|)[i];
    }
  }

  /** Once nothing is in flight and nothing was lost, replay is every appended event in ticket order. */
  lemma QuietReplayIsHistory(trace: seq<Action>)
    requires Run(trace).inFlight == map[] && Run(trace).lost == []
    ensures Replay(Run(trace).entries) == History(Begun(trace))
  {
    var entries := Run(trace).entries;
    TicketsArePartitioned(trace);
    assert Held(Run(trace)) == multiset(Map(SeqOf, entries));
    ReplayedTickets(entries, |Begun(trace)|);
    ReplayIsGenuine(entries, Begun(trace));
    GenuineInOrder(Replay(entries), Begun(trace));
  }

  lemma ReplayIsGenuine(entries: seq<Entry>, begun: seq<JournalEvent>)
    requires forall i :: 0 <= i < |entries| ==> Genuine(entries[i], begun)
    ensures forall i :: 0 <= i < |Replay(entries)| ==> Genuine(Replay(entries)[i], begun)
  {
    SortMembers(entries, SeqLeq);
    forall i | 0 <= i < |Replay(entries)| ensures Genuine(Replay(entries)[i], begun) {
      assert Replay(entries)[i] in entries;
    }
  }

  // ----- The writer -----

  class JournalWriter {
    var nextSeq: int
    var entries: seq<Entry>
    var poisoned: bool
    ghost var inFlight: map<int, Entry>
    ghost var lost: seq<Entry>

    ghost function Contents(): State
      reads this
    {
      State(nextSeq, entries, poisoned, inFlight, lost)
    }

    /** `in_memory`. */
    constructor ()
      ensures Contents() == Initial()
    {
      nextSeq, entries, poisoned, inFlight, lost := 1, [], false, map[], [];
    }

    /** The first half of `append`: `fetch_add`, then the entry is built. */
    method TakeTicket(event: JournalEvent) returns (entry: Entry)
      modifies this
      ensures Contents() == Step(old(Contents()), Begin(event))
      ensures entry.journalSeq in inFlight && inFlight[entry.journalSeq] == entry
      ensures entry == Entry(old(nextSeq), event)
    {
      var journalSeq := nextSeq;
      nextSeq := nextSeq + 1;
      entry := Entry(journalSeq, event);
      inFlight := inFlight[journalSeq := entry];
    }

    /** The second half of `append`: lock and push. */
    method Push(entry: Entry) returns (r: Result<Entry, JournalError>)
      requires entry.journalSeq in inFlight && inFlight[entry.journalSeq] == entry
      modifies this
      ensures Contents() == Step(old(Contents()), Finish(entry.journalSeq))
      ensures r == if old(poisoned) then Err(JournalError.Poisoned) else Ok(entry)
    {
      inFlight := inFlight - {entry.journalSeq};
      if poisoned {
        lost := lost + [entry];
        return Err(JournalError.Poisoned);
      }
      entries := entries + [entry];
      r := Ok(entry);
    }
  }
}
