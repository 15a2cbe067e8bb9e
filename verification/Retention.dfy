/** What retaining the records of the current snapshot keeps:
    crates/app-live/src/supervisor.rs:1036-1072. */
module Retention {
  import opened Text
  import opened ExecutionRows
  import opened SupervisorModel

  // ----- Keeping some elements of a vector -----

  /** a can be had from b by leaving elements out. */
  predicate Subsequence<T(==)>(a: seq<T>, b: seq<T>) {
    || a == []
    || (b != [] && if a[0] == b[0] then Subsequence(a[1..], b[1..]) else Subsequence(a, b[1..]))
  }

  /** a holds, in b's order, every element of b that passes, as often as b does, and nothing else. */
  ghost predicate Retains<T(!new)>(a: seq<T>, b: seq<T>, passes: T -> bool) {
    && Subsequence(a, b)
    && forall x :: multiset(a)[x] == if passes(x) then multiset(b)[x] else 0
  }

  lemma {:induction false} SubsequenceIsContained<T>(a: seq<T>, b: seq<T>)
    requires Subsequence(a, b)
    ensures multiset(a) <= multiset(b)
    decreases |b|
  {
    if a != [] {
      assert b == [b[0]] + b[1..];
      if a[0] == b[0] {
        SubsequenceIsContained(a[1..], b[1..]);
        assert a == [a[0]] + a[1..];
      } else {
        SubsequenceIsContained(a, b[1..]);
      }
    }
  }

  lemma {:induction false} TailIsSubsequence<T>(a: seq<T>, b: seq<T>)
    requires a != [] && Subsequence(a, b)
    ensures Subsequence(a[1..], b)
    decreases |b|, 0
  {
    if a[0] == b[0] {
      SubsequenceSkips(a[1..], b);
    } else {
      TailIsSubsequence(a, b[1..]);
      SubsequenceSkips(a[1..], b);
    }
  }

  lemma SubsequenceSkips<T>(a: seq<T>, b: seq<T>)
    requires b != [] && Subsequence(a, b[1..])
    ensures Subsequence(a, b)
    decreases |b| - 1, 1
  {
    if a != [] && a[0] == b[0] {
      TailIsSubsequence(a, b[1..]);
    }
  }

  /** Only one vector retains what passes. */
  lemma {:induction false} RetainedIsUnique<T(!new)>(a: seq<T>, c: seq<T>, b: seq<T>, passes: T -> bool)
    requires Retains(a, b, passes) && Retains(c, b, passes)
    ensures a == c
    decreases |b|
  {
    if b == [] {
      assert a == [] && c == [];
    } else {
      RetainedStep(a, b, passes);
      RetainedStep(c, b, passes);
      if passes(b[0]) {
        RetainedIsUnique(a[1..], c[1..], b[1..], passes);
        assert a == [a[0]] + a[1..] && c == [c[0]] + c[1..];
      } else {
        RetainedIsUnique(a, c, b[1..], passes);
      }
    }
  }

  /** The first element is retained exactly when it passes. */
  lemma RetainedStep<T(!new)>(a: seq<T>, b: seq<T>, passes: T -> bool)
    requires b != [] && Retains(a, b, passes)
    ensures passes(b[0]) ==> a != [] && a[0] == b[0] && Retains(a[1..], b[1..], passes)
    ensures !passes(b[0]) ==> Retains(a, b[1..], passes)
  {
    assert b == [b[0]] + b[1..];
    if passes(b[0]) {
      assert multiset(a)[b[0]] == multiset(b)[b[0]] >= 1;
      if a[0] != b[0] {
        SubsequenceIsContained(a, b[1..]);
        assert false;
      }
      assert a == [a[0]] + a[1..];
    } else {
      assert multiset(a)[b[0]] == 0;
      assert a != [] ==> a[0] in multiset(a);
    }
  }

  lemma RetainsFirst<T(!new)>(a: seq<T>, b: seq<T>, passes: T -> bool)
    requires b != [] && Retains(a, b[1..], passes)
    ensures Retains(if passes(b[0]) then [b[0]] + a else a, b, passes)
  {
    assert b == [b[0]] + b[1..];
    if passes(b[0]) {
      assert ([b[0]] + a)[1..] == a;
    } else {
      SubsequenceSkips(a, b);
    }
  }

  lemma RetainsNothing<T(!new)>(passes: T -> bool)
    ensures Retains([], [], passes)
  {
  }

  // ----- The three vectors -----

  function OfSnapshot(id: Bytes): LiveRecord -> bool {
    (r: LiveRecord) => r.snapshotId == id
  }

  function AttemptOfSnapshot(id: Bytes): ExecutionAttemptRow -> bool {
    (a: ExecutionAttemptRow) => a.snapshotId == id
  }

  function OfAttempts(ids: set<Bytes>): ShadowArtifactRow -> bool {
    (a: ShadowArtifactRow) => a.attemptId in ids
  }

  lemma {:induction false} KeepLiveRetains(records: seq<LiveRecord>, id: Bytes)
    ensures Retains(KeepLive(records, id), records, OfSnapshot(id))
  {
    if records == [] {
      RetainsNothing(OfSnapshot(id));
    } else {
      KeepLiveRetains(records[1..], id);
      RetainsFirst(KeepLive(records[1..], id), records, OfSnapshot(id));
    }
  }

  lemma {:induction false} KeepAttemptsRetains(attempts: seq<ExecutionAttemptRow>, id: Bytes)
    ensures Retains(KeepAttempts(attempts, id), attempts, AttemptOfSnapshot(id))
  {
    if attempts == [] {
      RetainsNothing(AttemptOfSnapshot(id));
    } else {
      KeepAttemptsRetains(attempts[1..], id);
      RetainsFirst(KeepAttempts(attempts[1..], id), attempts, AttemptOfSnapshot(id));
    }
  }

  lemma {:induction false} KeepArtifactsRetains(artifacts: seq<ShadowArtifactRow>, ids: set<Bytes>)
    ensures Retains(KeepArtifacts(artifacts, ids), artifacts, OfAttempts(ids))
  {
    if artifacts == [] {
      RetainsNothing(OfAttempts(ids));
    } else {
      KeepArtifactsRetains(artifacts[1..], ids);
      RetainsFirst(KeepArtifacts(artifacts[1..], ids), artifacts, OfAttempts(ids));
    }
  }

  /** Whatever passes once passes again. */
  lemma RetainedAgain<T(!new)>(a: seq<T>, b: seq<T>, passes: T -> bool)
    requires Retains(a, b, passes)
    ensures Retains(a, a, passes)
  {
    IsItsSubsequence(a);
    forall x ensures multiset(a)[x] == if passes(x) then multiset(a)[x] else 0 {
      assert multiset(a)[x] == if passes(x) then multiset(b)[x] else 0;
    }
  }

  lemma {:induction false} IsItsSubsequence<T>(a: seq<T>)
    ensures Subsequence(a, a)
  {
    if a != [] {
      IsItsSubsequence(a[1..]);
    }
  }

  // ----- What a caller gets -----

  /** The records retained under the published snapshot, while the evidence does not speak of another
      one, are those of the snapshot, all of them, as often and in the order they were there; otherwise
      none. Nothing else changes, and retaining again changes nothing at all. */
  lemma LiveRecordsRetained(s: Core, kept: seq<LiveRecord>)
    ensures RetainLive(s) == s.(liveRecords := kept) <==>
              if s.published.Some? && (s.evidence.Some? ==> s.evidence.value.snapshotId == s.published.value.snapshotId)
              then Retains(kept, s.liveRecords, OfSnapshot(s.published.value.snapshotId))
              else kept == []
    ensures RetainLive(RetainLive(s)) == RetainLive(s)
  {
    if s.published.Some? {
      var id := s.published.value.snapshotId;
      var once := KeepLive(s.liveRecords, id);
      KeepLiveRetains(s.liveRecords, id);
      if Retains(kept, s.liveRecords, OfSnapshot(id)) {
        RetainedIsUnique(kept, once, s.liveRecords, OfSnapshot(id));
      }
      KeepLiveRetains(once, id);
      RetainedAgain(once, s.liveRecords, OfSnapshot(id));
      RetainedIsUnique(once, KeepLive(once, id), once, OfSnapshot(id));
    }
  }

  function IdsOf(attempts: seq<ExecutionAttemptRow>): set<Bytes> {
    set a | a in attempts :: a.attemptId
  }

  /** The attempts retained are those of the published snapshot, and the artifacts exactly those of a
      retained attempt, all as often and in the order they were there; without a snapshot, none. Nothing
      else changes, and retaining again changes nothing at all. */
  lemma ShadowRecordsRetained(s: Core, attempts: seq<ExecutionAttemptRow>, artifacts: seq<ShadowArtifactRow>)
    ensures RetainShadow(s) == s.(shadowAttempts := attempts, shadowArtifacts := artifacts) <==>
              if s.published.Some?
              then Retains(attempts, s.shadowAttempts, AttemptOfSnapshot(s.published.value.snapshotId))
                   && Retains(artifacts, s.shadowArtifacts, OfAttempts(IdsOf(attempts)))
              else attempts == [] && artifacts == []
    ensures RetainShadow(RetainShadow(s)) == RetainShadow(s)
  {
    if s.published.Some? {
      var id := s.published.value.snapshotId;
      var once := KeepAttempts(s.shadowAttempts, id);
      var ids := IdsOf(once);
      var theirs := KeepArtifacts(s.shadowArtifacts, ids);
      KeepAttemptsRetains(s.shadowAttempts, id);
      KeepArtifactsRetains(s.shadowArtifacts, ids);
      assert RetainShadow(s) == s.(shadowAttempts := once, shadowArtifacts := theirs);
      if Retains(attempts, s.shadowAttempts, AttemptOfSnapshot(id)) {
        RetainedIsUnique(attempts, once, s.shadowAttempts, AttemptOfSnapshot(id));
        if Retains(artifacts, s.shadowArtifacts, OfAttempts(IdsOf(attempts))) {
          RetainedIsUnique(artifacts, theirs, s.shadowArtifacts, OfAttempts(ids));
        }
      }
      AttemptsTwice(s.shadowAttempts, id);
      ArtifactsTwice(s.shadowArtifacts, ids);
    }
  }

  lemma AttemptsTwice(attempts: seq<ExecutionAttemptRow>, id: Bytes)
    ensures var once := KeepAttempts(attempts, id); KeepAttempts(once, id) == once
  {
    var once := KeepAttempts(attempts, id);
    KeepAttemptsRetains(attempts, id);
    KeepAttemptsRetains(once, id);
    RetainedAgain(once, attempts, AttemptOfSnapshot(id));
    RetainedIsUnique(once, KeepAttempts(once, id), once, AttemptOfSnapshot(id));
  }

  lemma ArtifactsTwice(artifacts: seq<ShadowArtifactRow>, ids: set<Bytes>)
    ensures var once := KeepArtifacts(artifacts, ids); KeepArtifacts(once, ids) == once
  {
    var once := KeepArtifacts(artifacts, ids);
    KeepArtifactsRetains(artifacts, ids);
    KeepArtifactsRetains(once, ids);
    RetainedAgain(once, artifacts, OfAttempts(ids));
    RetainedIsUnique(once, KeepArtifacts(once, ids), once, OfAttempts(ids));
  }
}
