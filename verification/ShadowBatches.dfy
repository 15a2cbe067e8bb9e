/** Durable shadow batches: the write path of crates/persistence/src/repos.rs, the duplicate check
    in front of it and the restore check behind it in crates/app-live/src/runtime.rs. */
module ShadowBatches {
  import opened Options
  import opened Text
  import opened ExecutionRows
  import opened StableSort

  /** The attempts table by primary key, and the artifacts table by ascending artifact_id. */
  datatype Tables = Tables(attempts: map<Bytes, ExecutionAttemptRow>, artifacts: seq<ShadowArtifactRow>)

  datatype StoreError =
    | DuplicateExecutionAttempt(attemptId: Bytes)
    | ArtifactPayloadConflict(attemptId: Bytes, stream: Bytes)
    | ShadowArtifactRequiresShadowAttempt(attemptId: Bytes)
    | BatchReentry(key: Bytes)
    | DuplicateRows

  /** `shadow_attempt_rows_are_equivalent`: everything but the run session. */
  predicate Equivalent(existing: ExecutionAttemptRow, desired: ExecutionAttemptRow) {
    existing.(runSessionId := None) == desired.(runSessionId := None)
  }

  function InsertAttempt(t: Tables, row: ExecutionAttemptRow): Result<Tables, StoreError> {
    if row.attemptId !in t.attempts then Ok(t.(attempts := t.attempts[row.attemptId := row]))
    else if Equivalent(t.attempts[row.attemptId], row) then Ok(t)
    else Err(DuplicateExecutionAttempt(row.attemptId))
  }

  /** The payload of the oldest artifact under an attempt and stream. */
  function PayloadAt(artifacts: seq<ShadowArtifactRow>, attemptId: Bytes, stream: Bytes): Option<Bytes> {
    if artifacts == [] then None
    else if artifacts[0].attemptId == attemptId && artifacts[0].stream == stream then Some(artifacts[0].payload)
    else PayloadAt(artifacts[1..], attemptId, stream)
  }

  function InsertArtifact(t: Tables, row: ShadowArtifactRow): Result<Tables, StoreError> {
    var existing := PayloadAt(t.artifacts, row.attemptId, row.stream);
    if existing.Some? then
      if existing.value == row.payload then Ok(t) else Err(ArtifactPayloadConflict(row.attemptId, row.stream))
    else if row.attemptId in t.attempts && t.attempts[row.attemptId].executionMode == Shadow
    then Ok(t.(artifacts := t.artifacts + [row]))
    else Err(ShadowArtifactRequiresShadowAttempt(row.attemptId))
  }

  function InsertAttempts(t: Tables, rows: seq<ExecutionAttemptRow>): Result<Tables, StoreError> {
    if rows == [] then Ok(t)
    else
      var before := InsertAttempts(t, rows[..|rows| - 1]);
      if before.Err? then before else InsertAttempt(before.value, rows[|rows| - 1])
  }

  function InsertArtifacts(t: Tables, rows: seq<ShadowArtifactRow>): Result<Tables, StoreError> {
    if rows == [] then Ok(t)
    else
      var before := InsertArtifacts(t, rows[..|rows| - 1]);
      if before.Err? then before else InsertArtifact(before.value, rows[|rows| - 1])
  }

  /** A transaction: the new tables, or an error and no change. */
  function Batch(t: Tables, attempts: seq<ExecutionAttemptRow>, artifacts: seq<ShadowArtifactRow>)
    : Result<Tables, StoreError>
  {
    var t1 := InsertAttempts(t, attempts);
    if t1.Err? then t1 else InsertArtifacts(t1.value, artifacts)
  }

  function WithSession(row: ExecutionAttemptRow, session: Option<Bytes>): ExecutionAttemptRow {
    if session.Some? then row.(runSessionId := session) else row
  }

  function AllWithSession(rows: seq<ExecutionAttemptRow>, session: Option<Bytes>): (r: seq<ExecutionAttemptRow>)
    ensures |r| == |rows|
  {
    seq(|rows|, i requires 0 <= i < |rows| => WithSession(rows[i], session))
  }

  /** `persist_shadow_execution_records_with_run_session_id`. */
  ghost function Persist(t: Tables, attempts: seq<ExecutionAttemptRow>, artifacts: seq<ShadowArtifactRow>,
                         session: Option<Bytes>): Result<Tables, StoreError> {
    if !Distinct(AttemptIds(attempts)) then Err(DuplicateRows)
    else Batch(t, AllWithSession(attempts, session), artifacts)
  }

  function AttemptIds(rows: seq<ExecutionAttemptRow>): seq<Bytes> {
    seq(|rows|, i requires 0 <= i < |rows| => rows[i].attemptId)
  }

  // ----- What the tables guarantee -----

  /** Keys are the rows' ids, and the trigger on artifacts holds: each belongs to a shadow attempt. */
  ghost predicate Consistent(t: Tables) {
    && (forall id :: id in t.attempts ==> t.attempts[id].attemptId == id)
    && (forall i :: 0 <= i < |t.artifacts| ==>
          t.artifacts[i].attemptId in t.attempts && t.attempts[t.artifacts[i].attemptId].executionMode == Shadow)
  }

  ghost predicate HasArtifact(artifacts: seq<ShadowArtifactRow>, id: Bytes) {
    exists i :: 0 <= i < |artifacts| && artifacts[i].attemptId == id
  }

  /** Every shadow attempt has an artifact. */
  ghost predicate Restorable(t: Tables) {
    forall id :: id in t.attempts && t.attempts[id].executionMode == Shadow ==> HasArtifact(t.artifacts, id)
  }

  /** Rows are only ever added. */
  ghost predicate Extends(t: Tables, u: Tables) {
    && (forall id :: id in t.attempts ==> id in u.attempts && u.attempts[id] == t.attempts[id])
    && t.artifacts <= u.artifacts
  }

  // ----- Attempts -----

  /** The row was there, or an equivalent one. */
  ghost predicate Stored(t: Tables, row: ExecutionAttemptRow) {
    row.attemptId in t.attempts && Equivalent(t.attempts[row.attemptId], row)
  }

  lemma {:induction false} InsertAttemptsStores(t: Tables, rows: seq<ExecutionAttemptRow>)
    requires InsertAttempts(t, rows).Ok?
    ensures var u := InsertAttempts(t, rows).value;
            && u.artifacts == t.artifacts
            && (forall id :: id in t.attempts ==> id in u.attempts && u.attempts[id] == t.attempts[id])
            && (forall i :: 0 <= i < |rows| ==> Stored(u, rows[i]))
            && (forall id :: id in u.attempts ==>
                  || id in t.attempts
                  || exists i :: 0 <= i < |rows| && u.attempts[id] == rows[i] && id == rows[i].attemptId)
  {
    if rows != [] {
      var n := |rows| - 1;
      InsertAttemptsStores(t, rows[..n]);
      var u, v := InsertAttempts(t, rows[..n]).value, InsertAttempts(t, rows).value;
      forall i | 0 <= i < |rows| ensures Stored(v, rows[i]) {
        assert i < n ==> Stored(u, rows[..n][i]);
      }
    }
  }

  /** Inserting rows that are already stored, in any spelling of their sessions, changes nothing. */
  lemma {:induction false} StoredAttemptsChangeNothing(t: Tables, rows: seq<ExecutionAttemptRow>)
    requires forall i :: 0 <= i < |rows| ==> Stored(t, rows[i])
    ensures InsertAttempts(t, rows) == Ok(t)
  {
    if rows != [] {
      StoredAttemptsChangeNothing(t, rows[..|rows| - 1]);
      assert Stored(t, rows[|rows| - 1]);
    }
  }

  // ----- Artifacts -----

  lemma {:induction false} PayloadOfPrefix(a: seq<ShadowArtifactRow>, b: seq<ShadowArtifactRow>, id: Bytes,
                                           stream: Bytes)
    ensures PayloadAt(a + b, id, stream) == PayloadAt(a, id, stream).Or(PayloadAt(b, id, stream))
  {
    if a == [] {
      assert a + b == b;
    } else {
      PayloadOfPrefix(a[1..], b, id, stream);
      assert (a + b)[1..] == a[1..] + b;
    }
  }

  lemma {:induction false} PayloadMeansArtifact(a: seq<ShadowArtifactRow>, id: Bytes, stream: Bytes)
    ensures PayloadAt(a, id, stream).Some? ==> HasArtifact(a, id)
  {
    if a != [] {
      PayloadMeansArtifact(a[1..], id, stream);
      if HasArtifact(a[1..], id) {
        var i :| 0 <= i < |a| - 1 && a[1..][i].attemptId == id;
        assert a[i + 1].attemptId == id;
      }
    }
  }

  ghost predicate Filed(t: Tables, row: ShadowArtifactRow) {
    PayloadAt(t.artifacts, row.attemptId, row.stream) == Some(row.payload)
  }

  lemma InsertArtifactFiles(t: Tables, row: ShadowArtifactRow)
    requires InsertArtifact(t, row).Ok?
    ensures var u := InsertArtifact(t, row).value;
            u.attempts == t.attempts && t.artifacts <= u.artifacts && Filed(u, row)
    ensures forall other: ShadowArtifactRow :: Filed(t, other) ==> Filed(InsertArtifact(t, row).value, other)
  {
    PayloadOfPrefix(t.artifacts, [row], row.attemptId, row.stream);
    forall other: ShadowArtifactRow | Filed(t, other) ensures Filed(InsertArtifact(t, row).value, other) {
      PayloadOfPrefix(t.artifacts, [row], other.attemptId, other.stream);
    }
  }

  lemma {:induction false} InsertArtifactsFiles(t: Tables, rows: seq<ShadowArtifactRow>)
    requires InsertArtifacts(t, rows).Ok?
    ensures var u := InsertArtifacts(t, rows).value;
            && u.attempts == t.attempts && t.artifacts <= u.artifacts
            && (forall i :: 0 <= i < |rows| ==> Filed(u, rows[i]))
  {
    if rows != [] {
      var n := |rows| - 1;
      InsertArtifactsFiles(t, rows[..n]);
      InsertArtifactFiles(InsertArtifacts(t, rows[..n]).value, rows[n]);
      forall i | 0 <= i < n ensures Filed(InsertArtifacts(t, rows[..n]).value, rows[i]) {
        assert rows[..n][i] == rows[i];
      }
    }
  }

  lemma {:induction false} FiledArtifactsChangeNothing(t: Tables, rows: seq<ShadowArtifactRow>)
    requires forall i :: 0 <= i < |rows| ==> Filed(t, rows[i])
    ensures InsertArtifacts(t, rows) == Ok(t)
  {
    if rows != [] {
      FiledArtifactsChangeNothing(t, rows[..|rows| - 1]);
      assert Filed(t, rows[|rows| - 1]);
    }
  }

  // ----- Batches -----

  /** A successful batch only adds rows, and afterwards every row of it is there. */
  lemma BatchEstablishes(t: Tables, attempts: seq<ExecutionAttemptRow>, artifacts: seq<ShadowArtifactRow>)
    requires Batch(t, attempts, artifacts).Ok?
    ensures var u := Batch(t, attempts, artifacts).value;
            && Extends(t, u)
            && (forall i :: 0 <= i < |attempts| ==> Stored(u, attempts[i]))
            && (forall i :: 0 <= i < |artifacts| ==> Filed(u, artifacts[i]))
  {
    var t1 := InsertAttempts(t, attempts).value;
    InsertAttemptsStores(t, attempts);
    InsertArtifactsFiles(t1, artifacts);
    forall i | 0 <= i < |attempts| ensures Stored(Batch(t, attempts, artifacts).value, attempts[i]) {
      assert Stored(t1, attempts[i]);
    }
  }

  /** Writing a committed batch again succeeds and changes no row, even when every attempt now
      carries another run session. */
  lemma RerunChangesNothing(t: Tables, attempts: seq<ExecutionAttemptRow>, artifacts: seq<ShadowArtifactRow>,
                            again: seq<ExecutionAttemptRow>)
    requires Batch(t, attempts, artifacts).Ok?
    requires |again| == |attempts| && forall i :: 0 <= i < |attempts| ==> Equivalent(attempts[i], again[i])
    ensures Batch(Batch(t, attempts, artifacts).value, again, artifacts) == Batch(t, attempts, artifacts)
  {
    var u := Batch(t, attempts, artifacts).value;
    BatchEstablishes(t, attempts, artifacts);
    forall i | 0 <= i < |again| ensures Stored(u, again[i]) {
      assert Stored(u, attempts[i]) && Equivalent(attempts[i], again[i]);
    }
    StoredAttemptsChangeNothing(u, again);
    FiledArtifactsChangeNothing(u, artifacts);
  }

  /** What is filed stays filed. */
  lemma FiledStays(t: Tables, rows: seq<ShadowArtifactRow>, row: ShadowArtifactRow)
    requires Filed(t, row) && InsertArtifacts(t, rows).Ok?
    ensures Filed(InsertArtifacts(t, rows).value, row)
  {
    InsertArtifactsFiles(t, rows);
    var before, after := t.artifacts, InsertArtifacts(t, rows).value.artifacts;
    assert after == before + after[|before|..];
    PayloadOfPrefix(before, after[|before|..], row.attemptId, row.stream);
  }

  /** Writing a committed batch again with the same attempts, and artifacts under the same keys, is accepted
      exactly when no payload differs, and then changes no row. */
  lemma RerunAcceptedIff(t: Tables, attempts: seq<ExecutionAttemptRow>, artifacts: seq<ShadowArtifactRow>,
                         again: seq<ExecutionAttemptRow>, others: seq<ShadowArtifactRow>)
    requires Batch(t, attempts, artifacts).Ok?
    requires |again| == |attempts| && forall i :: 0 <= i < |attempts| ==> Equivalent(attempts[i], again[i])
    requires |others| == |artifacts| && forall i :: 0 <= i < |artifacts| ==> SameKey(artifacts[i], others[i])
    ensures var r := Batch(Batch(t, attempts, artifacts).value, again, others);
            && (r.Ok? <==> others == artifacts)
            && (r.Ok? ==> r == Batch(t, attempts, artifacts))
  {
    RerunChangesNothing(t, attempts, artifacts, again);
    var u := Batch(t, attempts, artifacts).value;
    if Batch(u, again, others).Ok? {
      BatchEstablishes(t, attempts, artifacts);
      var u1 := InsertAttempts(u, again).value;
      InsertAttemptsStores(u, again);
      InsertArtifactsFiles(u1, others);
      forall i | 0 <= i < |others| ensures others[i] == artifacts[i] {
        assert Filed(u, artifacts[i]) && Filed(u1, artifacts[i]);
        FiledStays(u1, others, artifacts[i]);
        assert Filed(InsertArtifacts(u1, others).value, others[i]);
      }
      assert others == artifacts;
    }
  }

  lemma PersistAgainAcceptedIff(t: Tables, attempts: seq<ExecutionAttemptRow>, artifacts: seq<ShadowArtifactRow>,
                                again: seq<ExecutionAttemptRow>, others: seq<ShadowArtifactRow>,
                                session: Option<Bytes>, other: Option<Bytes>)
    requires Persist(t, attempts, artifacts, session).Ok?
    requires |again| == |attempts| && forall i :: 0 <= i < |attempts| ==> Equivalent(attempts[i], again[i])
    requires |others| == |artifacts| && forall i :: 0 <= i < |artifacts| ==> SameKey(artifacts[i], others[i])
    ensures var r := Persist(Persist(t, attempts, artifacts, session).value, again, others, other);
            && (r.Ok? <==> others == artifacts)
            && (r.Ok? ==> r == Persist(t, attempts, artifacts, session))
  {
    assert AttemptIds(again) == AttemptIds(attempts) by {
      forall i | 0 <= i < |again| ensures again[i].attemptId == attempts[i].attemptId {
        assert Equivalent(attempts[i], again[i]);
        assert attempts[i].(runSessionId := None).attemptId == again[i].(runSessionId := None).attemptId;
      }
    }
    var a, b := AllWithSession(attempts, session), AllWithSession(again, other);
    forall i | 0 <= i < |a| ensures Equivalent(a[i], b[i]) {
      assert Equivalent(attempts[i], again[i]);
    }
    RerunAcceptedIff(t, a, artifacts, b, others);
  }

  lemma PersistAgainChangesNothing(t: Tables, attempts: seq<ExecutionAttemptRow>, artifacts: seq<ShadowArtifactRow>,
                                   again: seq<ExecutionAttemptRow>, session: Option<Bytes>, other: Option<Bytes>)
    requires Persist(t, attempts, artifacts, session).Ok?
    requires |again| == |attempts| && forall i :: 0 <= i < |attempts| ==> Equivalent(attempts[i], again[i])
    ensures Persist(Persist(t, attempts, artifacts, session).value, again, artifacts, other)
         == Persist(t, attempts, artifacts, session)
  {
    PersistAgainAcceptedIff(t, attempts, artifacts, again, artifacts, session, other);
  }

  // ----- When a batch is accepted -----

  /** No row contradicts a stored one, and no two rows contradict each other. */
  ghost predicate Acceptable(t: Tables, rows: seq<ExecutionAttemptRow>) {
    && (forall i :: 0 <= i < |rows| && rows[i].attemptId in t.attempts ==> Stored(t, rows[i]))
    && (forall i, j :: 0 <= i < j < |rows| && rows[i].attemptId == rows[j].attemptId ==> Equivalent(rows[i], rows[j]))
  }

  ghost predicate AcceptsNext(t: Tables, front: seq<ExecutionAttemptRow>, row: ExecutionAttemptRow) {
    && (row.attemptId in t.attempts ==> Stored(t, row))
    && (forall i :: 0 <= i < |front| && front[i].attemptId == row.attemptId ==> Equivalent(front[i], row))
  }

  lemma AcceptableSplits(t: Tables, front: seq<ExecutionAttemptRow>, row: ExecutionAttemptRow)
    ensures Acceptable(t, front + [row]) <==> Acceptable(t, front) && AcceptsNext(t, front, row)
  {
    var rows, n := front + [row], |front|;
    assert rows[n] == row && forall i :: 0 <= i < n ==> rows[i] == front[i];
    if Acceptable(t, rows) {
      assert rows[n].attemptId in t.attempts ==> Stored(t, rows[n]);
      forall i | 0 <= i < n && front[i].attemptId == row.attemptId ensures Equivalent(front[i], row) {
        assert Equivalent(rows[i], rows[n]);
      }
      forall i, j | 0 <= i < j < n && front[i].attemptId == front[j].attemptId ensures Equivalent(front[i], front[j]) {
        assert Equivalent(rows[i], rows[j]);
      }
      forall i | 0 <= i < n && front[i].attemptId in t.attempts ensures Stored(t, front[i]) {
        assert Stored(t, rows[i]);
      }
    }
  }

  lemma {:induction false} AttemptsAcceptedIff(t: Tables, rows: seq<ExecutionAttemptRow>)
    ensures InsertAttempts(t, rows).Ok? <==> Acceptable(t, rows)
  {
    if rows != [] {
      var front, row := rows[..|rows| - 1], rows[|rows| - 1];
      assert rows == front + [row];
      AttemptsAcceptedIff(t, front);
      AcceptableSplits(t, front, row);
      if InsertAttempts(t, front).Ok? {
        InsertAttemptsStores(t, front);
        AcceptedNext(t, InsertAttempts(t, front).value, front, row);
      }
    }
  }

  lemma AcceptedNext(t: Tables, u: Tables, front: seq<ExecutionAttemptRow>, row: ExecutionAttemptRow)
    requires forall id :: id in t.attempts ==> id in u.attempts && u.attempts[id] == t.attempts[id]
    requires forall i :: 0 <= i < |front| ==> Stored(u, front[i])
    requires forall id :: id in u.attempts ==>
               || id in t.attempts
               || exists i :: 0 <= i < |front| && u.attempts[id] == front[i] && id == front[i].attemptId
    ensures InsertAttempt(u, row).Ok? <==> AcceptsNext(t, front, row)
  {
    forall i | 0 <= i < |front| && front[i].attemptId == row.attemptId
      ensures Stored(u, row) <==> Equivalent(front[i], row)
    {
      assert Stored(u, front[i]);
    }
  }

  ghost predicate SameKey(a: ShadowArtifactRow, b: ShadowArtifactRow) {
    a.attemptId == b.attemptId && a.stream == b.stream
  }

  /** The artifact's attempt is a stored shadow attempt, and no older artifact contradicts it. */
  ghost predicate Fits(t: Tables, row: ShadowArtifactRow) {
    && row.attemptId in t.attempts && t.attempts[row.attemptId].executionMode == Shadow
    && PayloadAt(t.artifacts, row.attemptId, row.stream).GetOr(row.payload) == row.payload
  }

  ghost predicate AllFit(t: Tables, rows: seq<ShadowArtifactRow>) {
    && (forall i :: 0 <= i < |rows| ==> Fits(t, rows[i]))
    && (forall i, j :: 0 <= i < j < |rows| && SameKey(rows[i], rows[j]) ==> rows[i].payload == rows[j].payload)
  }

  lemma ConsistentNext(t: Tables, row: ShadowArtifactRow)
    requires Consistent(t)
    ensures InsertArtifact(t, row).Ok? <==> Fits(t, row)
    ensures InsertArtifact(t, row).Ok? ==> Consistent(InsertArtifact(t, row).value)
  {
    PayloadMeansArtifact(t.artifacts, row.attemptId, row.stream);
  }

  lemma FitsAfter(t: Tables, row: ShadowArtifactRow, other: ShadowArtifactRow)
    requires InsertArtifact(t, row).Ok? && row.attemptId in t.attempts
             && t.attempts[row.attemptId].executionMode == Shadow
    ensures Fits(InsertArtifact(t, row).value, other) <==>
            Fits(t, other) && (SameKey(row, other) ==> row.payload == other.payload)
  {
    PayloadOfPrefix(t.artifacts, [row], other.attemptId, other.stream);
  }

  lemma {:induction false} FitsAfterAll(t: Tables, rows: seq<ShadowArtifactRow>, other: ShadowArtifactRow)
    requires Consistent(t) && InsertArtifacts(t, rows).Ok?
    ensures Consistent(InsertArtifacts(t, rows).value)
    ensures Fits(InsertArtifacts(t, rows).value, other) <==>
            Fits(t, other) && forall i :: 0 <= i < |rows| && SameKey(rows[i], other) ==>
              rows[i].payload == other.payload
  {
    if rows != [] {
      var front, row := rows[..|rows| - 1], rows[|rows| - 1];
      FitsAfterAll(t, front, other);
      var u := InsertArtifacts(t, front).value;
      ConsistentNext(u, row);
      FitsAfter(u, row, other);
      assert forall i :: 0 <= i < |front| ==> rows[i] == front[i];
    }
  }

  lemma {:induction false} ArtifactsAcceptedIff(t: Tables, rows: seq<ShadowArtifactRow>)
    requires Consistent(t)
    ensures InsertArtifacts(t, rows).Ok? <==> AllFit(t, rows)
  {
    if rows != [] {
      var n := |rows| - 1;
      var front := rows[..n];
      ArtifactsAcceptedIff(t, front);
      assert AllFit(t, rows) ==> AllFit(t, front) by {
        assert forall i :: 0 <= i < n ==> rows[i] == front[i];
      }
      if InsertArtifacts(t, front).Ok? {
        var u := InsertArtifacts(t, front).value;
        FitsAfterAll(t, front, rows[n]);
        ConsistentNext(u, rows[n]);
        assert Fits(u, rows[n]) && AllFit(t, front) ==> AllFit(t, rows) by {
          assert forall i :: 0 <= i < n ==> rows[i] == front[i];
        }
      }
    }
  }

  lemma AttemptsKeepConsistent(t: Tables, rows: seq<ExecutionAttemptRow>)
    requires Consistent(t) && InsertAttempts(t, rows).Ok?
    ensures Consistent(InsertAttempts(t, rows).value)
  {
    InsertAttemptsStores(t, rows);
  }

  /** On consistent tables a batch is accepted exactly when its attempts contradict neither the
      table nor each other, and each artifact belongs to a shadow attempt and contradicts no other. */
  lemma BatchAcceptedIff(t: Tables, attempts: seq<ExecutionAttemptRow>, artifacts: seq<ShadowArtifactRow>)
    requires Consistent(t)
    ensures InsertAttempts(t, attempts).Ok? <==> Acceptable(t, attempts)
    ensures Batch(t, attempts, artifacts).Ok? <==>
            Acceptable(t, attempts) && AllFit(InsertAttempts(t, attempts).value, artifacts)
    ensures Batch(t, attempts, artifacts).Ok? ==> Consistent(Batch(t, attempts, artifacts).value)
  {
    AttemptsAcceptedIff(t, attempts);
    if InsertAttempts(t, attempts).Ok? {
      var t1 := InsertAttempts(t, attempts).value;
      AttemptsKeepConsistent(t, attempts);
      ArtifactsAcceptedIff(t1, artifacts);
      if InsertArtifacts(t1, artifacts).Ok? {
        FitsAfterAll(t1, artifacts, ShadowArtifactRow("", "", ""));
      }
    }
  }

  // ----- Restoring -----

  lemma {:induction false} ArtifactsComeFromRows(t: Tables, rows: seq<ShadowArtifactRow>, id: Bytes)
    requires InsertArtifacts(t, rows).Ok?
    ensures HasArtifact(InsertArtifacts(t, rows).value.artifacts, id)
            <==> HasArtifact(t.artifacts, id) || HasArtifact(rows, id)
  {
    InsertArtifactsFiles(t, rows);
    if rows == [] {
    } else {
      var n := |rows| - 1;
      var front := rows[..n];
      ArtifactsComeFromRows(t, front, id);
      var u, v := InsertArtifacts(t, front).value, InsertArtifacts(t, rows).value;
      assert forall i :: 0 <= i < n ==> rows[i] == front[i];
      PayloadMeansArtifact(u.artifacts, rows[n].attemptId, rows[n].stream);
      HasArtifactPush(u.artifacts, rows[n], id);
      HasArtifactPush(front, rows[n], id);
      assert rows == front + [rows[n]];
    }
  }

  lemma HasArtifactPush(a: seq<ShadowArtifactRow>, row: ShadowArtifactRow, id: Bytes)
    ensures HasArtifact(a + [row], id) <==> HasArtifact(a, id) || row.attemptId == id
  {
    assert (a + [row])[|a|] == row && forall i :: 0 <= i < |a| ==> (a + [row])[i] == a[i];
  }

  /** Each shadow attempt of a batch comes with an artifact. */
  ghost predicate Covered(t: Tables, attempts: seq<ExecutionAttemptRow>, artifacts: seq<ShadowArtifactRow>) {
    forall i :: 0 <= i < |attempts| && attempts[i].executionMode == Shadow ==>
      HasArtifact(t.artifacts, attempts[i].attemptId) || HasArtifact(artifacts, attempts[i].attemptId)
  }

  /** From restorable tables, an accepted batch leaves restorable tables exactly when it brings an
      artifact for every shadow attempt that has none yet. */
  lemma RestorableAfterIff(t: Tables, attempts: seq<ExecutionAttemptRow>, artifacts: seq<ShadowArtifactRow>)
    requires Consistent(t) && Restorable(t) && Batch(t, attempts, artifacts).Ok?
    ensures Restorable(Batch(t, attempts, artifacts).value) <==> Covered(t, attempts, artifacts)
  {
    var t1, u := InsertAttempts(t, attempts).value, Batch(t, attempts, artifacts).value;
    InsertAttemptsStores(t, attempts);
    InsertArtifactsFiles(t1, artifacts);
    forall id ensures HasArtifact(u.artifacts, id) <==> HasArtifact(t.artifacts, id) || HasArtifact(artifacts, id) {
      ArtifactsComeFromRows(t1, artifacts, id);
    }
    forall i | 0 <= i < |attempts|
      ensures attempts[i].attemptId in u.attempts
              && u.attempts[attempts[i].attemptId].executionMode == attempts[i].executionMode
    {
      assert Stored(t1, attempts[i]);
      assert t1.attempts[attempts[i].attemptId].(runSessionId := None).executionMode
             == attempts[i].(runSessionId := None).executionMode;
    }
  }

  /** What the restore queries return: the shadow attempts, and all artifacts of those. */
  ghost predicate Listed(t: Tables, attempts: seq<ExecutionAttemptRow>, artifacts: seq<ShadowArtifactRow>) {
    && (forall row :: row in attempts <==>
          row.attemptId in t.attempts && t.attempts[row.attemptId] == row && row.executionMode == Shadow)
    && (forall row :: row in artifacts <==>
          row in t.artifacts && exists i :: 0 <= i < |attempts| && attempts[i].attemptId == row.attemptId)
  }

  datatype RestoreError =
    | ArtifactWithoutAttempt(stream: Bytes, attemptId: Bytes)
    | AttemptWithoutArtifact(attemptId: Bytes)

  ghost predicate HasAttempt(attempts: seq<ExecutionAttemptRow>, id: Bytes) {
    exists i :: 0 <= i < |attempts| && attempts[i].attemptId == id
  }

  /** Attempts and artifacts cover each other. */
  ghost predicate Matched(attempts: seq<ExecutionAttemptRow>, artifacts: seq<ShadowArtifactRow>) {
    && (forall i :: 0 <= i < |artifacts| ==> HasAttempt(attempts, artifacts[i].attemptId))
    && (forall i :: 0 <= i < |attempts| ==> HasArtifact(artifacts, attempts[i].attemptId))
  }

  /** `durable_shadow_execution_state`. */
  method DurableShadowExecutionState(attempts: seq<ExecutionAttemptRow>, artifacts: seq<ShadowArtifactRow>)
    returns (r: Result<(seq<ExecutionAttemptRow>, seq<ShadowArtifactRow>), RestoreError>)
    ensures r.Ok? <==> Matched(attempts, artifacts)
    ensures r.Ok? ==> r.value == (attempts, artifacts)
  {
    var known := set i | 0 <= i < |attempts| :: attempts[i].attemptId;
    var counts: map<Bytes, nat> := map[];
    for n := 0 to |artifacts|
      invariant forall i :: 0 <= i < n ==> HasAttempt(attempts, artifacts[i].attemptId)
      invariant forall id :: id in counts <==> HasArtifact(artifacts[..n], id)
    {
      HasArtifactPush(artifacts[..n], artifacts[n], artifacts[n].attemptId);
      assert artifacts[..n + 1] == artifacts[..n] + [artifacts[n]];
      if artifacts[n].attemptId !in known {
        return Err(ArtifactWithoutAttempt(artifacts[n].stream, artifacts[n].attemptId));
      }
      var id := artifacts[n].attemptId;
      counts := counts[id := (if id in counts then counts[id] else 0) + 1];
      forall other ensures other in counts <==> HasArtifact(artifacts[..n + 1], other) {
        HasArtifactPush(artifacts[..n], artifacts[n], other);
      }
    }
    assert artifacts[..|artifacts|] == artifacts;
    for n := 0 to |attempts|
      invariant forall i :: 0 <= i < n ==> HasArtifact(artifacts, attempts[i].attemptId)
    {
      if attempts[n].attemptId !in counts {
        return Err(AttemptWithoutArtifact(attempts[n].attemptId));
      }
    }
    r := Ok((attempts, artifacts));
  }

  /** On consistent tables the restore check accepts what its queries list exactly when the tables
      are restorable. */
  lemma RestoreAcceptsIff(t: Tables, attempts: seq<ExecutionAttemptRow>, artifacts: seq<ShadowArtifactRow>)
    requires Consistent(t) && Listed(t, attempts, artifacts)
    ensures Matched(attempts, artifacts) <==> Restorable(t)
  {
    forall i | 0 <= i < |artifacts| ensures HasAttempt(attempts, artifacts[i].attemptId) {
      assert artifacts[i] in artifacts;
    }
    forall i | 0 <= i < |attempts|
      ensures HasArtifact(artifacts, attempts[i].attemptId) <==> HasArtifact(t.artifacts, attempts[i].attemptId)
    {
      ListedArtifacts(t, attempts, artifacts, i);
    }
    if Matched(attempts, artifacts) {
      forall id | id in t.attempts && t.attempts[id].executionMode == Shadow ensures HasArtifact(t.artifacts, id) {
        assert t.attempts[id] in attempts;
      }
    }
    if Restorable(t) {
      forall i | 0 <= i < |attempts| ensures HasArtifact(t.artifacts, attempts[i].attemptId) {
        assert attempts[i] in attempts;
      }
    }
  }

  lemma ListedArtifacts(t: Tables, attempts: seq<ExecutionAttemptRow>, artifacts: seq<ShadowArtifactRow>, i: nat)
    requires Listed(t, attempts, artifacts) && i < |attempts|
    ensures HasArtifact(artifacts, attempts[i].attemptId) <==> HasArtifact(t.artifacts, attempts[i].attemptId)
  {
    var id := attempts[i].attemptId;
    if k :| 0 <= k < |artifacts| && artifacts[k].attemptId == id {
      assert artifacts[k] in artifacts;
      var l :| 0 <= l < |t.artifacts| && t.artifacts[l] == artifacts[k];
    }
    if k :| 0 <= k < |t.artifacts| && t.artifacts[k].attemptId == id {
      assert t.artifacts[k] in artifacts;
      var l :| 0 <= l < |artifacts| && artifacts[l] == t.artifacts[k];
    }
  }

  // ----- The store -----

  /** `shadow_batch_guard_key`. */
  function GuardKey(attempts: seq<ExecutionAttemptRow>): Bytes {
    var none := "none";
    var first := if attempts == [] then none else attempts[0].attemptId;
    var last := if attempts == [] then none else attempts[|attempts| - 1].attemptId;
    var session := if attempts == [] then none else attempts[0].runSessionId.GetOr(none);
    "run_session_id=" + session + ";len=" + Digits(|attempts|) + ";first=" + first + ";last=" + last
  }

  class ShadowStore {
    var tables: Tables
    var active: set<Bytes>

    constructor ()
      ensures tables == Tables(map[], []) && active == {}
    {
      tables, active := Tables(map[], []), {};
    }

    /** `ActiveShadowBatchGuard::acquire`: refused while a batch with the same key is active. */
    method Acquire(attempts: seq<ExecutionAttemptRow>) returns (e: Option<StoreError>)
      modifies this`active
      ensures e == if GuardKey(attempts) in old(active) then Some(BatchReentry(GuardKey(attempts))) else None
      ensures active == if e.None? then old(active) + {GuardKey(attempts)} else old(active)
    {
      if GuardKey(attempts) in active {
        return Some(BatchReentry(GuardKey(attempts)));
      }
      active := active + {GuardKey(attempts)};
      e := None;
    }

    /** Dropping the guard. */
    method Release(attempts: seq<ExecutionAttemptRow>)
      modifies this`active
      ensures active == old(active) - {GuardKey(attempts)}
    {
      active := active - {GuardKey(attempts)};
    }

    /** `append_shadow_execution_batch`: one transaction under the guard, committed whole or rolled back
        whole. Another batch may hold its own guard meanwhile; the guard is given back either way. */
    method AppendBatch(attempts: seq<ExecutionAttemptRow>, artifacts: seq<ShadowArtifactRow>)
      returns (e: Option<StoreError>)
      modifies this
      ensures active == old(active)
      ensures var r := if GuardKey(attempts) in old(active) then Err(BatchReentry(GuardKey(attempts)))
                       else Batch(old(tables), attempts, artifacts);
              tables == (if r.Ok? then r.value else old(tables)) && e == if r.Ok? then None else Some(r.error)
    {
      ghost var before := active;
      e := Acquire(attempts);
      if e.Some? {
        return;
      }
      e := Transact(attempts, artifacts);
      Release(attempts);
      assert active == before;
    }

    method Transact(attempts: seq<ExecutionAttemptRow>, artifacts: seq<ShadowArtifactRow>)
      returns (e: Option<StoreError>)
      modifies this`tables
      ensures var r := Batch(old(tables), attempts, artifacts);
              tables == (if r.Ok? then r.value else old(tables)) && e == if r.Ok? then None else Some(r.error)
    {
      var tx := tables;
      for n := 0 to |attempts|
        invariant InsertAttempts(tables, attempts[..n]) == Ok(tx) && tables == old(tables)
      {
        var next := InsertAttempt(tx, attempts[n]);
        AttemptsTurn(tables, attempts, n);
        if next.Err? {
          return Some(next.error);
        }
        tx := next.value;
      }
      assert attempts[..|attempts|] == attempts;
      ghost var middle := tx;
      for n := 0 to |artifacts|
        invariant InsertArtifacts(middle, artifacts[..n]) == Ok(tx) && tables == old(tables)
      {
        var next := InsertArtifact(tx, artifacts[n]);
        ArtifactsTurn(middle, artifacts, n);
        if next.Err? {
          return Some(next.error);
        }
        tx := next.value;
      }
      assert artifacts[..|artifacts|] == artifacts;
      tables := tx;
      e := None;
    }
  }

  /** `persist_shadow_execution_records_with_run_session_id`: refuses repeated attempt ids before
      anything is written, and otherwise writes one batch under the session. */
  method PersistShadowRecords(store: ShadowStore, attempts: seq<ExecutionAttemptRow>, artifacts: seq<ShadowArtifactRow>,
                              session: Option<Bytes>) returns (e: Option<StoreError>)
    modifies store
    ensures store.active == old(store.active)
    ensures var key := GuardKey(AllWithSession(attempts, session));
            var r := if Distinct(AttemptIds(attempts)) && key in old(store.active) then Err(BatchReentry(key))
                     else Persist(old(store.tables), attempts, artifacts, session);
            store.tables == (if r.Ok? then r.value else old(store.tables)) && e == if r.Ok? then None else Some(r.error)
  {
    var rows := AllWithSession(attempts, session);
    var repeated := HasRepeatedId(rows);
    assert AttemptIds(rows) == AttemptIds(attempts);
    if repeated {
      return Some(DuplicateRows);
    }
    e := store.AppendBatch(rows, artifacts);
  }

  method HasRepeatedId(rows: seq<ExecutionAttemptRow>) returns (repeated: bool)
    ensures repeated <==> !Distinct(AttemptIds(rows))
  {
    var seen: set<Bytes> := {};
    repeated := false;
    for n := 0 to |rows|
      invariant forall id :: id in seen <==> exists i :: 0 <= i < n && rows[i].attemptId == id
      invariant repeated <==> exists i, j :: 0 <= i < j < n && rows[i].attemptId == rows[j].attemptId
    {
      repeated := repeated || rows[n].attemptId in seen;
      seen := seen + {rows[n].attemptId};
    }
    var ids := AttemptIds(rows);
    assert forall i :: 0 <= i < |ids| ==> ids[i] == rows[i].attemptId;
  }

  /** An insert after a prefix decides the next prefix, and an error decides the whole. */
  lemma {:induction false} AttemptsTurn(t: Tables, rows: seq<ExecutionAttemptRow>, n: nat)
    requires n < |rows| && InsertAttempts(t, rows[..n]).Ok?
    ensures InsertAttempts(t, rows[..n + 1]) == InsertAttempt(InsertAttempts(t, rows[..n]).value, rows[n])
    ensures InsertAttempts(t, rows[..n + 1]).Err? ==> InsertAttempts(t, rows) == InsertAttempts(t, rows[..n + 1])
  {
    assert rows[..n + 1][..n] == rows[..n];
    if InsertAttempts(t, rows[..n + 1]).Err? {
      AttemptsErrorStays(t, rows, n + 1);
    }
  }

  lemma {:induction false} AttemptsErrorStays(t: Tables, rows: seq<ExecutionAttemptRow>, n: nat)
    requires n <= |rows| && InsertAttempts(t, rows[..n]).Err?
    ensures InsertAttempts(t, rows) == InsertAttempts(t, rows[..n])
    decreases |rows|
  {
    if n == |rows| {
      assert rows[..n] == rows;
    } else {
      assert rows[..|rows| - 1][..n] == rows[..n];
      AttemptsErrorStays(t, rows[..|rows| - 1], n);
    }
  }

  lemma {:induction false} ArtifactsTurn(t: Tables, rows: seq<ShadowArtifactRow>, n: nat)
    requires n < |rows| && InsertArtifacts(t, rows[..n]).Ok?
    ensures InsertArtifacts(t, rows[..n + 1]) == InsertArtifact(InsertArtifacts(t, rows[..n]).value, rows[n])
    ensures InsertArtifacts(t, rows[..n + 1]).Err? ==> InsertArtifacts(t, rows) == InsertArtifacts(t, rows[..n + 1])
  {
    assert rows[..n + 1][..n] == rows[..n];
    if InsertArtifacts(t, rows[..n + 1]).Err? {
      ArtifactsErrorStays(t, rows, n + 1);
    }
  }

  lemma {:induction false} ArtifactsErrorStays(t: Tables, rows: seq<ShadowArtifactRow>, n: nat)
    requires n <= |rows| && InsertArtifacts(t, rows[..n]).Err?
    ensures InsertArtifacts(t, rows) == InsertArtifacts(t, rows[..n])
    decreases |rows|
  {
    if n == |rows| {
      assert rows[..n] == rows;
    } else {
      assert rows[..|rows| - 1][..n] == rows[..n];
      ArtifactsErrorStays(t, rows[..|rows| - 1], n);
    }
  }
}
