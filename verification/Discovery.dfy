/** From metadata rows to rendered live targets: `authoritative_discovery_batch` of
    crates/app-live/src/task_groups.rs. */
module Discovery {
  import opened Text
  import opened Decimals
  import opened OrderedKeys
  import opened PlanIdentity
  import opened StableSort

  /** A metadata row without the fields that discovery does not read. */
  datatype MetadataRow = MetadataRow(familyId: Bytes, conditionId: Bytes, tokenId: Bytes, snapshotHash: Bytes)

  datatype DiscoveryInput = DiscoveryInput(journalSeq: int, sessionId: Bytes, eventId: Bytes, familyId: Bytes,
                                           observedAt: int)

  function RowKey(r: MetadataRow): seq<Bytes> {
    [r.conditionId, r.tokenId]
  }

  predicate RowLeq(a: MetadataRow, b: MetadataRow) {
    KeyLeq(RowKey(a), RowKey(b))
  }

  /** The fixed price and quantity of a rendered member. */
  function MemberFor(key: seq<Bytes>): Member
    requires |key| == 2
  {
    Member(key[0], key[1], Decimal(43, 2), Decimal(5, 0))
  }

  function ToMember(r: MetadataRow): Member {
    MemberFor(RowKey(r))
  }

  /** The rows of a family, in the order they came. */
  function RowsOf(rows: seq<MetadataRow>, family: Bytes): (r: seq<MetadataRow>)
    ensures forall i :: 0 <= i < |r| ==> r[i].familyId == family
  {
    if rows == [] then []
    else
      var last := rows[|rows| - 1];
      RowsOf(rows[..|rows| - 1], family) + if last.familyId == family then [last] else []
  }

  function Families(rows: seq<MetadataRow>): set<Bytes> {
    set i | 0 <= i < |rows| :: rows[i].familyId
  }

  function SortedRows(rows: seq<MetadataRow>, family: Bytes): seq<MetadataRow> {
    Sort(RowsOf(rows, family), RowLeq)
  }

  function Render(rows: seq<MetadataRow>, family: Bytes): FamilyTarget {
    FamilyTarget(family, Map(ToMember, SortedRows(rows, family)))
  }

  function EventId(snapshotHash: Bytes, family: Bytes): Bytes {
    "metadata-" + snapshotHash + "-" + family + "-discovery"
  }

  /** One target per family of the rows, under the family's own id. */
  ghost predicate Renders(targets: map<Bytes, FamilyTarget>, rows: seq<MetadataRow>) {
    && targets.Keys == Families(rows)
    && forall f :: f in targets ==> targets[f] == Render(rows, f)
  }

  /** The input of a family names its first row in member order. */
  function InputFor(rows: seq<MetadataRow>, family: Bytes, journalSeq: int, session: Bytes, observedAt: int)
    : DiscoveryInput
  {
    var sorted := SortedRows(rows, family);
    DiscoveryInput(journalSeq, session, EventId(if sorted == [] then "" else sorted[0].snapshotHash, family), family,
                   observedAt)
  }

  /** One input per family in key order, numbered from 1. */
  ghost predicate Announces(inputs: seq<DiscoveryInput>, rows: seq<MetadataRow>, session: Bytes, observedAt: int) {
    var families := Ascending(Families(rows));
    && |inputs| == |families|
    && forall i :: 0 <= i < |inputs| ==>
         RowsOf(rows, families[i]) != [] && inputs[i] == InputFor(rows, families[i], i + 1, session, observedAt)
  }

  // ----- Row order -----

  lemma {:induction false} CountInFamily(rows: seq<MetadataRow>, family: Bytes, r: MetadataRow)
    ensures multiset(RowsOf(rows, family))[r] == if r.familyId == family then multiset(rows)[r] else 0
  {
    if rows != [] {
      var n := |rows| - 1;
      CountInFamily(rows[..n], family, r);
      assert rows == rows[..n] + [rows[n]];
    }
  }

  lemma SameRowsInFamily(a: seq<MetadataRow>, b: seq<MetadataRow>, family: Bytes)
    requires multiset(a) == multiset(b)
    ensures multiset(RowsOf(a, family)) == multiset(RowsOf(b, family))
  {
    forall r ensures multiset(RowsOf(a, family))[r] == multiset(RowsOf(b, family))[r] {
      CountInFamily(a, family, r);
      CountInFamily(b, family, r);
    }
  }

  lemma SortedKeys(rows: seq<MetadataRow>, family: Bytes)
    ensures Map(RowKey, SortedRows(rows, family)) == Sort(Map(RowKey, RowsOf(rows, family)), KeyLeq)
  {
    SortCommutesWithMap(RowKey, RowsOf(rows, family), RowLeq, KeyLeq);
  }

  /** Rows in another order render the same target. */
  lemma RenderIgnoresRowOrder(a: seq<MetadataRow>, b: seq<MetadataRow>, family: Bytes)
    requires multiset(a) == multiset(b)
    ensures Render(a, family) == Render(b, family)
  {
    SameRowsInFamily(a, b, family);
    MapMultiset(RowKey, RowsOf(a, family), RowsOf(b, family));
    SortedKeysAgree(Map(RowKey, RowsOf(a, family)), Map(RowKey, RowsOf(b, family)));
    SortedKeys(a, family);
    SortedKeys(b, family);
    var x, y := SortedRows(a, family), SortedRows(b, family);
    assert |x| == |Map(RowKey, x)| == |Map(RowKey, y)| == |y|;
    forall i | 0 <= i < |x| ensures ToMember(x[i]) == ToMember(y[i]) {
      assert Map(RowKey, x)[i] == Map(RowKey, y)[i];
    }
  }

  lemma SameFamilies(a: seq<MetadataRow>, b: seq<MetadataRow>)
    requires multiset(a) == multiset(b)
    ensures Families(a) <= Families(b)
  {
    forall i | 0 <= i < |a| ensures a[i].familyId in Families(b) {
      assert a[i] in multiset(b);
      var j :| 0 <= j < |b| && b[j] == a[i];
    }
  }

  /** Rows in another order make the same rendered targets. */
  lemma BatchIgnoresRowOrder(a: seq<MetadataRow>, x: map<Bytes, FamilyTarget>, b: seq<MetadataRow>,
                             y: map<Bytes, FamilyTarget>)
    requires multiset(a) == multiset(b) && Renders(x, a) && Renders(y, b)
    ensures x == y
  {
    SameFamilies(a, b);
    SameFamilies(b, a);
    forall f | f in x ensures f in y && x[f] == y[f] {
      RenderIgnoresRowOrder(a, b, f);
    }
    SameMaps(x, y);
  }

  // ----- Which announcements depend on row order -----

  /** A row of the family with its least key. */
  ghost predicate Leads(rows: seq<MetadataRow>, family: Bytes, r: MetadataRow) {
    && r in rows && r.familyId == family
    && forall x :: x in rows && x.familyId == family ==> RowLeq(r, x)
  }

  /** The rows of the family with its least key share one snapshot hash. */
  ghost predicate OneLeadingHash(rows: seq<MetadataRow>, family: Bytes) {
    forall r, s :: Leads(rows, family, r) && Leads(rows, family, s) ==> r.snapshotHash == s.snapshotHash
  }

  lemma RowLeqIsOrder()
    ensures TotalPreorder(RowLeq)
  {
    forall a, b ensures RowLeq(a, b) || RowLeq(b, a) { KeyLeqTotal(RowKey(a), RowKey(b)); }
    forall a, b, c | RowLeq(a, b) && RowLeq(b, c) ensures RowLeq(a, c) {
      KeyLeqTransitive(RowKey(a), RowKey(b), RowKey(c));
    }
  }

  lemma RowsOfMembers(rows: seq<MetadataRow>, family: Bytes, r: MetadataRow)
    ensures r in RowsOf(rows, family) <==> r in rows && r.familyId == family
  {
    CountInFamily(rows, family, r);
    assert r in RowsOf(rows, family) <==> r in multiset(RowsOf(rows, family));
    assert r in rows <==> r in multiset(rows);
  }

  /** The row whose hash is announced leads its family. */
  lemma FirstLeads(rows: seq<MetadataRow>, family: Bytes)
    requires SortedRows(rows, family) != []
    ensures Leads(rows, family, SortedRows(rows, family)[0])
  {
    var sorted := SortedRows(rows, family);
    RowLeqIsOrder();
    SortSorts(RowsOf(rows, family), RowLeq);
    SortMembers(RowsOf(rows, family), RowLeq);
    assert sorted[0] in sorted;
    RowsOfMembers(rows, family, sorted[0]);
    forall x | x in rows && x.familyId == family ensures RowLeq(sorted[0], x) {
      RowsOfMembers(rows, family, x);
      FirstIsLeast(sorted, x, RowLeq);
    }
  }

  lemma LeadsIgnoresRowOrder(a: seq<MetadataRow>, b: seq<MetadataRow>, family: Bytes, r: MetadataRow)
    requires multiset(a) == multiset(b) && Leads(a, family, r)
    ensures Leads(b, family, r)
  {
    assert forall x :: x in a <==> x in multiset(a);
    assert forall x :: x in b <==> x in multiset(b);
  }

  /** A row that comes first and leads stays first in a stable sort. */
  lemma {:induction false} LeaderStaysFirst(r: MetadataRow, rest: seq<MetadataRow>)
    requires forall x :: x in rest ==> RowLeq(r, x)
    ensures Sort([r] + rest, RowLeq)[0] == r
  {
    var all := [r] + rest;
    var n := |all| - 1;
    if n == 0 {
      assert all[..0] == [];
      assert Sort(all[..0], RowLeq) == [];
    } else {
      assert all[..n] == [r] + rest[..n - 1];
      LeaderStaysFirst(r, rest[..n - 1]);
      assert all[n] in rest;
      InsertBehind(Sort(all[..n], RowLeq), all[n]);
    }
  }

  lemma {:induction false} InsertBehind(s: seq<MetadataRow>, x: MetadataRow)
    requires s != [] && RowLeq(s[0], x)
    ensures Insert(s, x, RowLeq)[0] == s[0]
  {
    var last := |s| - 1;
    if !RowLeq(s[last], x) {
      InsertBehind(s[..last], x);
    }
  }

  lemma {:induction false} RowsOfFirst(r: MetadataRow, rest: seq<MetadataRow>, family: Bytes)
    requires r.familyId == family
    ensures RowsOf([r] + rest, family) == [r] + RowsOf(rest, family)
  {
    var all := [r] + rest;
    var n := |all| - 1;
    if n == 0 {
      assert all == [r] && all[..0] == [] && RowsOf([], family) == [];
    } else {
      assert all[..n] == [r] + rest[..n - 1];
      RowsOfFirst(r, rest[..n - 1], family);
    }
  }

  /** The rows with one of them brought to the front. */
  lemma BroughtForward(rows: seq<MetadataRow>, r: MetadataRow) returns (perm: seq<MetadataRow>)
    requires r in rows
    ensures multiset(perm) == multiset(rows) && perm != [] && perm[0] == r
  {
    var j :| 0 <= j < |rows| && rows[j] == r;
    perm := [r] + (rows[..j] + rows[j + 1..]);
    assert rows == rows[..j] + [r] + rows[j + 1..];
  }

  /** A leading row that comes first is the one announced. */
  lemma LeaderIsAnnounced(rows: seq<MetadataRow>, family: Bytes)
    requires rows != [] && Leads(rows, family, rows[0])
    ensures SortedRows(rows, family) != [] && SortedRows(rows, family)[0] == rows[0]
  {
    var r, rest := rows[0], rows[1..];
    assert rows == [r] + rest;
    RowsOfFirst(r, rest, family);
    forall x | x in RowsOf(rest, family) ensures RowLeq(r, x) {
      RowsOfMembers(rest, family, x);
      assert x in rows;
    }
    LeaderStaysFirst(r, RowsOf(rest, family));
  }

  lemma EventIdIsInjective(a: Bytes, b: Bytes, family: Bytes)
    ensures EventId(a, family) == EventId(b, family) <==> a == b
  {
    var suffix: Bytes := "-" + family + "-discovery";
    assert EventId(a, family) == "metadata-" + (a + suffix) && EventId(b, family) == "metadata-" + (b + suffix);
    assert EventId(a, family)[9..] == a + suffix && EventId(b, family)[9..] == b + suffix;
    if a + suffix == b + suffix {
      assert |a| == |b|;
      assert (a + suffix)[..|a|] == a && (b + suffix)[..|b|] == b;
    }
  }

  /** Two lists of rows announce one event id for a family, and the same input altogether. */
  ghost predicate SameAnnouncement(
      a: seq<MetadataRow>, b: seq<MetadataRow>, family: Bytes, journalSeq: int, session: Bytes, observedAt: int)
  {
    var x := InputFor(a, family, journalSeq, session, observedAt);
    var y := InputFor(b, family, journalSeq, session, observedAt);
    x.eventId == y.eventId && x == y
  }

  /** Every order of the rows announces the same input for a family if and only if the rows with its
      least condition and token share one snapshot hash; what differs otherwise is the event id. */
  lemma EventIdIgnoresRowOrderIff(rows: seq<MetadataRow>, family: Bytes, journalSeq: int, session: Bytes,
                                  observedAt: int)
    ensures OneLeadingHash(rows, family) <==>
            forall perm :: multiset(perm) == multiset(rows) ==>
              SameAnnouncement(perm, rows, family, journalSeq, session, observedAt)
  {
    if OneLeadingHash(rows, family) {
      forall perm | multiset(perm) == multiset(rows)
        ensures SameAnnouncement(perm, rows, family, journalSeq, session, observedAt)
      {
        LeadersAgree(perm, rows, family);
      }
    } else {
      var r, s :| Leads(rows, family, r) && Leads(rows, family, s) && r.snapshotHash != s.snapshotHash;
      var x := AnnouncedFirst(rows, family, r);
      var y := AnnouncedFirst(rows, family, s);
      EventIdIsInjective(r.snapshotHash, s.snapshotHash, family);
      assert !SameAnnouncement(x, rows, family, journalSeq, session, observedAt)
          || !SameAnnouncement(y, rows, family, journalSeq, session, observedAt);
    }
  }

  /** Some order of the rows announces this leading row. */
  lemma AnnouncedFirst(rows: seq<MetadataRow>, family: Bytes, r: MetadataRow) returns (perm: seq<MetadataRow>)
    requires Leads(rows, family, r)
    ensures multiset(perm) == multiset(rows)
    ensures SortedRows(perm, family) != [] && SortedRows(perm, family)[0] == r
  {
    perm := BroughtForward(rows, r);
    LeadsIgnoresRowOrder(rows, perm, family, r);
    LeaderIsAnnounced(perm, family);
  }

  lemma LeadersAgree(a: seq<MetadataRow>, b: seq<MetadataRow>, family: Bytes)
    requires multiset(a) == multiset(b) && OneLeadingHash(b, family)
    ensures var x, y := SortedRows(a, family), SortedRows(b, family);
            |x| == |y| && (x != [] ==> x[0].snapshotHash == y[0].snapshotHash)
  {
    SameRowsInFamily(a, b, family);
    var x, y := SortedRows(a, family), SortedRows(b, family);
    assert |x| == |multiset(RowsOf(a, family))| == |multiset(RowsOf(b, family))| == |y|;
    if x != [] {
      FirstLeads(a, family);
      FirstLeads(b, family);
      LeadsIgnoresRowOrder(a, b, family, x[0]);
    }
  }

  // ----- The batch -----

  method Group(rows: seq<MetadataRow>) returns (grouped: map<Bytes, seq<MetadataRow>>)
    ensures grouped.Keys == Families(rows) && forall f :: f in grouped ==> grouped[f] == RowsOf(rows, f) != []
  {
    grouped := map[];
    for n := 0 to |rows|
      invariant grouped.Keys == Families(rows[..n])
      invariant forall f :: f in grouped ==> grouped[f] == RowsOf(rows[..n], f) != []
    {
      var row := rows[n];
      FamiliesTurn(rows, n);
      var entry := if row.familyId in grouped then grouped[row.familyId] else [];
      if row.familyId !in grouped {
        NoRows(rows[..n], row.familyId);
      }
      assert rows[..n + 1][..n] == rows[..n];
      grouped := grouped[row.familyId := entry + [row]];
    }
    assert rows[..|rows|] == rows;
  }

  lemma FamiliesTurn(rows: seq<MetadataRow>, n: nat)
    requires n < |rows|
    ensures Families(rows[..n + 1]) == Families(rows[..n]) + {rows[n].familyId}
  {
    var a, b := rows[..n], rows[..n + 1];
    assert b[n] == rows[n] && forall i :: 0 <= i < n ==> b[i] == a[i];
  }

  lemma {:induction false} NoRows(rows: seq<MetadataRow>, family: Bytes)
    requires family !in Families(rows)
    ensures RowsOf(rows, family) == []
  {
    if rows != [] {
      var n := |rows| - 1;
      assert rows[n].familyId in Families(rows);
      assert forall i :: 0 <= i < n ==> rows[..n][i] == rows[i];
      NoRows(rows[..n], family);
    }
  }

  method AuthoritativeDiscoveryBatch(rows: seq<MetadataRow>, session: Bytes, observedAt: int)
    returns (inputs: seq<DiscoveryInput>, targets: map<Bytes, FamilyTarget>)
    ensures Announces(inputs, rows, session, observedAt)
    ensures Renders(targets, rows)
  {
    var grouped := Group(rows);
    var families := InOrder(grouped.Keys);
    inputs, targets := RenderFamilies(grouped, families, session, observedAt, f => Render(rows, f),
                                      (f, n) => InputFor(rows, f, n, session, observedAt), rows);
    assert targets.Keys == grouped.Keys;
    forall i | 0 <= i < |families| ensures RowsOf(rows, families[i]) != [] {
      assert families[i] in families;
    }
  }

  /** The second loop, over what it renders and announces for a family and a sequence number. */
  method RenderFamilies(grouped: map<Bytes, seq<MetadataRow>>, families: seq<Bytes>, session: Bytes, observedAt: int,
                        ghost render: Bytes -> FamilyTarget, ghost announce: (Bytes, int) -> DiscoveryInput,
                        ghost rows: seq<MetadataRow>)
    returns (inputs: seq<DiscoveryInput>, targets: map<Bytes, FamilyTarget>)
    requires forall f :: f in grouped ==> grouped[f] == RowsOf(rows, f) != []
    requires forall f :: f in families ==> f in grouped
    requires forall f {:trigger Render(rows, f)} :: render(f) == Render(rows, f)
    requires forall f, n {:trigger InputFor(rows, f, n, session, observedAt)} ::
               announce(f, n) == InputFor(rows, f, n, session, observedAt)
    ensures |inputs| == |families|
    ensures forall i :: 0 <= i < |inputs| ==> inputs[i] == announce(families[i], i + 1)
    ensures forall f :: f in targets <==> f in families
    ensures forall f :: f in targets ==> targets[f] == render(f)
  {
    inputs, targets := [], map[];
    var journalSeq := 1;
    for n := 0 to |families|
      invariant journalSeq == n + 1 && |inputs| == n
      invariant forall f :: f in targets ==> f in families && targets[f] == render(f)
      invariant forall i :: 0 <= i < n ==> families[i] in targets
      invariant forall i :: 0 <= i < n ==> inputs[i] == announce(families[i], i + 1)
    {
      var input, target := RenderFamily(rows, grouped[families[n]], families[n], journalSeq, session, observedAt);
      inputs, targets := inputs + [input], targets[families[n] := target];
      journalSeq := journalSeq + 1;
    }
  }

  method RenderFamily(ghost rows: seq<MetadataRow>, familyRows: seq<MetadataRow>, family: Bytes, journalSeq: int,
                      session: Bytes, observedAt: int)
    returns (input: DiscoveryInput, target: FamilyTarget)
    requires familyRows == RowsOf(rows, family) != []
    ensures input == InputFor(rows, family, journalSeq, session, observedAt) && target == Render(rows, family)
  {
    var sorted := Sort(familyRows, RowLeq);
    var anchor := sorted[0];
    input := DiscoveryInput(journalSeq, session, EventId(anchor.snapshotHash, family), family, observedAt);
    target := FamilyTarget(family, Map(ToMember, sorted));
  }
}
