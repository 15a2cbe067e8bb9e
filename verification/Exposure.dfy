/** crates/domain/src/negrisk.rs: the exposure of a neg-risk family, summed from inventory rows
    per member and per bucket. Quantities are exact. */
module Exposure {
  import opened Options
  import opened Text
  import opened Identifiers
  import opened OrderedKeys
  import opened StableSort

  datatype InventoryBucket =
    Free | ReservedForOrder | MatchedUnsettled | PendingCtfIn | PendingCtfOut | Redeemable | Quarantined

  datatype Row = Row(token: Bytes, bucket: InventoryBucket, quantity: real)

  type Quantities = map<InventoryBucket, real>

  datatype MemberExposure = MemberExposure(token: Bytes, outcomeLabel: Bytes, quantities: Quantities)

  datatype ExposureVector = ExposureVector(
    familyId: Bytes, members: seq<MemberExposure>, rollup: Quantities, memberCount: nat)

  datatype ExposureError =
    | EmptyInventory
    | MissingTokenCondition(token: Bytes)
    | MissingFamilyMapping(token: Bytes, condition: Bytes)
    | InvalidRoute(token: Bytes, route: Option<MarketRoute>)
    | MixedFamily(token: Bytes, expected: Bytes, found: Bytes)

  /** The family a row belongs to, or why it has none. */
  function RowFamily(ids: Identifiers, token: Bytes): Result<Bytes, ExposureError> {
    var condition := ids.ConditionForToken(token);
    if condition.None? then Err(MissingTokenCondition(token))
    else if ids.RouteForCondition(condition.value) != Some(NegRisk)
    then Err(InvalidRoute(token, ids.RouteForCondition(condition.value)))
    else if ids.FamilyForCondition(condition.value).None? then Err(MissingFamilyMapping(token, condition.value))
    else Ok(ids.FamilyForCondition(condition.value).value)
  }

  function Label(ids: Identifiers, token: Bytes): Bytes {
    ids.OutcomeLabelForToken(token).GetOr(token)
  }

  // ----- Sums over rows and members -----

  function Sum(rows: seq<Row>, token: Bytes, b: InventoryBucket): real {
    if rows == [] then 0.0
    else
      var last := rows[|rows| - 1];
      Sum(rows[..|rows| - 1], token, b) + if last.token == token && last.bucket == b then last.quantity else 0.0
  }

  function Total(rows: seq<Row>, b: InventoryBucket): real {
    if rows == [] then 0.0
    else
      var last := rows[|rows| - 1];
      Total(rows[..|rows| - 1], b) + if last.bucket == b then last.quantity else 0.0
  }

  function At(q: Quantities, b: InventoryBucket): real {
    if b in q then q[b] else 0.0
  }

  function MemberSum(members: seq<MemberExposure>, b: InventoryBucket): real {
    if members == [] then 0.0
    else MemberSum(members[..|members| - 1], b) + At(members[|members| - 1].quantities, b)
  }

  predicate HasRow(rows: seq<Row>, token: Bytes, b: InventoryBucket) {
    exists i :: 0 <= i < |rows| && rows[i].token == token && rows[i].bucket == b
  }

  predicate HasToken(rows: seq<Row>, token: Bytes) {
    exists i :: 0 <= i < |rows| && rows[i].token == token
  }

  predicate HasBucket(rows: seq<Row>, b: InventoryBucket) {
    exists i :: 0 <= i < |rows| && rows[i].bucket == b
  }

  // ----- What an exposure vector must be -----

  /** A member holds, for exactly the buckets its rows mention, the sum of those rows. */
  ghost predicate IsMember(m: MemberExposure, rows: seq<Row>, ids: Identifiers) {
    && m.outcomeLabel == Label(ids, m.token)
    && forall b :: (b in m.quantities <==> HasRow(rows, m.token, b)) && At(m.quantities, b) == Sum(rows, m.token, b)
  }

  ghost predicate StrictlyByToken(members: seq<MemberExposure>) {
    forall i, j :: 0 <= i < j < |members| ==>
      members[i].token != members[j].token && StrLeq(members[i].token, members[j].token)
  }

  ghost predicate AreMembers(members: seq<MemberExposure>, rows: seq<Row>, ids: Identifiers) {
    && (forall i :: 0 <= i < |members| ==> HasToken(rows, members[i].token) && IsMember(members[i], rows, ids))
    && (forall i :: 0 <= i < |rows| ==> Lists(members, rows[i].token))
  }

  ghost predicate Lists(members: seq<MemberExposure>, token: Bytes) {
    exists j :: 0 <= j < |members| && members[j].token == token
  }

  ghost predicate IsRollup(rollup: Quantities, rows: seq<Row>) {
    forall b :: (b in rollup <==> HasBucket(rows, b)) && At(rollup, b) == Total(rows, b)
  }

  ghost predicate OneFamily(rows: seq<Row>, ids: Identifiers, family: Bytes) {
    rows != [] && forall i :: 0 <= i < |rows| ==> RowFamily(ids, rows[i].token) == Ok(family)
  }

  ghost predicate IsExposure(x: ExposureVector, rows: seq<Row>, ids: Identifiers) {
    && OneFamily(rows, ids, x.familyId)
    && StrictlyByToken(x.members) && AreMembers(x.members, rows, ids) && x.memberCount == |x.members|
    && IsRollup(x.rollup, rows)
  }

  /** The error of the first row that has no family, or a second family. */
  ghost predicate FirstError(rows: seq<Row>, n: nat, ids: Identifiers, e: ExposureError) {
    && n < |rows|
    && var found := RowFamily(ids, rows[n].token);
       || (found.Err? && e == found.error && (n == 0 || exists f :: OneFamily(rows[..n], ids, f)))
       || (found.Ok? && exists f :: OneFamily(rows[..n], ids, f) && f != found.value
                                    && e == MixedFamily(rows[n].token, f, found.value))
  }

  // ----- Conservation -----

  /** The sums of distinct tokens, in the order of a list. */
  function SumOver(tokens: seq<Bytes>, rows: seq<Row>, b: InventoryBucket): real {
    if tokens == [] then 0.0
    else SumOver(tokens[..|tokens| - 1], rows, b) + Sum(rows, tokens[|tokens| - 1], b)
  }

  lemma {:induction false} SumOverNothing(tokens: seq<Bytes>, b: InventoryBucket)
    ensures SumOver(tokens, [], b) == 0.0
  {
    if tokens != [] {
      SumOverNothing(tokens[..|tokens| - 1], b);
    }
  }

  /** One more row adds its quantity to the sums exactly once. */
  lemma {:induction false} SumOverOneMore(tokens: seq<Bytes>, rows: seq<Row>, r: Row, b: InventoryBucket)
    requires Distinct(tokens)
    ensures SumOver(tokens, rows + [r], b)
         == SumOver(tokens, rows, b) + if r.token in tokens && r.bucket == b then r.quantity else 0.0
  {
    if tokens != [] {
      var n := |tokens| - 1;
      SumOverOneMore(tokens[..n], rows, r, b);
      assert (rows + [r])[..|rows|] == rows;
      assert r.token in tokens <==> r.token in tokens[..n] || r.token == tokens[n];
    }
  }

  lemma {:induction false} SumOverAllTokens(tokens: seq<Bytes>, rows: seq<Row>, b: InventoryBucket)
    requires Distinct(tokens) && forall i :: 0 <= i < |rows| ==> rows[i].token in tokens
    ensures SumOver(tokens, rows, b) == Total(rows, b)
  {
    if rows == [] {
      SumOverNothing(tokens, b);
    } else {
      var n := |rows| - 1;
      SumOverAllTokens(tokens, rows[..n], b);
      SumOverOneMore(tokens, rows[..n], rows[n], b);
      assert rows == rows[..n] + [rows[n]];
    }
  }

  function Token(m: MemberExposure): Bytes {
    m.token
  }

  lemma {:induction false} MemberSumIsSumOver(members: seq<MemberExposure>, rows: seq<Row>, ids: Identifiers,
                                              b: InventoryBucket)
    requires forall i :: 0 <= i < |members| ==> IsMember(members[i], rows, ids)
    ensures MemberSum(members, b) == SumOver(Map(Token, members), rows, b)
  {
    if members != [] {
      var n := |members| - 1;
      MemberSumIsSumOver(members[..n], rows, ids, b);
      assert Map(Token, members)[..n] == Map(Token, members[..n]);
    }
  }

  /** What the members hold in a bucket is what the rows hold in it. */
  lemma MembersConserveInventory(members: seq<MemberExposure>, rows: seq<Row>, ids: Identifiers, b: InventoryBucket)
    requires StrictlyByToken(members) && AreMembers(members, rows, ids)
    ensures MemberSum(members, b) == Total(rows, b)
  {
    var tokens := Map(Token, members);
    MemberSumIsSumOver(members, rows, ids, b);
    forall i | 0 <= i < |rows| ensures rows[i].token in tokens {
      var j :| 0 <= j < |members| && members[j].token == rows[i].token;
      assert tokens[j] == rows[i].token;
    }
    SumOverAllTokens(tokens, rows, b);
  }

  // ----- Row order -----

  lemma {:induction false} SumSplits(a: seq<Row>, r: Row, c: seq<Row>, token: Bytes, b: InventoryBucket)
    ensures Sum(a + [r] + c, token, b) == Sum([r], token, b) + Sum(a + c, token, b)
    ensures Total(a + [r] + c, b) == Total([r], b) + Total(a + c, b)
  {
    if c == [] {
      assert a + [r] + c == a + [r] && a + c == a;
      assert (a + [r])[..|a|] == a;
    } else {
      var n := |c| - 1;
      SumSplits(a, r, c[..n], token, b);
      assert (a + [r] + c)[..|a| + 1 + n] == a + [r] + c[..n];
      assert (a + c)[..|a| + n] == a + c[..n];
    }
  }

  /** Taking out one row. */
  lemma SumsWithout(x: seq<Row>, j: nat, token: Bytes, b: InventoryBucket)
    requires j < |x|
    ensures var rest := x[..j] + x[j + 1..];
            && multiset(rest) == multiset(x) - multiset{x[j]}
            && Sum(x, token, b) == Sum([x[j]], token, b) + Sum(rest, token, b)
            && Total(x, b) == Total([x[j]], b) + Total(rest, b)
  {
    assert x == x[..j] + [x[j]] + x[j + 1..];
    SumSplits(x[..j], x[j], x[j + 1..], token, b);
  }

  lemma {:induction false} SumsIgnoreOrder(x: seq<Row>, y: seq<Row>, token: Bytes, b: InventoryBucket)
    requires multiset(x) == multiset(y)
    ensures Sum(x, token, b) == Sum(y, token, b) && Total(x, b) == Total(y, b)
  {
    if x == [] {
      assert |y| == |multiset(x)|;
    } else {
      RowsAt(x, y, 0);
      var j :| 0 <= j < |y| && y[j] == x[0];
      SumsWithout(x, 0, token, b);
      SumsWithout(y, j, token, b);
      SumsIgnoreOrder(x[..0] + x[1..], y[..j] + y[j + 1..], token, b);
    }
  }

  lemma RowsAt(x: seq<Row>, y: seq<Row>, i: nat)
    requires multiset(x) == multiset(y) && i < |x|
    ensures exists j :: 0 <= j < |y| && y[j] == x[i]
  {
    assert x[i] in multiset(y);
  }

  lemma MembersWithin(x: seq<MemberExposure>, rows: seq<Row>, y: seq<MemberExposure>, others: seq<Row>,
                      ids: Identifiers)
    requires AreMembers(x, rows, ids) && AreMembers(y, others, ids) && multiset(rows) == multiset(others)
    ensures forall i :: 0 <= i < |x| ==> x[i] in y
  {
    forall i | 0 <= i < |x| ensures x[i] in y {
      var m := x[i];
      var k :| 0 <= k < |rows| && rows[k].token == m.token;
      RowsAt(rows, others, k);
      var l :| 0 <= l < |others| && others[l] == rows[k];
      var j :| 0 <= j < |y| && y[j].token == others[l].token;
      SameMember(m, rows, y[j], others, ids);
    }
  }

  lemma HasRowIgnoresOrder(x: seq<Row>, y: seq<Row>, token: Bytes, b: InventoryBucket)
    requires multiset(x) == multiset(y)
    ensures HasRow(x, token, b) ==> HasRow(y, token, b)
    ensures HasBucket(x, b) ==> HasBucket(y, b)
  {
    forall i | 0 <= i < |x| ensures exists j :: 0 <= j < |y| && y[j] == x[i] {
      RowsAt(x, y, i);
    }
  }

  lemma SameMember(m: MemberExposure, rows: seq<Row>, n: MemberExposure, others: seq<Row>, ids: Identifiers)
    requires IsMember(m, rows, ids) && IsMember(n, others, ids) && m.token == n.token
             && multiset(rows) == multiset(others)
    ensures m == n
  {
    forall b ensures b in m.quantities <==> b in n.quantities
             ensures At(m.quantities, b) == At(n.quantities, b) {
      HasRowIgnoresOrder(rows, others, m.token, b);
      HasRowIgnoresOrder(others, rows, m.token, b);
      SumsIgnoreOrder(rows, others, m.token, b);
    }
    SameQuantities(m.quantities, n.quantities);
  }

  lemma SameQuantities(x: Quantities, y: Quantities)
    requires forall b :: (b in x <==> b in y) && At(x, b) == At(y, b)
    ensures x == y
  {
    assert x.Keys == y.Keys;
    forall b | b in x ensures x[b] == y[b] {
      assert At(x, b) == At(y, b);
    }
  }

  lemma TokensWithin(x: seq<MemberExposure>, y: seq<MemberExposure>)
    requires forall i :: 0 <= i < |x| ==> x[i] in y
    ensures forall t :: t in Map(Token, x) ==> t in Map(Token, y)
  {
    forall t | t in Map(Token, x) ensures t in Map(Token, y) {
      var i :| 0 <= i < |x| && Map(Token, x)[i] == t;
      var j :| 0 <= j < |y| && y[j] == x[i];
      assert Map(Token, y)[j] == t;
    }
  }

  /** Two strictly ordered member lists with the same elements are one list. */
  lemma SameElementsSameList(x: seq<MemberExposure>, y: seq<MemberExposure>)
    requires StrictlyByToken(x) && StrictlyByToken(y)
    requires forall i :: 0 <= i < |x| ==> x[i] in y
    requires forall i :: 0 <= i < |y| ==> y[i] in x
    ensures x == y
  {
    TokensWithin(x, y);
    TokensWithin(y, x);
    AscendingUnique(Map(Token, x), Map(Token, y));
    forall i | 0 <= i < |x| ensures x[i] == y[i] {
      var j :| 0 <= j < |y| && y[j] == x[i];
      assert Map(Token, x)[i] == Map(Token, y)[i];
    }
  }

  /** The vector does not depend on the order of the rows. */
  lemma RowOrderDoesNotMatter(x: ExposureVector, rows: seq<Row>, y: ExposureVector, others: seq<Row>, ids: Identifiers)
    requires multiset(rows) == multiset(others)
    requires IsExposure(x, rows, ids) && IsExposure(y, others, ids)
    ensures x == y
  {
    RowsAt(rows, others, 0);
    MembersWithin(x.members, rows, y.members, others, ids);
    MembersWithin(y.members, others, x.members, rows, ids);
    SameElementsSameList(x.members, y.members);
    forall b ensures (b in x.rollup <==> b in y.rollup) && At(x.rollup, b) == At(y.rollup, b) {
      HasRowIgnoresOrder(rows, others, "", b);
      HasRowIgnoresOrder(others, rows, "", b);
      SumsIgnoreOrder(rows, others, "", b);
    }
    SameQuantities(x.rollup, y.rollup);
  }

  /** Whether the rows form one family does not depend on their order either. */
  lemma SuccessIgnoresOrder(rows: seq<Row>, others: seq<Row>, ids: Identifiers, family: Bytes)
    requires multiset(rows) == multiset(others) && OneFamily(rows, ids, family)
    ensures OneFamily(others, ids, family)
  {
    assert |rows| == |multiset(rows)| == |multiset(others)| == |others|;
    forall i | 0 <= i < |others| ensures RowFamily(ids, others[i].token) == Ok(family) {
      RowsAt(others, rows, i);
    }
  }

  // ----- from_inventory -----

  type Members = map<Bytes, MemberExposure>

  ghost predicate Collected(members: Members, rows: seq<Row>, ids: Identifiers) {
    && (forall t :: t in members ==> HasToken(rows, t) && members[t].token == t && IsMember(members[t], rows, ids))
    && (forall i :: 0 <= i < |rows| ==> rows[i].token in members)
  }

  function Added(m: MemberExposure, row: Row): MemberExposure {
    m.(quantities := m.quantities[row.bucket := At(m.quantities, row.bucket) + row.quantity])
  }

  lemma HasRowOneMore(rows: seq<Row>, r: Row, token: Bytes, b: InventoryBucket)
    ensures HasRow(rows + [r], token, b) <==> HasRow(rows, token, b) || (r.token == token && r.bucket == b)
    ensures HasToken(rows + [r], token) <==> HasToken(rows, token) || r.token == token
    ensures HasBucket(rows + [r], b) <==> HasBucket(rows, b) || r.bucket == b
    ensures Sum(rows + [r], token, b)
         == Sum(rows, token, b) + if r.token == token && r.bucket == b then r.quantity else 0.0
    ensures Total(rows + [r], b) == Total(rows, b) + if r.bucket == b then r.quantity else 0.0
  {
    var all := rows + [r];
    assert all[..|rows|] == rows && all[|rows|] == r;
    assert forall i :: 0 <= i < |rows| ==> all[i] == rows[i];
  }

  lemma MemberOneMore(m: MemberExposure, rows: seq<Row>, row: Row, ids: Identifiers)
    requires IsMember(m, rows, ids)
    ensures IsMember(if row.token == m.token then Added(m, row) else m, rows + [row], ids)
  {
    forall b
      ensures HasRow(rows + [row], m.token, b)
              <==> HasRow(rows, m.token, b) || (row.token == m.token && row.bucket == b)
             ensures Sum(rows + [row], m.token, b)
                  == Sum(rows, m.token, b) + if row.token == m.token && row.bucket == b then row.quantity else 0.0 {
      HasRowOneMore(rows, row, m.token, b);
    }
  }

  lemma {:induction false} NoRowsNoSum(rows: seq<Row>, token: Bytes, b: InventoryBucket)
    requires !HasRow(rows, token, b)
    ensures Sum(rows, token, b) == 0.0
  {
    if rows != [] {
      var n := |rows| - 1;
      assert rows == rows[..n] + [rows[n]];
      HasRowOneMore(rows[..n], rows[n], token, b);
      NoRowsNoSum(rows[..n], token, b);
    }
  }

  /** The member a first row of its token starts from. */
  lemma EmptyMember(token: Bytes, rows: seq<Row>, ids: Identifiers)
    requires !HasToken(rows, token)
    ensures IsMember(MemberExposure(token, Label(ids, token), map[]), rows, ids)
  {
    forall b ensures !HasRow(rows, token, b) && Sum(rows, token, b) == 0.0 {
      NoRowsNoSum(rows, token, b);
    }
  }

  function Entry(members: Members, token: Bytes, ids: Identifiers): MemberExposure {
    if token in members then members[token] else MemberExposure(token, Label(ids, token), map[])
  }

  lemma EntryOneMore(members: Members, rows: seq<Row>, row: Row, ids: Identifiers, t: Bytes)
    requires Collected(members, rows, ids) && (t in members || t == row.token)
    ensures HasToken(rows + [row], t)
    ensures var m := Entry(members, t, ids); IsMember(if t == row.token then Added(m, row) else m, rows + [row], ids)
    ensures Entry(members, t, ids).token == t
  {
    if t !in members {
      assert !HasToken(rows, t);
      EmptyMember(t, rows, ids);
    }
    MemberOneMore(Entry(members, t, ids), rows, row, ids);
    HasRowOneMore(rows, row, t, row.bucket);
  }

  lemma CollectedOneMore(members: Members, rows: seq<Row>, row: Row, ids: Identifiers)
    requires Collected(members, rows, ids)
    ensures Collected(members[row.token := Added(Entry(members, row.token, ids), row)], rows + [row], ids)
  {
    var after := members[row.token := Added(Entry(members, row.token, ids), row)];
    forall t | t in after
      ensures HasToken(rows + [row], t) && after[t].token == t && IsMember(after[t], rows + [row], ids)
    {
      EntryOneMore(members, rows, row, ids, t);
    }
  }

  /** One turn of the first loop, after its checks. */
  method AddRow(members: Members, row: Row, ids: Identifiers, ghost rows: seq<Row>) returns (r: Members)
    requires Collected(members, rows, ids)
    ensures Collected(r, rows + [row], ids)
  {
    CollectedOneMore(members, rows, row, ids);
    var entry := if row.token in members then members[row.token]
                 else MemberExposure(row.token, ids.OutcomeLabelForToken(row.token).GetOr(row.token), map[]);
    assert entry == Entry(members, row.token, ids);
    var quantity := if row.bucket in entry.quantities then entry.quantities[row.bucket] + row.quantity
                    else row.quantity;
    var more := entry.(quantities := entry.quantities[row.bucket := quantity]);
    assert more == Added(entry, row);
    r := members[row.token := more];
  }

  /** The map's values, each once. */
  ghost predicate AreValues(values: seq<MemberExposure>, members: Members) {
    && (forall i :: 0 <= i < |values| ==> values[i].token in members && values[i] == members[values[i].token])
    && (forall t :: t in members ==> members[t] in values)
    && Distinct(values)
  }

  /** `into_values().collect()`, in no particular order. */
  method Values(members: Members) returns (values: seq<MemberExposure>)
    requires forall t :: t in members ==> members[t].token == t
    ensures AreValues(values, members)
  {
    var keys: set<Bytes> := members.Keys;
    values := [];
    while keys != {}
      invariant keys <= members.Keys
      invariant forall i :: 0 <= i < |values| ==>
                  values[i].token in members.Keys - keys && values[i] == members[values[i].token]
      invariant forall t :: t in members.Keys - keys ==> members[t] in values
      invariant forall i, j :: 0 <= i < j < |values| ==> values[i] != values[j]
      decreases |keys|
    {
      var k :| k in keys;
      assert members[k].token == k;
      values, keys := values + [members[k]], keys - {k};
    }
  }

  /** The values sorted by token. */
  method SortedValues(members: Members, ghost rows: seq<Row>, ids: Identifiers) returns (sorted: seq<MemberExposure>)
    requires Collected(members, rows, ids)
    ensures StrictlyByToken(sorted) && AreMembers(sorted, rows, ids)
  {
    var values := Values(members);
    sorted := Sort(values, TokenLeq);
    SortMembers(values, TokenLeq);
    SortKeepsDistinct(values, TokenLeq);
    TokenLeqIsOrder();
    SortSorts(values, TokenLeq);
    SortedAreMembers(members, values, sorted, rows, ids);
  }

  lemma SortedAreMembers(members: Members, values: seq<MemberExposure>, sorted: seq<MemberExposure>, rows: seq<Row>,
                         ids: Identifiers)
    requires Collected(members, rows, ids) && AreValues(values, members)
    requires forall m :: m in sorted <==> m in values
    requires Distinct(sorted) && Sorted(sorted, TokenLeq)
    ensures StrictlyByToken(sorted) && AreMembers(sorted, rows, ids)
  {
    forall i | 0 <= i < |sorted| ensures sorted[i].token in members && sorted[i] == members[sorted[i].token] {
      assert sorted[i] in values;
    }
    forall i | 0 <= i < |rows| ensures Lists(sorted, rows[i].token) {
      var m := members[rows[i].token];
      assert m in sorted;
      var j :| 0 <= j < |sorted| && sorted[j] == m;
    }
  }

  predicate TokenLeq(a: MemberExposure, b: MemberExposure) {
    StrLeq(a.token, b.token)
  }

  lemma TokenLeqIsOrder()
    ensures TotalPreorder(TokenLeq)
  {
    forall a, b ensures TokenLeq(a, b) || TokenLeq(b, a) { StrLeqTotal(a.token, b.token); }
    forall a, b, c | TokenLeq(a, b) && TokenLeq(b, c) ensures TokenLeq(a, c) {
      StrLeqTransitive(a.token, b.token, c.token);
    }
  }

  /** The rollup loops: adds every bucket of every member, in any order. */
  method Rollup(members: seq<MemberExposure>) returns (rollup: Quantities)
    ensures forall b :: At(rollup, b) == MemberSum(members, b)
    ensures forall b :: b in rollup <==> exists i :: 0 <= i < |members| && b in members[i].quantities
  {
    rollup := map[];
    for n := 0 to |members|
      invariant forall b :: At(rollup, b) == MemberSum(members[..n], b)
      invariant forall b :: b in rollup <==> exists i :: 0 <= i < n && b in members[i].quantities
    {
      var before := rollup;
      rollup := AddAll(rollup, members[n].quantities);
      assert members[..n + 1][..n] == members[..n];
    }
    assert members[..|members|] == members;
  }

  method AddAll(rollup: Quantities, quantities: Quantities) returns (r: Quantities)
    ensures forall b :: At(r, b) == At(rollup, b) + At(quantities, b)
    ensures forall b :: b in r <==> b in rollup || b in quantities
  {
    r := rollup;
    var left := quantities.Keys;
    while left != {}
      invariant left <= quantities.Keys
      invariant forall b :: At(r, b) == At(rollup, b) + if b in left then 0.0 else At(quantities, b)
      invariant forall b :: b in r <==> b in rollup || (b in quantities && b !in left)
      decreases |left|
    {
      var b :| b in left;
      r := r[b := (if b in r then r[b] else 0.0) + quantities[b]];
      left := left - {b};
    }
  }

  lemma RollupIsRollup(rollup: Quantities, members: seq<MemberExposure>, rows: seq<Row>, ids: Identifiers)
    requires StrictlyByToken(members) && AreMembers(members, rows, ids)
    requires forall b :: At(rollup, b) == MemberSum(members, b)
    requires forall b :: b in rollup <==> exists i :: 0 <= i < |members| && b in members[i].quantities
    ensures IsRollup(rollup, rows)
  {
    forall b ensures (b in rollup <==> HasBucket(rows, b)) && At(rollup, b) == Total(rows, b) {
      MembersConserveInventory(members, rows, ids, b);
      if i :| 0 <= i < |rows| && rows[i].bucket == b {
        var j :| 0 <= j < |members| && members[j].token == rows[i].token;
        assert HasRow(rows, members[j].token, b);
      }
      if i :| 0 <= i < |members| && b in members[i].quantities {
        assert HasRow(rows, members[i].token, b);
      }
    }
  }

  lemma ErrorMeansNoFamily(rows: seq<Row>, n: nat, ids: Identifiers, e: ExposureError, family: Bytes)
    requires FirstError(rows, n, ids, e)
    ensures !OneFamily(rows, ids, family)
  {
    if RowFamily(ids, rows[n].token).Ok? {
      var f :| OneFamily(rows[..n], ids, f) && f != RowFamily(ids, rows[n].token).value;
      assert rows[..n][0] == rows[0];
    }
  }

  /** Succeeds exactly when there are rows and they share one neg-risk family. The vector then
      conserves the inventory: in every bucket the rollup is the sum over members and the sum over
      rows. Otherwise the first row that stands in the way is reported. */
  method FromInventory(inventory: seq<Row>, ids: Identifiers) returns (r: Result<ExposureVector, ExposureError>)
    ensures r.Ok? <==> exists f :: OneFamily(inventory, ids, f)
    ensures r.Ok? ==> && IsExposure(r.value, inventory, ids)
                      && forall b :: At(r.value.rollup, b) == MemberSum(r.value.members, b) == Total(inventory, b)
    ensures r.Err? ==> if inventory == [] then r.error == EmptyInventory
                       else exists n :: FirstError(inventory, n, ids, r.error)
  {
    if inventory == [] {
      return Err(EmptyInventory);
    }
    var members: Members := map[];
    var family: Option<Bytes> := None;
    var n := 0;
    while n < |inventory|
      invariant 0 <= n <= |inventory|
      invariant Collected(members, inventory[..n], ids)
      invariant if n == 0 then family.None? else family.Some? && OneFamily(inventory[..n], ids, family.value)
    {
      var found := RowFamily(ids, inventory[n].token);
      if found.Err? {
        r := Err(found.error);
        assert FirstError(inventory, n, ids, r.error);
        ReportedFirst(inventory, n, ids, r.error);
        return;
      }
      if family.Some? && family.value != found.value {
        var e := MixedFamily(inventory[n].token, family.value, found.value);
        ReportedFirst(inventory, n, ids, e);
        return Err(e);
      }
      family := Some(found.value);
      members := AddRow(members, inventory[n], ids, inventory[..n]);
      assert inventory[..n] + [inventory[n]] == inventory[..n + 1];
      n := n + 1;
    }
    assert inventory[..n] == inventory;
    var sorted := SortedValues(members, inventory, ids);
    var rollup := Rollup(sorted);
    RollupIsRollup(rollup, sorted, inventory, ids);
    r := Ok(ExposureVector(family.value, sorted, rollup, |sorted|));
    assert OneFamily(inventory, ids, family.value);
  }

  lemma ReportedFirst(rows: seq<Row>, n: nat, ids: Identifiers, e: ExposureError)
    requires FirstError(rows, n, ids, e)
    ensures forall f :: !OneFamily(rows, ids, f)
  {
    forall f ensures !OneFamily(rows, ids, f) {
      ErrorMeansNoFamily(rows, n, ids, e, f);
    }
  }
}
