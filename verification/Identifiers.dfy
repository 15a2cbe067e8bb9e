/** crates/domain/src/identifiers.rs: which condition a token belongs to and what is known of a
    condition, collected from records that may disagree. */
module Identifiers {
  import opened Options
  import opened OrderedKeys
  import opened Text

  datatype MarketRoute = Standard | NegRisk

  datatype IdentifierRecord = IdentifierRecord(
    eventId: Bytes, familyId: Bytes, marketId: Bytes, conditionId: Bytes,
    tokenId: Bytes, outcomeLabel: Bytes, route: MarketRoute)

  datatype TokenMetadata = TokenMetadata(conditionId: Bytes, outcomeLabel: Option<Bytes>)

  datatype ConditionMetadata = ConditionMetadata(
    marketId: Option<Bytes>, eventId: Option<Bytes>, familyId: Option<Bytes>, route: Option<MarketRoute>)

  datatype IdentifierMapError =
    | ConflictingTokenCondition(tokenId: Bytes, existingCondition: Bytes, newCondition: Bytes)
    | ConflictingConditionRoute(conditionId: Bytes, existingRoute: MarketRoute, newRoute: MarketRoute)
    | ConflictingTokenMetadata(tokenId: Bytes)
    | ConflictingConditionMetadata(conditionId: Bytes)

  // ----- Merging what is known of a condition -----

  /** `merge_optional`: nothing when both sides are present and differ. */
  function MergeOptional<T(==)>(existing: Option<T>, incoming: Option<T>): Option<Option<T>> {
    if existing.Some? && incoming.Some? && existing != incoming then None else Some(existing.Or(incoming))
  }

  /** `merge_metadata`. */
  function MergeMetadata(existing: ConditionMetadata, incoming: ConditionMetadata): Option<ConditionMetadata> {
    var market := MergeOptional(existing.marketId, incoming.marketId);
    var event := MergeOptional(existing.eventId, incoming.eventId);
    var family := MergeOptional(existing.familyId, incoming.familyId);
    var route := MergeOptional(existing.route, incoming.route);
    if market.None? || event.None? || family.None? || route.None? then None
    else Some(ConditionMetadata(market.value, event.value, family.value, route.value))
  }

  /** Merging with something that may already have failed. */
  function Then(a: Option<ConditionMetadata>, b: Option<ConditionMetadata>): Option<ConditionMetadata> {
    if a.None? || b.None? then None else MergeMetadata(a.value, b.value)
  }

  /** a says nothing that b does not say. */
  predicate Within(a: ConditionMetadata, b: ConditionMetadata) {
    && (a.marketId.Some? ==> b.marketId == a.marketId)
    && (a.eventId.Some? ==> b.eventId == a.eventId)
    && (a.familyId.Some? ==> b.familyId == a.familyId)
    && (a.route.Some? ==> b.route == a.route)
  }

  /** Merging is the least upper bound in the order of saying more, where there is one. */
  lemma MergeIsLeastUpperBound(a: ConditionMetadata, b: ConditionMetadata, c: ConditionMetadata)
    ensures MergeMetadata(a, b).Some? <==> exists d :: Within(a, d) && Within(b, d)
    ensures MergeMetadata(a, b).Some? ==>
            (Within(a, c) && Within(b, c) <==> Within(MergeMetadata(a, b).value, c))
  {
    var m := MergeMetadata(a, b);
    if m.Some? {
      assert Within(a, m.value) && Within(b, m.value);
    }
  }

  lemma MergeIsCommutativeAssociativeIdempotent(a: ConditionMetadata, b: ConditionMetadata, c: ConditionMetadata)
    ensures MergeMetadata(a, b) == MergeMetadata(b, a)
    ensures Then(MergeMetadata(a, b), Some(c)) == Then(Some(a), MergeMetadata(b, c))
    ensures MergeMetadata(a, a) == Some(a)
  {
  }

  // ----- What a collection of records says -----

  function ConditionSays(r: IdentifierRecord): ConditionMetadata {
    ConditionMetadata(Some(r.marketId), Some(r.eventId), Some(r.familyId), Some(r.route))
  }

  function TokenSays(r: IdentifierRecord): TokenMetadata {
    TokenMetadata(r.conditionId, Some(r.outcomeLabel))
  }

  /** How a record contradicts what an earlier one said about its token. */
  function TokenClash(old_: IdentifierRecord, new_: IdentifierRecord): Option<IdentifierMapError> {
    if old_.tokenId != new_.tokenId || TokenSays(old_) == TokenSays(new_) then None
    else if old_.conditionId != new_.conditionId
    then Some(ConflictingTokenCondition(new_.tokenId, old_.conditionId, new_.conditionId))
    else Some(ConflictingTokenMetadata(new_.tokenId))
  }

  function ConditionClash(old_: IdentifierRecord, new_: IdentifierRecord): Option<IdentifierMapError> {
    if old_.conditionId != new_.conditionId || ConditionSays(old_) == ConditionSays(new_) then None
    else if old_.route != new_.route
    then Some(ConflictingConditionRoute(new_.conditionId, old_.route, new_.route))
    else Some(ConflictingConditionMetadata(new_.conditionId))
  }

  predicate Agree(a: IdentifierRecord, b: IdentifierRecord) {
    && (a.tokenId == b.tokenId ==> a.conditionId == b.conditionId && a.outcomeLabel == b.outcomeLabel)
    && (a.conditionId == b.conditionId ==>
          a.marketId == b.marketId && a.eventId == b.eventId && a.familyId == b.familyId && a.route == b.route)
  }

  ghost predicate Consistent(records: seq<IdentifierRecord>) {
    forall a, b :: a in records && b in records ==> Agree(a, b)
  }

  datatype Identifiers = Identifiers(tokens: map<Bytes, TokenMetadata>, conditions: map<Bytes, ConditionMetadata>) {
    function ConditionForToken(t: Bytes): Option<Bytes> {
      if t in tokens then Some(tokens[t].conditionId) else None
    }
    function OutcomeLabelForToken(t: Bytes): Option<Bytes> {
      if t in tokens then tokens[t].outcomeLabel else None
    }
    function MarketForCondition(c: Bytes): Option<Bytes> {
      if c in conditions then conditions[c].marketId else None
    }
    function EventForCondition(c: Bytes): Option<Bytes> {
      if c in conditions then conditions[c].eventId else None
    }
    function FamilyForCondition(c: Bytes): Option<Bytes> {
      if c in conditions then conditions[c].familyId else None
    }
    function RouteForCondition(c: Bytes): Option<MarketRoute> {
      if c in conditions then conditions[c].route else None
    }
  }

  ghost predicate IndexesTokens(tokens: map<Bytes, TokenMetadata>, records: seq<IdentifierRecord>) {
    && (forall i :: 0 <= i < |records| ==>
          records[i].tokenId in tokens && tokens[records[i].tokenId] == TokenSays(records[i]))
    && (forall t :: t in tokens ==> exists i :: 0 <= i < |records| && records[i].tokenId == t)
  }

  ghost predicate IndexesConditions(conditions: map<Bytes, ConditionMetadata>, records: seq<IdentifierRecord>) {
    && (forall i :: 0 <= i < |records| ==>
          records[i].conditionId in conditions && conditions[records[i].conditionId] == ConditionSays(records[i]))
    && (forall c :: c in conditions ==> exists i :: 0 <= i < |records| && records[i].conditionId == c)
  }

  /** The maps hold what the records say about their tokens and conditions, and nothing else. */
  ghost predicate Indexes(ids: Identifiers, records: seq<IdentifierRecord>) {
    IndexesTokens(ids.tokens, records) && IndexesConditions(ids.conditions, records)
  }

  lemma IndexedAreConsistent(ids: Identifiers, records: seq<IdentifierRecord>)
    requires Indexes(ids, records)
    ensures Consistent(records)
  {
    forall a, b | a in records && b in records ensures Agree(a, b) {
      var i :| 0 <= i < |records| && records[i] == a;
      var j :| 0 <= j < |records| && records[j] == b;
      assert a.tokenId == b.tokenId ==> TokenSays(a) == TokenSays(b);
      assert a.conditionId == b.conditionId ==> ConditionSays(a) == ConditionSays(b);
    }
  }

  lemma TokensAgree(x: map<Bytes, TokenMetadata>, a: seq<IdentifierRecord>,
                    y: map<Bytes, TokenMetadata>, b: seq<IdentifierRecord>)
    requires forall i :: 0 <= i < |a| ==> a[i] in b
    requires IndexesTokens(x, a) && IndexesTokens(y, b)
    ensures forall t :: t in x ==> t in y && x[t] == y[t]
  {
    forall t | t in x ensures t in y && x[t] == y[t] {
      var i :| 0 <= i < |a| && a[i].tokenId == t;
      var j :| 0 <= j < |b| && b[j] == a[i];
    }
  }

  lemma ConditionsAgree(x: map<Bytes, ConditionMetadata>, a: seq<IdentifierRecord>,
                        y: map<Bytes, ConditionMetadata>, b: seq<IdentifierRecord>)
    requires forall i :: 0 <= i < |a| ==> a[i] in b
    requires IndexesConditions(x, a) && IndexesConditions(y, b)
    ensures forall c :: c in x ==> c in y && x[c] == y[c]
  {
    forall c | c in x ensures c in y && x[c] == y[c] {
      var i :| 0 <= i < |a| && a[i].conditionId == c;
      var j :| 0 <= j < |b| && b[j] == a[i];
    }
  }

  /** Records in another order, or repeated, make the same maps. */
  lemma OrderDoesNotMatter(x: Identifiers, a: seq<IdentifierRecord>, y: Identifiers, b: seq<IdentifierRecord>)
    requires forall i :: 0 <= i < |a| ==> a[i] in b
    requires forall i :: 0 <= i < |b| ==> b[i] in a
    requires Indexes(x, a) && Indexes(y, b)
    ensures x == y
  {
    TokensAgree(x.tokens, a, y.tokens, b);
    TokensAgree(y.tokens, b, x.tokens, a);
    SameMaps(x.tokens, y.tokens);
    ConditionsAgree(x.conditions, a, y.conditions, b);
    ConditionsAgree(y.conditions, b, x.conditions, a);
    SameMaps(x.conditions, y.conditions);
  }

  /** Every field of every record comes back from the lookups. */
  lemma LookupsReturnRecords(ids: Identifiers, records: seq<IdentifierRecord>, r: IdentifierRecord)
    requires Indexes(ids, records) && r in records
    ensures ids.ConditionForToken(r.tokenId) == Some(r.conditionId)
    ensures ids.OutcomeLabelForToken(r.tokenId) == Some(r.outcomeLabel)
    ensures ids.MarketForCondition(r.conditionId) == Some(r.marketId)
    ensures ids.EventForCondition(r.conditionId) == Some(r.eventId)
    ensures ids.FamilyForCondition(r.conditionId) == Some(r.familyId)
    ensures ids.RouteForCondition(r.conditionId) == Some(r.route)
  {
    var i :| 0 <= i < |records| && records[i] == r;
    assert ids.tokens[r.tokenId] == TokenSays(r) && ids.conditions[r.conditionId] == ConditionSays(r);
  }

  /** The error of the first record that disagrees with one before it: about its token if it can be. */
  ghost predicate FirstClash(records: seq<IdentifierRecord>, n: nat, e: IdentifierMapError)
    requires n < |records|
  {
    && Consistent(records[..n])
    && if exists i :: 0 <= i < n && TokenClash(records[i], records[n]).Some?
       then exists i :: 0 <= i < n && TokenClash(records[i], records[n]) == Some(e)
       else exists i :: 0 <= i < n && ConditionClash(records[i], records[n]) == Some(e)
  }

  lemma TokenRefused(ids: Identifiers, before: seq<IdentifierRecord>, record: IdentifierRecord, e: IdentifierMapError)
    requires Indexes(ids, before)
    requires record.tokenId in ids.tokens && ids.tokens[record.tokenId] != TokenSays(record)
    requires e == var c := ids.tokens[record.tokenId].conditionId;
                  if c != record.conditionId then ConflictingTokenCondition(record.tokenId, c, record.conditionId)
                  else ConflictingTokenMetadata(record.tokenId)
    ensures FirstClash(before + [record], |before|, e)
  {
    var records, n := before + [record], |before|;
    IndexedAreConsistent(ids, before);
    assert records[..n] == before;
    var i :| 0 <= i < n && before[i].tokenId == record.tokenId;
    assert TokenClash(records[i], records[n]) == Some(e);
  }

  lemma ConditionRefused(ids: Identifiers, before: seq<IdentifierRecord>, record: IdentifierRecord,
                         e: IdentifierMapError)
    requires Indexes(ids, before)
    requires record.tokenId !in ids.tokens || ids.tokens[record.tokenId] == TokenSays(record)
    requires record.conditionId in ids.conditions && ids.conditions[record.conditionId] != ConditionSays(record)
    requires e == var route := ids.conditions[record.conditionId].route;
                  if route.Some? && route != Some(record.route)
                  then ConflictingConditionRoute(record.conditionId, route.value, record.route)
                  else ConflictingConditionMetadata(record.conditionId)
    ensures FirstClash(before + [record], |before|, e)
  {
    var records, n := before + [record], |before|;
    IndexedAreConsistent(ids, before);
    assert records[..n] == before;
    forall i | 0 <= i < n ensures TokenClash(records[i], records[n]).None? {
      assert records[i] == before[i];
    }
    var i :| 0 <= i < n && before[i].conditionId == record.conditionId;
    assert ConditionClash(records[i], records[n]) == Some(e);
  }

  lemma TokensExtended(tokens: map<Bytes, TokenMetadata>, before: seq<IdentifierRecord>, record: IdentifierRecord)
    requires IndexesTokens(tokens, before)
    requires record.tokenId !in tokens || tokens[record.tokenId] == TokenSays(record)
    ensures IndexesTokens(tokens[record.tokenId := TokenSays(record)], before + [record])
  {
    var records := before + [record];
    assert records[|before|] == record;
    forall t | t in tokens ensures exists i :: 0 <= i < |records| && records[i].tokenId == t {
      var i :| 0 <= i < |before| && before[i].tokenId == t;
      assert records[i].tokenId == t;
    }
  }

  lemma ConditionsExtended(
      conditions: map<Bytes, ConditionMetadata>, before: seq<IdentifierRecord>, record: IdentifierRecord)
    requires IndexesConditions(conditions, before)
    requires record.conditionId !in conditions || conditions[record.conditionId] == ConditionSays(record)
    ensures IndexesConditions(conditions[record.conditionId := ConditionSays(record)], before + [record])
  {
    var records := before + [record];
    assert records[|before|] == record;
    forall c | c in conditions ensures exists i :: 0 <= i < |records| && records[i].conditionId == c {
      var i :| 0 <= i < |before| && before[i].conditionId == c;
      assert records[i].conditionId == c;
    }
  }

  // ----- The map -----

  class IdentifierMap {
    var tokens: map<Bytes, TokenMetadata>
    var conditions: map<Bytes, ConditionMetadata>

    constructor ()
      ensures tokens == map[] && conditions == map[]
    {
      tokens, conditions := map[], map[];
    }

    function Lookups(): Identifiers
      reads this
    {
      Identifiers(tokens, conditions)
    }

    method InsertTokenMetadata(tokenId: Bytes, metadata: TokenMetadata) returns (e: Option<IdentifierMapError>)
      modifies this`tokens
      ensures e.None? <==> tokenId !in old(tokens) || old(tokens)[tokenId] == metadata
      ensures tokens == if e.None? then old(tokens)[tokenId := metadata] else old(tokens)
      ensures e.Some? ==>
                var existing := old(tokens)[tokenId].conditionId;
                e.value == if existing != metadata.conditionId
                           then ConflictingTokenCondition(tokenId, existing, metadata.conditionId)
                           else ConflictingTokenMetadata(tokenId)
    {
      if tokenId in tokens {
        var existing := tokens[tokenId];
        if existing.conditionId != metadata.conditionId {
          return Some(ConflictingTokenCondition(tokenId, existing.conditionId, metadata.conditionId));
        }
        if existing != metadata {
          return Some(ConflictingTokenMetadata(tokenId));
        }
        return None;
      }
      tokens := tokens[tokenId := metadata];
      e := None;
    }

    /** After the checks the merge cannot fail, so the entry is never lost. */
    method MergeConditionMetadata(conditionId: Bytes, incoming: ConditionMetadata)
      returns (e: Option<IdentifierMapError>)
      modifies this`conditions
      ensures var known := if conditionId in old(conditions) then MergeMetadata(old(conditions)[conditionId], incoming)
                           else Some(incoming);
              && (e.None? <==> known.Some?)
              && conditions == if known.Some? then old(conditions)[conditionId := known.value] else old(conditions)
      ensures e.Some? ==>
                var existing := old(conditions)[conditionId].route;
                e.value == if existing.Some? && incoming.route.Some? && existing != incoming.route
                           then ConflictingConditionRoute(conditionId, existing.value, incoming.route.value)
                           else ConflictingConditionMetadata(conditionId)
    {
      if conditionId in conditions {
        var existing := conditions[conditionId];
        if existing.route.Some? && incoming.route.Some? && existing.route != incoming.route {
          return Some(ConflictingConditionRoute(conditionId, existing.route.value, incoming.route.value));
        }
        if MergeMetadata(existing, incoming).None? {
          return Some(ConflictingConditionMetadata(conditionId));
        }
      }
      var merged := incoming;
      if conditionId in conditions {
        var existing := conditions[conditionId];
        conditions := conditions - {conditionId};
        merged := MergeMetadata(existing, incoming).value;
      }
      conditions := conditions[conditionId := merged];
      e := None;
    }

    /** One turn of `from_records`. */
    method Add(record: IdentifierRecord, ghost before: seq<IdentifierRecord>) returns (e: Option<IdentifierMapError>)
      requires Indexes(Lookups(), before)
      modifies this
      ensures e.None? ==> Indexes(Lookups(), before + [record])
      ensures e.Some? ==> FirstClash(before + [record], |before|, e.value)
    {
      ghost var ids := Lookups();
      e := InsertTokenMetadata(record.tokenId, TokenSays(record));
      if e.Some? {
        TokenRefused(ids, before, record, e.value);
        return;
      }
      e := MergeConditionMetadata(record.conditionId, ConditionSays(record));
      if e.Some? {
        ConditionRefused(ids, before, record, e.value);
        return;
      }
      TokensExtended(ids.tokens, before, record);
      ConditionsExtended(ids.conditions, before, record);
    }
  }

  ghost predicate ReportsFirstClash(records: seq<IdentifierRecord>, e: IdentifierMapError) {
    exists n :: 0 <= n < |records| && FirstClash(records, n, e)
  }

  /** `IdentifierMap::from_records`: succeeds exactly on consistent records and then says exactly
      what they say; otherwise the first record to disagree is reported. */
  method FromRecords(records: seq<IdentifierRecord>) returns (r: Result<IdentifierMap, IdentifierMapError>)
    ensures r.Ok? <==> Consistent(records)
    ensures r.Ok? ==> fresh(r.value) && Indexes(r.value.Lookups(), records)
    ensures r.Err? ==> ReportsFirstClash(records, r.error)
  {
    var m := new IdentifierMap();
    var e := AddAll(m, records);
    r := if e.Some? then Err(e.value) else Ok(m);
  }

  /** The loop of `from_records`. */
  method AddAll(m: IdentifierMap, records: seq<IdentifierRecord>) returns (e: Option<IdentifierMapError>)
    requires m.Lookups() == Identifiers(map[], map[])
    modifies m
    ensures e.None? ==> Consistent(records) && Indexes(m.Lookups(), records)
    ensures e.Some? ==> !Consistent(records) && ReportsFirstClash(records, e.value)
  {
    e := None;
    var n := 0;
    while n < |records| && e.None?
      invariant 0 <= n <= |records|
      invariant e.None? ==> Indexes(m.Lookups(), records[..n])
      invariant e.Some? ==> !Consistent(records) && ReportsFirstClash(records, e.value)
      decreases |records| - n
    {
      OneMore(records, n);
      e := m.Add(records[n], records[..n]);
      if e.Some? {
        ClashExtends(records, n, e.value);
      }
      n := n + 1;
    }
    if e.None? {
      assert records[..n] == records;
      IndexedAreConsistent(m.Lookups(), records);
    }
  }

  lemma OneMore(records: seq<IdentifierRecord>, n: nat)
    requires n < |records|
    ensures records[..n] + [records[n]] == records[..n + 1]
  {
  }

  lemma ClashExtends(records: seq<IdentifierRecord>, n: nat, e: IdentifierMapError)
    requires n < |records| && FirstClash(records[..n + 1], n, e)
    ensures FirstClash(records, n, e) && !Consistent(records) && ReportsFirstClash(records, e)
  {
    var prefix := records[..n + 1];
    assert prefix[..n] == records[..n];
    forall i | 0 <= i <= n ensures prefix[i] == records[i] && records[i] in records {}
    assert FirstClash(records, n, e);
  }
}
