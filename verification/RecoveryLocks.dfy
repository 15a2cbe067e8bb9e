/** crates/recovery/src/locks.rs: which recovery lock blocks which expansion. */
module RecoveryLocks {
  import opened Text

  datatype Kind = Market | Condition | Family | InventorySet | ExecutionPath

  datatype Lock = Lock(kind: Kind, id: Bytes)

  /** `kind_blocks`. */
  predicate KindBlocks(parent: Kind, candidate: Kind) {
    match parent
    case Market => candidate in {Market, ExecutionPath}
    case Condition => candidate in {Condition, Market, ExecutionPath}
    case Family => candidate in {Family, Condition, Market, ExecutionPath}
    case InventorySet => candidate == InventorySet
    case ExecutionPath => candidate == ExecutionPath
  }

  /** `scope_blocks`. */
  predicate ScopeBlocks(parent: Bytes, candidate: Bytes, allowExactMatch: bool) {
    if allowExactMatch && candidate == parent then true
    else
      var remainder := StripPrefix(candidate, parent);
      remainder.Some? && ":" <= remainder.value
  }

  predicate BlocksExpansion(lock: Lock, candidate: Lock) {
    && KindBlocks(lock.kind, candidate.kind)
    && ScopeBlocks(lock.id, candidate.id, lock.kind == candidate.kind)
  }

  // ----- Ids as paths -----

  /** The segments of an id between its colons. */
  function Path(id: Bytes): (r: seq<Bytes>)
    ensures r != []
    decreases |id|
  {
    var split := SplitOnce(id, ':');
    if split.None? then [id] else [split.value.0] + Path(split.value.1)
  }

  lemma PathCut(head: Bytes, tail: Bytes)
    requires ':' !in head
    ensures Path(head + [':'] + tail) == [head] + Path(tail)
  {
    SplitOnceAt(head, ':', tail);
  }

  lemma Reassociate(head: Bytes, tail: Bytes, rest: Bytes)
    ensures (head + [':'] + tail) + ":" + rest == head + [':'] + (tail + ":" + rest)
  {
  }

  lemma Prepend(x: Bytes, a: seq<Bytes>, b: seq<Bytes>)
    ensures [x] + (a + b) == ([x] + a) + b
  {
  }

  lemma PathExtendsBehind(head: Bytes, tail: Bytes, rest: Bytes)
    requires ':' !in head && Path(tail + ":" + rest) == Path(tail) + Path(rest)
    ensures Path((head + [':'] + tail) + ":" + rest) == Path(head + [':'] + tail) + Path(rest)
  {
    Reassociate(head, tail, rest);
    PathCut(head, tail + ":" + rest);
    PathCut(head, tail);
    Prepend(head, Path(tail), Path(rest));
  }

  lemma {:induction false} PathExtends(id: Bytes, rest: Bytes)
    ensures Path(id + ":" + rest) == Path(id) + Path(rest)
    decreases |id|
  {
    var split := SplitOnce(id, ':');
    if split.None? {
      PathCut(id, rest);
    } else {
      PathExtends(split.value.1, rest);
      PathExtendsBehind(split.value.0, split.value.1, rest);
    }
  }

  lemma {:induction false} PathIsInjective(a: Bytes, b: Bytes)
    requires Path(a) == Path(b)
    ensures a == b
    decreases |a|
  {
    var x, y := SplitOnce(a, ':'), SplitOnce(b, ':');
    assert x.Some? <==> |Path(a)| > 1;
    assert y.Some? <==> |Path(b)| > 1;
    if x.Some? {
      assert Path(a)[1..] == Path(x.value.1) && Path(b)[1..] == Path(y.value.1);
      assert Path(a)[0] == Path(b)[0];
      PathIsInjective(x.value.1, y.value.1);
    } else {
      assert Path(a)[0] == a && Path(b)[0] == b;
    }
  }

  lemma PathHead(id: Bytes)
    ensures var split := SplitOnce(id, ':');
            Path(id)[0] == (if split.None? then id else split.value.0)
            && Path(id)[1..] == if split.None? then [] else Path(split.value.1)
  {
  }

  /** A proper prefix of a path is the path of a prefix that ends before a colon. */
  lemma {:induction false} PrefixIsExtended(a: Bytes, b: Bytes) returns (rest: Bytes)
    requires Path(a) < Path(b)
    ensures b == a + ":" + rest
    decreases |a|
  {
    var x, y := SplitOnce(a, ':'), SplitOnce(b, ':');
    PathHead(a);
    PathHead(b);
    assert Path(a)[0] == Path(b)[0] && Path(a)[1..] <= Path(b)[1..] && |Path(a)[1..]| < |Path(b)[1..]|;
    if x.None? {
      rest := y.value.1;
    } else {
      rest := PrefixIsExtended(x.value.1, y.value.1);
      Reassociate(x.value.0, x.value.1, rest);
    }
  }

  /** The textual test is the prefix order on paths, proper unless exact matches are allowed. */
  lemma ScopeBlocksIsPathPrefix(parent: Bytes, candidate: Bytes, allowExactMatch: bool)
    ensures ScopeBlocks(parent, candidate, allowExactMatch) <==>
            Path(parent) <= Path(candidate) && (allowExactMatch || parent != candidate)
  {
    var remainder := StripPrefix(candidate, parent);
    if remainder.Some? && ":" <= remainder.value {
      assert candidate == parent + ":" + remainder.value[1..];
      PathExtends(parent, remainder.value[1..]);
    }
    if Path(parent) <= Path(candidate) {
      if Path(parent) == Path(candidate) {
        PathIsInjective(parent, candidate);
        assert ":" <= candidate[|parent|..] ==> |candidate| > |parent|;
      } else {
        var rest := PrefixIsExtended(parent, candidate);
        assert candidate[|parent|..] == ":" + rest;
      }
    }
  }

  // ----- Blocking is an order -----

  /** Blocking is a partial order over all kinds and ids. */
  lemma BlockingIsPartialOrder(a: Lock, b: Lock, c: Lock)
    ensures BlocksExpansion(a, a)
    ensures BlocksExpansion(a, b) && BlocksExpansion(b, a) ==> a == b
    ensures BlocksExpansion(a, b) && BlocksExpansion(b, c) ==> BlocksExpansion(a, c)
  {
    ScopeBlocksIsPathPrefix(a.id, b.id, a.kind == b.kind);
    ScopeBlocksIsPathPrefix(b.id, a.id, a.kind == b.kind);
    ScopeBlocksIsPathPrefix(b.id, c.id, b.kind == c.kind);
    ScopeBlocksIsPathPrefix(a.id, c.id, a.kind == c.kind);
    if BlocksExpansion(a, b) && (BlocksExpansion(b, a) || a.id == c.id) && Path(b.id) <= Path(a.id) {
      PathIsInjective(a.id, b.id);
    }
  }

  lemma PrefixesNest(p: seq<Bytes>, q: seq<Bytes>, c: seq<Bytes>)
    requires p <= c && q <= c
    ensures p <= q || q <= p
  {
    assert p == c[..|p|] && q == c[..|q|];
  }

  /** Recovery locks of one kind that block the same expansion never stand side by side: one of them
      blocks the other. */
  lemma SameKindBlockersAreNested(a: Lock, b: Lock, candidate: Lock)
    requires a.kind == b.kind && BlocksExpansion(a, candidate) && BlocksExpansion(b, candidate)
    ensures BlocksExpansion(a, b) || BlocksExpansion(b, a)
  {
    ScopeBlocksIsPathPrefix(a.id, candidate.id, a.kind == candidate.kind);
    ScopeBlocksIsPathPrefix(b.id, candidate.id, b.kind == candidate.kind);
    ScopeBlocksIsPathPrefix(a.id, b.id, true);
    ScopeBlocksIsPathPrefix(b.id, a.id, true);
    PrefixesNest(Path(a.id), Path(b.id), Path(candidate.id));
  }
}
