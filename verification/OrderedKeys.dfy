/** Iteration over a `BTreeMap` or `BTreeSet` keyed by strings: ascending key order. */
module OrderedKeys {
  import opened StableSort
  import opened Text

  lemma {:induction false} LeastExists(keys: set<Bytes>)
    requires keys != {}
    ensures exists k :: k in keys && forall x :: x in keys ==> StrLeq(k, x)
  {
    var k :| k in keys;
    var rest := keys - {k};
    if rest == {} {
      assert keys == {k};
      StrLeqTotal(k, k);
    } else {
      LeastExists(rest);
      var m :| m in rest && forall x :: x in rest ==> StrLeq(m, x);
      StrLeqTotal(k, m);
      var least := if StrLeq(k, m) then k else m;
      StrLeqTotal(k, k);
      forall x | x in keys ensures StrLeq(least, x) {
        if x != k && least == k {
          StrLeqTransitive(k, m, x);
        }
      }
    }
  }

  ghost function Least(keys: set<Bytes>): (k: Bytes)
    requires keys != {}
    ensures k in keys && forall x :: x in keys ==> StrLeq(k, x)
  {
    LeastExists(keys);
    var k :| k in keys && forall x :: x in keys ==> StrLeq(k, x);
    k
  }

  ghost function Ascending(keys: set<Bytes>): (r: seq<Bytes>)
    ensures forall k :: k in r <==> k in keys
    ensures forall i, j :: 0 <= i < j < |r| ==> r[i] != r[j] && StrLeq(r[i], r[j])
  {
    if keys == {} then [] else [Least(keys)] + Ascending(keys - {Least(keys)})
  }

  /** The next key an ascending iteration visits. */
  method NextKey(keys: set<Bytes>) returns (k: Bytes)
    requires keys != {}
    ensures k == Least(keys)
  {
    LeastExists(keys);
    k :| k in keys && forall x :: x in keys ==> StrLeq(k, x);
    StrLeqAntisymmetric(k, Least(keys));
  }

  lemma SameMaps<K, V>(x: map<K, V>, y: map<K, V>)
    requires forall k :: k in x ==> k in y && x[k] == y[k]
    requires forall k :: k in y ==> k in x
    ensures x == y
  {
    assert x.Keys == y.Keys;
  }

  lemma Regroup(a: seq<Bytes>, x: Bytes, b: seq<Bytes>)
    ensures a + ([x] + b) == (a + [x]) + b
  {
  }

  /** All keys, as an ascending iteration lists them. */
  method InOrder(keys: set<Bytes>) returns (r: seq<Bytes>)
    ensures r == Ascending(keys)
  {
    r := [];
    var left := keys;
    while left != {}
      invariant r + Ascending(left) == Ascending(keys)
      decreases |left|
    {
      var k := NextKey(left);
      Regroup(r, k, Ascending(left - {k}));
      r, left := r + [k], left - {k};
    }
  }

  ghost predicate StrictlyAscending(s: seq<Bytes>) {
    forall i, j :: 0 <= i < j < |s| ==> s[i] != s[j] && StrLeq(s[i], s[j])
  }

  lemma StrLeqIsOrder()
    ensures TotalPreorder(StrLeq) && Antisymmetric(StrLeq)
  {
    forall a, b ensures StrLeq(a, b) || StrLeq(b, a) { StrLeqTotal(a, b); }
    forall a, b, c | StrLeq(a, b) && StrLeq(b, c) ensures StrLeq(a, c) { StrLeqTransitive(a, b, c); }
    forall a, b | StrLeq(a, b) && StrLeq(b, a) ensures a == b { StrLeqAntisymmetric(a, b); }
  }

  /** Keys in strictly ascending order are determined by which keys they are. */
  lemma AscendingUnique(a: seq<Bytes>, b: seq<Bytes>)
    requires StrictlyAscending(a) && StrictlyAscending(b)
    requires forall k :: k in a <==> k in b
    ensures a == b
  {
    forall k ensures multiset(a)[k] == multiset(b)[k] {
      CountsAreOne(a, k);
      CountsAreOne(b, k);
    }
    StrLeqIsOrder();
    SortedUnique(a, b, StrLeq);
  }
}
