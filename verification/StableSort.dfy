/** The standard library's stable sort (`sort_by`, `sort_by_key`), which the repository
    calls on vectors in place: a later element goes after every earlier one it does not
    precede. The facts below are the ones its callers rely on. */
module StableSort {

  ghost predicate TotalPreorder<T(!new)>(leq: (T, T) -> bool) {
    && (forall a, b :: leq(a, b) || leq(b, a))
    && (forall a, b, c :: leq(a, b) && leq(b, c) ==> leq(a, c))
  }

  ghost predicate Antisymmetric<T(!new)>(leq: (T, T) -> bool) {
    forall a, b :: leq(a, b) && leq(b, a) ==> a == b
  }

  ghost predicate Sorted<T>(s: seq<T>, leq: (T, T) -> bool) {
    forall i, j :: 0 <= i < j < |s| ==> leq(s[i], s[j])
  }

  /** Places x after every element that is not strictly greater. */
  function Insert<T>(s: seq<T>, x: T, leq: (T, T) -> bool): (r: seq<T>)
    ensures |r| == |s| + 1
  {
    if s == [] then [x]
    else
      var last := |s| - 1;
      if leq(s[last], x) then s + [x] else Insert(s[..last], x, leq) + [s[last]]
  }

  function Sort<T>(s: seq<T>, leq: (T, T) -> bool): (r: seq<T>)
    ensures |r| == |s|
  {
    if s == [] then [] else Insert(Sort(s[..|s| - 1], leq), s[|s| - 1], leq)
  }

  lemma {:induction false} InsertAdds<T>(s: seq<T>, x: T, leq: (T, T) -> bool)
    ensures multiset(Insert(s, x, leq)) == multiset(s) + multiset{x}
  {
    if s != [] && !leq(s[|s| - 1], x) {
      var last := |s| - 1;
      InsertAdds(s[..last], x, leq);
      LastApart(s);
    }
  }

  lemma LastApart<T>(s: seq<T>)
    requires s != []
    ensures multiset(s) == multiset(s[..|s| - 1]) + multiset{s[|s| - 1]}
  {
    assert s == s[..|s| - 1] + [s[|s| - 1]];
  }

  lemma {:induction false} SortPermutes<T>(s: seq<T>, leq: (T, T) -> bool)
    ensures multiset(Sort(s, leq)) == multiset(s)
  {
    if s != [] {
      var last := |s| - 1;
      SortPermutes(s[..last], leq);
      InsertAdds(Sort(s[..last], leq), s[last], leq);
      assert s == s[..last] + [s[last]];
    }
  }

  lemma InsertMembers<T(!new)>(s: seq<T>, x: T, leq: (T, T) -> bool)
    ensures forall y :: y in Insert(s, x, leq) <==> y in s || y == x
  {
    InsertAdds(s, x, leq);
    forall y ensures y in Insert(s, x, leq) <==> y in s || y == x {
      assert y in Insert(s, x, leq) <==> y in multiset(Insert(s, x, leq));
    }
  }

  lemma SortMembers<T(!new)>(s: seq<T>, leq: (T, T) -> bool)
    ensures forall y :: y in Sort(s, leq) <==> y in s
  {
    SortPermutes(s, leq);
    forall y ensures y in Sort(s, leq) <==> y in s {
      assert y in Sort(s, leq) <==> y in multiset(Sort(s, leq));
    }
  }

  lemma {:induction false} InsertSorted<T(!new)>(s: seq<T>, x: T, leq: (T, T) -> bool)
    requires TotalPreorder(leq) && Sorted(s, leq)
    ensures Sorted(Insert(s, x, leq), leq)
  {
    if s != [] && !leq(s[|s| - 1], x) {
      var last := |s| - 1;
      InsertSorted(s[..last], x, leq);
      var front := Insert(s[..last], x, leq);
      forall i | 0 <= i < |front|
        ensures leq(front[i], s[last])
      {
        InsertMembers(s[..last], x, leq);
        assert front[i] in front;
      }
    } else if s != [] {
      forall i | 0 <= i < |s| ensures leq(s[i], x) {
        assert i == |s| - 1 || leq(s[i], s[|s| - 1]);
      }
    }
  }

  lemma {:induction false} SortSorts<T(!new)>(s: seq<T>, leq: (T, T) -> bool)
    requires TotalPreorder(leq)
    ensures Sorted(Sort(s, leq), leq)
  {
    if s != [] {
      SortSorts(s[..|s| - 1], leq);
      InsertSorted(Sort(s[..|s| - 1], leq), s[|s| - 1], leq);
    }
  }

  /** Sorting a sorted vector changes nothing, so pushing and re-sorting is one insertion. */
  lemma {:induction false} SortOfSorted<T(!new)>(s: seq<T>, leq: (T, T) -> bool)
    requires Sorted(s, leq)
    ensures Sort(s, leq) == s
  {
    if s != [] {
      var n := |s| - 1;
      SortOfSorted(s[..n], leq);
      assert n > 0 ==> leq(s[..n][n - 1], s[n]);
      assert s == s[..n] + [s[n]];
    }
  }

  lemma PushThenSort<T(!new)>(s: seq<T>, x: T, leq: (T, T) -> bool)
    requires Sorted(s, leq)
    ensures Sort(s + [x], leq) == Insert(s, x, leq)
  {
    assert (s + [x])[..|s|] == s;
    SortOfSorted(s, leq);
  }

  ghost predicate Distinct<T>(s: seq<T>) {
    forall i, j :: 0 <= i < j < |s| ==> s[i] != s[j]
  }

  lemma {:induction false} CountsAreOne<T>(s: seq<T>, x: T)
    requires Distinct(s)
    ensures multiset(s)[x] == if x in s then 1 else 0
  {
    if s != [] {
      var n := |s| - 1;
      CountsAreOne(s[..n], x);
      assert s == s[..n] + [s[n]];
    }
  }

  lemma {:induction false} CountsBoundRepeats<T(!new)>(s: seq<T>)
    requires forall t :: multiset(s)[t] <= 1
    ensures Distinct(s)
  {
    if s != [] {
      var n := |s| - 1;
      assert s == s[..n] + [s[n]];
      forall t ensures multiset(s[..n])[t] <= 1 {
        assert multiset(s)[t] <= 1;
      }
      CountsBoundRepeats(s[..n]);
      forall i | 0 <= i < n ensures s[i] != s[n] {
        assert s[..n][i] in multiset(s[..n]);
        assert multiset(s)[s[n]] <= 1;
      }
    }
  }

  lemma DistinctIgnoresOrder<T(!new)>(a: seq<T>, b: seq<T>)
    requires Distinct(a) && multiset(a) == multiset(b)
    ensures Distinct(b)
  {
    forall x ensures multiset(b)[x] <= 1 {
      CountsAreOne(a, x);
    }
    CountsBoundRepeats(b);
  }

  lemma {:induction false} InsertKeepsDistinct<T(!new)>(s: seq<T>, x: T, leq: (T, T) -> bool)
    requires Distinct(s) && x !in s
    ensures Distinct(Insert(s, x, leq))
  {
    if s != [] && !leq(s[|s| - 1], x) {
      var last := |s| - 1;
      InsertKeepsDistinct(s[..last], x, leq);
      InsertMembers(s[..last], x, leq);
      var front := Insert(s[..last], x, leq);
      assert s[last] !in front;
    }
  }

  lemma {:induction false} SortKeepsDistinct<T(!new)>(s: seq<T>, leq: (T, T) -> bool)
    requires Distinct(s)
    ensures Distinct(Sort(s, leq))
  {
    if s != [] {
      var last := |s| - 1;
      SortKeepsDistinct(s[..last], leq);
      SortMembers(s[..last], leq);
      InsertKeepsDistinct(Sort(s[..last], leq), s[last], leq);
    }
  }

  lemma FirstIsLeast<T(!new)>(a: seq<T>, x: T, leq: (T, T) -> bool)
    requires TotalPreorder(leq) && Sorted(a, leq) && x in a
    ensures leq(a[0], x)
  {
    var i :| 0 <= i < |a| && a[i] == x;
    assert leq(a[0], a[0]);
  }

  lemma DropFirst<T>(a: seq<T>)
    requires a != []
    ensures multiset(a[1..]) == multiset(a) - multiset{a[0]}
  {
    assert a == [a[0]] + a[1..];
  }

  /** Two sorted vectors with the same contents under an antisymmetric order are one vector. */
  lemma {:induction false} SortedUnique<T(!new)>(a: seq<T>, b: seq<T>, leq: (T, T) -> bool)
    requires TotalPreorder(leq) && Antisymmetric(leq)
    requires Sorted(a, leq) && Sorted(b, leq)
    requires multiset(a) == multiset(b)
    ensures a == b
  {
    assert |a| == |multiset(a)| == |multiset(b)| == |b|;
    if a != [] {
      assert a[0] in multiset(b) && b[0] in multiset(a);
      FirstIsLeast(a, b[0], leq);
      FirstIsLeast(b, a[0], leq);
      DropFirst(a);
      DropFirst(b);
      SortedUnique(a[1..], b[1..], leq);
      assert a == [a[0]] + a[1..] && b == [b[0]] + b[1..];
    }
  }

  function Map<T, U>(f: T -> U, s: seq<T>): (r: seq<U>)
    ensures |r| == |s| && forall i :: 0 <= i < |s| ==> r[i] == f(s[i])
  {
    seq(|s|, i requires 0 <= i < |s| => f(s[i]))
  }

  /** An order that looks only at the image of f is carried along by f. */
  lemma {:induction false} SortCommutesWithMap<T(!new), U>(
      f: T -> U, s: seq<T>, leqT: (T, T) -> bool, leqU: (U, U) -> bool)
    requires forall i, j :: 0 <= i < |s| && 0 <= j < |s| ==> (leqT(s[i], s[j]) <==> leqU(f(s[i]), f(s[j])))
    ensures Map(f, Sort(s, leqT)) == Sort(Map(f, s), leqU)
  {
    if s == [] {
      assert Map(f, Sort(s, leqT)) == [];
    } else {
      var n := |s| - 1;
      var rest := Sort(s[..n], leqT);
      SortCommutesWithMap(f, s[..n], leqT, leqU);
      assert Map(f, s)[..n] == Map(f, s[..n]);
      forall i | 0 <= i < |rest|
        ensures leqT(rest[i], s[n]) <==> leqU(f(rest[i]), f(s[n]))
      {
        SortMembers(s[..n], leqT);
        assert rest[i] in rest;
      }
      InsertCommutesWithMap(f, rest, s[n], leqT, leqU);
    }
  }

  lemma {:induction false} InsertCommutesWithMap<T, U>(
      f: T -> U, s: seq<T>, x: T, leqT: (T, T) -> bool, leqU: (U, U) -> bool)
    requires forall i :: 0 <= i < |s| ==> (leqT(s[i], x) <==> leqU(f(s[i]), f(x)))
    ensures Map(f, Insert(s, x, leqT)) == Insert(Map(f, s), f(x), leqU)
  {
    if s == [] {
      assert Map(f, Insert(s, x, leqT)) == [f(x)];
    } else {
      var n := |s| - 1;
      assert Map(f, s)[..n] == Map(f, s[..n]);
      if leqT(s[n], x) {
        assert Map(f, s + [x]) == Map(f, s) + [f(x)];
      } else {
        InsertCommutesWithMap(f, s[..n], x, leqT, leqU);
        var front := Insert(s[..n], x, leqT);
        assert Map(f, front + [s[n]]) == Map(f, front) + [f(s[n])];
      }
    }
  }

  lemma MapConcat<T, U>(f: T -> U, a: seq<T>, b: seq<T>)
    ensures Map(f, a + b) == Map(f, a) + Map(f, b)
  {
  }

  lemma MapExtract<T, U>(f: T -> U, b: seq<T>, j: nat)
    requires j < |b|
    ensures multiset(b) == multiset(b[..j] + b[j + 1..]) + multiset{b[j]}
    ensures multiset(Map(f, b)) == multiset(Map(f, b[..j] + b[j + 1..])) + multiset{f(b[j])}
  {
    assert b == b[..j] + [b[j]] + b[j + 1..];
    MapConcat(f, b[..j] + [b[j]], b[j + 1..]);
    MapConcat(f, b[..j], [b[j]]);
    MapConcat(f, b[..j], b[j + 1..]);
    assert Map(f, [b[j]]) == [f(b[j])];
  }

  lemma RestsAgree<T>(a: seq<T>, b: seq<T>, j: nat)
    requires a != [] && j < |b| && b[j] == a[0] && multiset(a) == multiset(b)
    ensures multiset(a[..0] + a[1..]) == multiset(b[..j] + b[j + 1..])
  {
    assert a == a[..0] + [a[0]] + a[1..];
    assert b == b[..j] + [b[j]] + b[j + 1..];
    assert multiset(a[..0] + a[1..]) == multiset(a) - multiset{a[0]};
    assert multiset(b[..j] + b[j + 1..]) == multiset(b) - multiset{a[0]};
  }

  /** Equal contents have equal images. */
  lemma {:induction false} MapMultiset<T, U>(f: T -> U, a: seq<T>, b: seq<T>)
    requires multiset(a) == multiset(b)
    ensures multiset(Map(f, a)) == multiset(Map(f, b))
  {
    assert |a| == |multiset(a)| == |multiset(b)| == |b|;
    if a != [] {
      assert a[0] in multiset(b);
      var j :| 0 <= j < |b| && b[j] == a[0];
      MapExtract(f, a, 0);
      MapExtract(f, b, j);
      RestsAgree(a, b, j);
      MapMultiset(f, a[..0] + a[1..], b[..j] + b[j + 1..]);
    }
  }
}
