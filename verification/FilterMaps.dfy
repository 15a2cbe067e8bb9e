/** `filter_map` over a vector. */
module FilterMaps {
  import opened Options
  import opened StableSort

  function FilterMap<T, U>(f: T -> Option<U>, s: seq<T>): seq<U> {
    if s == [] then []
    else
      var last := f(s[|s| - 1]);
      FilterMap(f, s[..|s| - 1]) + if last.Some? then [last.value] else []
  }

  lemma FilterMapPush<T, U>(f: T -> Option<U>, s: seq<T>, x: T)
    ensures FilterMap(f, s + [x]) == FilterMap(f, s) + if f(x).Some? then [f(x).value] else []
  {
    assert (s + [x])[..|s|] == s;
  }

  lemma {:induction false} FilterMapConcat<T, U>(f: T -> Option<U>, a: seq<T>, b: seq<T>)
    ensures FilterMap(f, a + b) == FilterMap(f, a) + FilterMap(f, b)
  {
    if b == [] {
      assert a + b == a;
    } else {
      var n := |b| - 1;
      FilterMapConcat(f, a, b[..n]);
      assert a + b == (a + b[..n]) + [b[n]];
      FilterMapPush(f, a + b[..n], b[n]);
    }
  }

  lemma FilterMapExtract<T, U>(f: T -> Option<U>, a: seq<T>, x: T, b: seq<T>)
    ensures multiset(FilterMap(f, (a + [x]) + b)) == multiset(FilterMap(f, a + b)) + multiset(FilterMap(f, [x]))
  {
    FilterMapConcat(f, a + [x], b);
    FilterMapConcat(f, a, [x]);
    FilterMapConcat(f, a, b);
  }

  lemma MiddleOut<T>(before: seq<T>, x: T, after: seq<T>)
    ensures multiset(before + after) == multiset((before + [x]) + after) - multiset{x}
  {
  }

  /** b has the first element of a somewhere, and without it holds what the rest of a holds. */
  lemma SplitAtFirst<T>(a: seq<T>, b: seq<T>) returns (before: seq<T>, after: seq<T>)
    requires a != [] && multiset(a) == multiset(b)
    ensures b == (before + [a[0]]) + after && multiset(a[1..]) == multiset(before + after)
  {
    assert a[0] in multiset(b);
    var j :| 0 <= j < |b| && b[j] == a[0];
    before, after := b[..j], b[j + 1..];
    assert b == (before + [a[0]]) + after;
    DropFirst(a);
    MiddleOut(before, a[0], after);
  }

  /** Equal contents give equal results, up to order. */
  lemma {:induction false} FilterMapMultiset<T, U>(f: T -> Option<U>, a: seq<T>, b: seq<T>)
    requires multiset(a) == multiset(b)
    ensures multiset(FilterMap(f, a)) == multiset(FilterMap(f, b))
    decreases |a|
  {
    if a == [] {
      assert |b| == |multiset(b)| == 0;
    } else {
      var before, after := SplitAtFirst(a, b);
      FilterMapMultiset(f, a[1..], before + after);
      FilterMapExtract(f, before, a[0], after);
      FilterMapExtract(f, [], a[0], a[1..]);
      assert ([] + [a[0]]) + a[1..] == a && [] + a[1..] == a[1..];
    }
  }

  lemma {:induction false} FilterMapTwice<T, U, V>(f: T -> Option<U>, g: U -> Option<V>, h: T -> Option<V>, s: seq<T>)
    requires forall i :: 0 <= i < |s| ==> h(s[i]) == if f(s[i]).Some? then g(f(s[i]).value) else None
    ensures FilterMap(g, FilterMap(f, s)) == FilterMap(h, s)
  {
    if s != [] {
      var n := |s| - 1;
      FilterMapTwice(f, g, h, s[..n]);
      if f(s[n]).Some? {
        FilterMapPush(g, FilterMap(f, s[..n]), f(s[n]).value);
      } else {
        assert FilterMap(f, s) == FilterMap(f, s[..n]);
      }
    }
  }

  lemma {:induction false} FilterMapOfMap<T, U, V>(m: T -> U, f: U -> Option<V>, h: T -> Option<V>, s: seq<T>)
    requires forall i :: 0 <= i < |s| ==> h(s[i]) == f(m(s[i]))
    ensures FilterMap(f, Map(m, s)) == FilterMap(h, s)
  {
    if s != [] {
      var n := |s| - 1;
      FilterMapOfMap(m, f, h, s[..n]);
      assert Map(m, s) == Map(m, s[..n]) + [m(s[n])];
      FilterMapPush(f, Map(m, s[..n]), m(s[n]));
    }
  }

  lemma {:induction false} FilterMapPrefix<T, U>(f: T -> Option<U>, s: seq<T>, n: nat)
    requires n <= |s|
    ensures FilterMap(f, s[..n]) <= FilterMap(f, s)
  {
    FilterMapConcat(f, s[..n], s[n..]);
    assert s == s[..n] + s[n..];
  }

  lemma {:induction false} FilterMapMembers<T(!new), U(!new)>(f: T -> Option<U>, s: seq<T>)
    ensures forall u :: u in FilterMap(f, s) <==> exists i :: 0 <= i < |s| && f(s[i]) == Some(u)
  {
    if s != [] {
      var n := |s| - 1;
      FilterMapMembers(f, s[..n]);
      assert s == s[..n] + [s[n]];
      forall u ensures u in FilterMap(f, s) <==> exists i :: 0 <= i < |s| && f(s[i]) == Some(u) {
        assert u in FilterMap(f, s) <==> u in FilterMap(f, s[..n]) || f(s[n]) == Some(u);
        if i :| 0 <= i < n && f(s[..n][i]) == Some(u) {
          assert f(s[i]) == Some(u);
        }
        if i :| 0 <= i < |s| && f(s[i]) == Some(u) {
          assert i < n ==> f(s[..n][i]) == Some(u);
        }
      }
    }
  }
}
