/** The two query shapes the batch read-and-prune uses on in-memory tables:
    a `WHERE` filter that keeps table order, and an `ORDER BY` done as a
    stable insertion sort under a total preorder. */
module Queries {

  /** The rows of `s` that satisfy `keep`, in table order. */
  function Filter<T(!new)>(s: seq<T>, keep: T -> bool): (r: seq<T>)
    ensures |r| <= |s|
    ensures forall x :: x in r <==> x in s && keep(x)
    decreases |s|
  {
    if s == [] then []
    else
      var init := Filter(s[..|s| - 1], keep);
      var x := s[|s| - 1];
      assert forall y :: y in s <==> y in s[..|s| - 1] || y == x;
      if keep(x) then init + [x] else init
  }

  /** One more row is kept or dropped on its own. */
  lemma FilterSnoc<T(!new)>(s: seq<T>, x: T, keep: T -> bool)
    ensures Filter(s + [x], keep) == if keep(x) then Filter(s, keep) + [x] else Filter(s, keep)
  {
    assert (s + [x])[..|s|] == s;
  }

  lemma AppendAssoc<T>(a: seq<T>, b: seq<T>, c: seq<T>)
    ensures (a + b) + c == a + (b + c)
  {
  }

  /** The last element of a non-empty `b` is the last of `a + b`. */
  lemma SnocSplit<T>(a: seq<T>, b: seq<T>)
    requires b != []
    ensures b == b[..|b| - 1] + [b[|b| - 1]]
    ensures a + b == (a + b[..|b| - 1]) + [b[|b| - 1]]
  {
  }

  lemma MultisetSnoc<T>(s: seq<T>, x: T)
    ensures multiset(s + [x]) == multiset(s) + multiset{x}
  {
  }

  /** Filtering a concatenation filters each part. */
  lemma {:induction false} FilterAppend<T(!new)>(a: seq<T>, b: seq<T>, keep: T -> bool)
    ensures Filter(a + b, keep) == Filter(a, keep) + Filter(b, keep)
    decreases |b|
  {
    if b == [] {
      assert a + b == a;
      assert Filter(a, keep) + [] == Filter(a, keep);
    } else {
      var b', x := b[..|b| - 1], b[|b| - 1];
      FilterAppend(a, b', keep);
      SnocSplit(a, b);
      FilterSnoc(a + b', x, keep);
      FilterSnoc(b', x, keep);
      AppendAssoc(Filter(a, keep), Filter(b', keep), [x]);
    }
  }

  /** A filter and its complement split a table: every row lands in exactly
      one of the two parts. */
  lemma {:induction false} FilterSplit<T(!new)>(s: seq<T>, keep: T -> bool, drop: T -> bool)
    requires forall x :: drop(x) == !keep(x)
    ensures multiset(Filter(s, keep)) + multiset(Filter(s, drop)) == multiset(s)
    ensures |Filter(s, keep)| + |Filter(s, drop)| == |s|
    decreases |s|
  {
    if s != [] {
      var init, x := s[..|s| - 1], s[|s| - 1];
      FilterSplit(init, keep, drop);
      SnocSplit([], s);
      FilterSnoc(init, x, keep);
      FilterSnoc(init, x, drop);
      MultisetSnoc(init, x);
      if keep(x) {
        MultisetSnoc(Filter(init, keep), x);
      } else {
        MultisetSnoc(Filter(init, drop), x);
      }
    }
  }

  /** Two filters that never both keep a row keep, between them, as many
      rows as the filter that keeps what either keeps. */
  lemma {:induction false} FilterDisjointUnion<T(!new)>(s: seq<T>, p: T -> bool, q: T -> bool, either: T -> bool)
    requires forall x :: either(x) == (p(x) || q(x))
    requires forall x :: !(p(x) && q(x))
    ensures |Filter(s, either)| == |Filter(s, p)| + |Filter(s, q)|
    decreases |s|
  {
    if s != [] {
      FilterDisjointUnion(s[..|s| - 1], p, q, either);
    }
  }

  /** A filter every row passes changes nothing. */
  lemma {:induction false} FilterAll<T(!new)>(s: seq<T>, keep: T -> bool)
    requires forall x :: x in s ==> keep(x)
    ensures Filter(s, keep) == s
    decreases |s|
  {
    if s != [] {
      var init := s[..|s| - 1];
      assert forall x :: x in init ==> x in s;
      FilterAll(init, keep);
      assert init + [s[|s| - 1]] == s;
    }
  }

  /** No two rows of `s` share a key. */
  ghost predicate UniqueBy<T, K>(s: seq<T>, key: T -> K) {
    forall i, j :: 0 <= i < j < |s| ==> key(s[i]) != key(s[j])
  }

  /** Keys that are unique in a table stay unique in any filtered part of it. */
  lemma {:induction false} FilterUniqueKeys<T(!new), K>(s: seq<T>, keep: T -> bool, key: T -> K)
    requires UniqueBy(s, key)
    ensures UniqueBy(Filter(s, keep), key)
    decreases |s|
  {
    if s != [] {
      var init, x := s[..|s| - 1], s[|s| - 1];
      FilterUniqueKeys(init, keep, key);
      var fi := Filter(init, keep);
      forall y | y in fi
        ensures key(y) != key(x)
      {
        var k :| 0 <= k < |init| && init[k] == y;
        assert s[k] == y;
      }
      if keep(x) {
        var r := fi + [x];
        assert Filter(s, keep) == r;
        forall i, j | 0 <= i < j < |r|
          ensures key(r[i]) != key(r[j])
        {
          if j < |fi| {
            assert r[i] == fi[i] && r[j] == fi[j];
          } else {
            assert r[i] == fi[i] && fi[i] in fi && r[j] == x;
          }
        }
      } else {
        assert Filter(s, keep) == fi;
      }
    }
  }

  /** The `WHERE` loop of a `DELETE`: walks the table once, keeping the rows
      `keep` accepts and counting the others (`cursor.rowcount`). */
  method Partition<T(!new)>(s: seq<T>, keep: T -> bool) returns (kept: seq<T>, removed: nat)
    ensures kept == Filter(s, keep)
    ensures removed + |kept| == |s|
  {
    kept, removed := [], 0;
    for i := 0 to |s|
      invariant kept == Filter(s[..i], keep)
      invariant removed + |kept| == i
    {
      FilterSnoc(s[..i], s[i], keep);
      assert s[..i + 1] == s[..i] + [s[i]];
      if keep(s[i]) {
        kept := kept + [s[i]];
      } else {
        removed := removed + 1;
      }
    }
    assert s[..|s|] == s;
  }

  /** `le` orders every pair and is transitive: a sort key. */
  ghost predicate TotalPreorder<T(!new)>(le: (T, T) -> bool) {
    && (forall a, b :: le(a, b) || le(b, a))
    && (forall a, b, c :: le(a, b) && le(b, c) ==> le(a, c))
  }

  ghost predicate SortedBy<T>(s: seq<T>, le: (T, T) -> bool) {
    forall i, j :: 0 <= i < j < |s| ==> le(s[i], s[j])
  }

  /** Inserts `x` into `s` after every row that is not greater than it, so
      that rows which compare equal keep their table order. */
  function InsertBy<T>(x: T, s: seq<T>, le: (T, T) -> bool): (r: seq<T>)
    ensures multiset(r) == multiset(s) + multiset{x}
    decreases |s|
  {
    if s == [] then [x]
    else if !le(s[0], x) then [x] + s
    else
      assert s == [s[0]] + s[1..];
      [s[0]] + InsertBy(x, s[1..], le)
  }

  /** `ORDER BY` on the key `le`: the rows of `s` rearranged. */
  function SortBy<T>(s: seq<T>, le: (T, T) -> bool): (r: seq<T>)
    ensures multiset(r) == multiset(s)
    decreases |s|
  {
    if s == [] then []
    else
      assert s == s[..|s| - 1] + [s[|s| - 1]];
      InsertBy(s[|s| - 1], SortBy(s[..|s| - 1], le), le)
  }

  lemma {:induction false} InsertSorted<T(!new)>(x: T, s: seq<T>, le: (T, T) -> bool)
    requires TotalPreorder(le) && SortedBy(s, le)
    ensures SortedBy(InsertBy(x, s, le), le)
    decreases |s|
  {
    if s != [] {
      if !le(s[0], x) {
        assert le(x, s[0]);
      } else {
        var t := s[1..];
        InsertSorted(x, t, le);
        var r := InsertBy(x, t, le);
        forall k | 0 <= k < |r|
          ensures le(s[0], r[k])
        {
          assert r[k] in multiset(t) + multiset{x};
        }
      }
    }
  }

  /** The sorted rows are in key order. */
  lemma {:induction false} SortBySorted<T(!new)>(s: seq<T>, le: (T, T) -> bool)
    requires TotalPreorder(le)
    ensures SortedBy(SortBy(s, le), le)
    decreases |s|
  {
    if s != [] {
      SortBySorted(s[..|s| - 1], le);
      InsertSorted(s[|s| - 1], SortBy(s[..|s| - 1], le), le);
    }
  }

  /** Sorting neither adds nor loses rows. */
  lemma SortByMembers<T(!new)>(s: seq<T>, le: (T, T) -> bool)
    ensures |SortBy(s, le)| == |s|
    ensures forall x :: x in SortBy(s, le) <==> x in s
  {
    var r := SortBy(s, le);
    assert multiset(r) == multiset(s);
    assert |r| == |multiset(r)|;
    forall x
      ensures x in r <==> x in s
    {
      assert x in r <==> x in multiset(r);
      assert x in s <==> x in multiset(s);
    }
  }
}
