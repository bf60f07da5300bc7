/** Stable sorting and filtering, and how they commute with each other, maps and sums. */
module StableSort {
  import opened Sums

  ghost predicate TotalPreorder<T(!new)>(le: (T, T) -> bool) {
    && (forall x, y :: le(x, y) || le(y, x))
    && (forall x, y, z :: le(x, y) && le(y, z) ==> le(x, z))
  }

  ghost predicate Sorted<T(!new)>(s: seq<T>, le: (T, T) -> bool) {
    forall i, j | 0 <= i < j < |s| :: le(s[i], s[j])
  }

  function Insert<T>(x: T, s: seq<T>, le: (T, T) -> bool): seq<T> {
    if s == [] || le(x, s[0]) then [x] + s else [s[0]] + Insert(x, s[1..], le)
  }

  function Sort<T>(s: seq<T>, le: (T, T) -> bool): seq<T> {
    if s == [] then [] else Insert(s[0], Sort(s[1..], le), le)
  }

  function Filter<T>(s: seq<T>, p: T -> bool): seq<T> {
    if s == [] then [] else (if p(s[0]) then [s[0]] else []) + Filter(s[1..], p)
  }

  function Map<T, U>(s: seq<T>, f: T -> U): (r: seq<U>)
    ensures |r| == |s| && forall i | 0 <= i < |s| :: r[i] == f(s[i])
  {
    seq(|s|, i requires 0 <= i < |s| => f(s[i]))
  }

  lemma {:induction false} InsertIsPermutation<T(!new)>(x: T, s: seq<T>, le: (T, T) -> bool)
    ensures multiset(Insert(x, s, le)) == multiset([x] + s)
  {
    if !(s == [] || le(x, s[0])) {
      InsertIsPermutation(x, s[1..], le);
      assert s == [s[0]] + s[1..];
    }
  }

  lemma {:induction false} SortIsPermutation<T(!new)>(s: seq<T>, le: (T, T) -> bool)
    ensures multiset(Sort(s, le)) == multiset(s) && |Sort(s, le)| == |s|
  {
    if s != [] {
      SortIsPermutation(s[1..], le);
      InsertIsPermutation(s[0], Sort(s[1..], le), le);
      assert s == [s[0]] + s[1..];
    }
    assert |multiset(Sort(s, le))| == |multiset(s)|;
  }

  lemma InSort<T(!new)>(s: seq<T>, le: (T, T) -> bool)
    ensures forall x :: x in Sort(s, le) <==> x in s
  {
    SortIsPermutation(s, le);
    forall x ensures x in Sort(s, le) <==> x in s {
      assert x in Sort(s, le) <==> x in multiset(Sort(s, le));
      assert x in s <==> x in multiset(s);
    }
  }

  lemma {:induction false} InsertKeepsSorted<T(!new)>(x: T, s: seq<T>, le: (T, T) -> bool)
    requires TotalPreorder(le) && Sorted(s, le)
    ensures Sorted(Insert(x, s, le), le)
  {
    if s == [] || le(x, s[0]) {
    } else {
      InsertKeepsSorted(x, s[1..], le);
      InsertIsPermutation(x, s[1..], le);
      var r := Insert(x, s[1..], le);
      forall j | 0 <= j < |r| ensures le(s[0], r[j]) {
        assert r[j] in multiset(r);
        assert r[j] == x || r[j] in s[1..];
      }
    }
  }

  lemma {:induction false} SortIsSorted<T(!new)>(s: seq<T>, le: (T, T) -> bool)
    requires TotalPreorder(le)
    ensures Sorted(Sort(s, le), le)
  {
    if s != [] {
      SortIsSorted(s[1..], le);
      InsertKeepsSorted(s[0], Sort(s[1..], le), le);
    }
  }

  lemma {:induction false} FilterInsert<T(!new)>(x: T, s: seq<T>, le: (T, T) -> bool, p: T -> bool)
    requires TotalPreorder(le) && Sorted(s, le)
    ensures Filter(Insert(x, s, le), p) == if p(x) then Insert(x, Filter(s, p), le) else Filter(s, p)
  {
    if s == [] || le(x, s[0]) {
      assert ([x] + s)[1..] == s;
      FilterHead(x, s, le, p);
    } else {
      var r := Insert(x, s[1..], le);
      assert ([s[0]] + r)[1..] == r;
      FilterInsert(x, s[1..], le, p);
      var rest := Filter(s[1..], p);
      if p(s[0]) { assert ([s[0]] + rest)[1..] == rest; } else { assert [] + rest == rest && [] + Filter(r, p) == Filter(r, p); }
    }
  }

  /** x goes first in front of a filtered sorted list whose elements it precedes. */
  lemma {:induction false} FilterHead<T(!new)>(x: T, s: seq<T>, le: (T, T) -> bool, p: T -> bool)
    requires TotalPreorder(le) && Sorted(s, le) && (s == [] || le(x, s[0]))
    ensures Insert(x, Filter(s, p), le) == [x] + Filter(s, p)
  {
    InFilter(s, p);
    if Filter(s, p) != [] {
      assert Filter(s, p)[0] in s;
      var i :| 0 <= i < |s| && s[i] == Filter(s, p)[0];
      assert le(s[0], s[i]);
    }
  }

  lemma {:induction false} InFilter<T(!new)>(s: seq<T>, p: T -> bool)
    ensures forall x :: x in Filter(s, p) <==> x in s && p(x)
  {
    if s != [] {
      InFilter(s[1..], p);
      assert forall x :: x in s <==> x == s[0] || x in s[1..];
    }
  }

  lemma {:induction false} FilterAppend<T(!new)>(a: seq<T>, b: seq<T>, p: T -> bool)
    ensures Filter(a + b, p) == Filter(a, p) + Filter(b, p)
  {
    if a == [] {
      assert a + b == b;
    } else {
      var head := if p(a[0]) then [a[0]] else [];
      FilterAppend(a[1..], b, p);
      assert (a + b)[0] == a[0] && (a + b)[1..] == a[1..] + b;
      assert head + (Filter(a[1..], p) + Filter(b, p)) == head + Filter(a[1..], p) + Filter(b, p);
    }
  }

  lemma FilterOne<T(!new)>(x: T, p: T -> bool)
    ensures Filter([x], p) == if p(x) then [x] else []
  {
    assert [x][1..] == [];
  }

  /** Sorting commutes with filtering, which is what stability means. */
  lemma {:induction false} FilterSort<T(!new)>(s: seq<T>, le: (T, T) -> bool, p: T -> bool)
    requires TotalPreorder(le)
    ensures Filter(Sort(s, le), p) == Sort(Filter(s, p), le)
  {
    if s != [] {
      FilterSort(s[1..], le, p);
      SortIsSorted(s[1..], le);
      FilterInsert(s[0], Sort(s[1..], le), le, p);
      if p(s[0]) {
        assert ([s[0]] + Filter(s[1..], p))[1..] == Filter(s[1..], p);
      } else {
        assert [] + Filter(s[1..], p) == Filter(s[1..], p);
      }
    }
  }

  /** A map that keeps the order of every pair commutes with sorting. */
  lemma {:induction false} MapInsert<T(!new), U(!new)>(x: T, s: seq<T>, le: (T, T) -> bool, f: T -> U, le': (U, U) -> bool)
    requires forall a, b :: le(a, b) <==> le'(f(a), f(b))
    ensures Map(Insert(x, s, le), f) == Insert(f(x), Map(s, f), le')
  {
    if s == [] || le(x, s[0]) {
    } else {
      MapInsert(x, s[1..], le, f, le');
      assert Map(s, f)[1..] == Map(s[1..], f);
    }
  }

  lemma {:induction false} MapSort<T(!new), U(!new)>(s: seq<T>, le: (T, T) -> bool, f: T -> U, le': (U, U) -> bool)
    requires forall a, b :: le(a, b) <==> le'(f(a), f(b))
    ensures Map(Sort(s, le), f) == Sort(Map(s, f), le')
  {
    if s != [] {
      MapSort(s[1..], le, f, le');
      MapInsert(s[0], Sort(s[1..], le), le, f, le');
      assert Map(s, f)[1..] == Map(s[1..], f);
    }
  }

  lemma {:induction false} SumInsert<T(!new)>(x: T, s: seq<T>, le: (T, T) -> bool, w: T -> int)
    ensures Sum(Insert(x, s, le), w) == w(x) + Sum(s, w)
  {
    if s == [] || le(x, s[0]) {
      SumAppend([x], s, w);
      SumOne(x, w);
    } else {
      SumInsert(x, s[1..], le, w);
      SumAppend([s[0]], Insert(x, s[1..], le), w);
      SumOne(s[0], w);
      SumHead(s, w);
    }
  }

  lemma {:induction false} SumSort<T(!new)>(s: seq<T>, le: (T, T) -> bool, w: T -> int)
    ensures Sum(Sort(s, le), w) == Sum(s, w)
  {
    if s != [] {
      SumSort(s[1..], le, w);
      SumInsert(s[0], Sort(s[1..], le), le, w);
      SumHead(s, w);
    }
  }

  lemma {:induction false} SumFilter<T(!new)>(s: seq<T>, p: T -> bool, w: T -> int)
    requires forall x | x in s && !p(x) :: w(x) == 0
    ensures Sum(Filter(s, p), w) == Sum(s, w)
  {
    if s != [] {
      SumFilter(s[1..], p, w);
      SumHead(s, w);
      SumAppend(if p(s[0]) then [s[0]] else [], Filter(s[1..], p), w);
      SumOne(s[0], w);
    }
  }

  // ------------------------------------------------------ without duplicates

  ghost predicate Distinct<T(!new)>(s: seq<T>) {
    forall i, j | 0 <= i < j < |s| :: s[i] != s[j]
  }

  lemma {:induction false} FilterKeepsDistinct<T(!new)>(s: seq<T>, p: T -> bool)
    requires Distinct(s)
    ensures Distinct(Filter(s, p))
  {
    if s != [] {
      FilterKeepsDistinct(s[1..], p);
      InFilter(s[1..], p);
      var rest := Filter(s[1..], p);
      forall j | 0 <= j < |rest| ensures rest[j] != s[0] { assert rest[j] in rest && rest[j] in s[1..]; }
    }
  }

  lemma InInsert<T(!new)>(x: T, s: seq<T>, le: (T, T) -> bool, y: T)
    ensures y in Insert(x, s, le) <==> y == x || y in s
  {
    InsertIsPermutation(x, s, le);
    assert y in Insert(x, s, le) <==> y in multiset(Insert(x, s, le));
    assert y in [x] + s <==> y in multiset([x] + s);
  }

  lemma {:induction false} InsertKeepsDistinct<T(!new)>(x: T, s: seq<T>, le: (T, T) -> bool)
    requires Distinct(s) && x !in s
    ensures Distinct(Insert(x, s, le))
  {
    if !(s == [] || le(x, s[0])) {
      var r := Insert(x, s[1..], le);
      InsertKeepsDistinct(x, s[1..], le);
      InInsert(x, s[1..], le, s[0]);
      assert forall j | 0 <= j < |r| :: r[j] in r;
    }
  }

  lemma {:induction false} SortKeepsDistinct<T(!new)>(s: seq<T>, le: (T, T) -> bool)
    requires Distinct(s)
    ensures Distinct(Sort(s, le))
  {
    if s != [] {
      SortKeepsDistinct(s[1..], le);
      InSort(s[1..], le);
      InsertKeepsDistinct(s[0], Sort(s[1..], le), le);
    }
  }

  lemma {:induction false} FilterAll<T(!new)>(s: seq<T>, p: T -> bool)
    requires forall x | x in s :: p(x)
    ensures Filter(s, p) == s
  {
    if s != [] {
      assert s[0] in s;
      FilterAll(s[1..], p);
    }
  }

  lemma {:induction false} FilterNone<T(!new)>(s: seq<T>, p: T -> bool)
    requires forall x | x in s :: !p(x)
    ensures Filter(s, p) == []
  {
    if s != [] {
      assert s[0] in s;
      FilterNone(s[1..], p);
    }
  }
}
