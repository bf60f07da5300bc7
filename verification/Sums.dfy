/** Weighted sums over rows: the SUM(...) WHERE ... of every ledger. */
module Sums {
  function Sum<T(!new)>(s: seq<T>, w: T -> int): int {
    if s == [] then 0 else Sum(s[..|s| - 1], w) + w(s[|s| - 1])
  }

  lemma {:induction false} SumAppend<T(!new)>(a: seq<T>, b: seq<T>, w: T -> int)
    ensures Sum(a + b, w) == Sum(a, w) + Sum(b, w)
  {
    if b == [] {
      assert a + b == a;
    } else {
      assert (a + b)[..|a + b| - 1] == a + b[..|b| - 1];
      SumAppend(a, b[..|b| - 1], w);
    }
  }

  lemma SumOne<T(!new)>(x: T, w: T -> int)
    ensures Sum([x], w) == w(x)
  {
    assert [x][..0] == [];
  }

  lemma {:induction false} SumHead<T(!new)>(s: seq<T>, w: T -> int)
    requires s != []
    ensures Sum(s, w) == w(s[0]) + Sum(s[1..], w)
  {
    assert s == [s[0]] + s[1..];
    SumAppend([s[0]], s[1..], w);
    SumOne(s[0], w);
  }

  /** A sum splits with its weight. */
  lemma {:induction false} SumSplit<T(!new)>(s: seq<T>, w: T -> int, u: T -> int, v: T -> int)
    requires forall x | x in s :: w(x) == u(x) + v(x)
    ensures Sum(s, w) == Sum(s, u) + Sum(s, v)
  {
    if s != [] {
      assert s[|s| - 1] in s;
      SumSplit(s[..|s| - 1], w, u, v);
    }
  }

  lemma {:induction false} SumAtMost<T(!new)>(s: seq<T>, u: T -> int, v: T -> int)
    requires forall x | x in s :: u(x) <= v(x)
    ensures Sum(s, u) <= Sum(s, v)
  {
    if s != [] {
      assert s[|s| - 1] in s;
      SumAtMost(s[..|s| - 1], u, v);
    }
  }

  lemma {:induction false} SumEqual<T(!new)>(s: seq<T>, u: T -> int, v: T -> int)
    requires forall x | x in s :: u(x) == v(x)
    ensures Sum(s, u) == Sum(s, v)
  {
    SumAtMost(s, u, v);
    SumAtMost(s, v, u);
  }

  lemma {:induction false} SumZero<T(!new)>(s: seq<T>, w: T -> int)
    requires forall x | x in s :: w(x) == 0
    ensures Sum(s, w) == 0
  {
    if s != [] {
      assert s[|s| - 1] in s;
      SumZero(s[..|s| - 1], w);
    }
  }

  lemma {:induction false} SumNonNegative<T(!new)>(s: seq<T>, w: T -> int)
    requires forall x | x in s :: w(x) >= 0
    ensures Sum(s, w) >= 0
  {
    if s != [] {
      assert s[|s| - 1] in s;
      SumNonNegative(s[..|s| - 1], w);
    }
  }

  function Min(a: int, b: int): int { if a <= b then a else b }

  function Max(a: int, b: int): int { if a <= b then b else a }
}
