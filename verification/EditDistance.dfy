/** Duplicate detection on menu names: Levenshtein distance with two rolling rows. */
module EditDistance {
  import opened Sums

  function Min3(a: int, b: int, c: int): int { Min(a, Min(b, c)) }

  function Cost(x: char, y: char): int { if x == y then 0 else 1 }

  /** Levenshtein distance by its recurrence on the last characters. */
  function Lev(a: string, b: string): nat
    decreases |a| + |b|
  {
    if a == [] then |b|
    else if b == [] then |a|
    else
      var a', b' := a[..|a| - 1], b[..|b| - 1];
      Min3(Lev(a', b) + 1, Lev(a, b') + 1, Lev(a', b') + Cost(a[|a| - 1], b[|b| - 1]))
  }

  /** The recurrence, on prefixes. */
  lemma LevPrefix(a: string, b: string, i: nat, j: nat)
    requires 1 <= i <= |a| && 1 <= j <= |b|
    ensures Lev(a[..i], b[..j])
            == Min3(Lev(a[..i - 1], b[..j]) + 1, Lev(a[..i], b[..j - 1]) + 1, Lev(a[..i - 1], b[..j - 1]) + Cost(a[i - 1], b[j - 1]))
  {
    assert a[..i][..i - 1] == a[..i - 1] && b[..j][..j - 1] == b[..j - 1];
  }

  /** The inner loop: one row of the table from the row above it. */
  method NextRow(a: string, b: string, i: nat, prev: array<int>, curr: array<int>)
    requires 1 <= i <= |a| && prev != curr && prev.Length == curr.Length == |b| + 1
    requires forall j | 0 <= j <= |b| :: prev[j] == Lev(a[..i - 1], b[..j])
    modifies curr
    ensures forall j | 0 <= j <= |b| :: curr[j] == Lev(a[..i], b[..j])
  {
    curr[0] := i;
    assert b[..0] == [] && Lev(a[..i], b[..0]) == i;
    var j := 1;
    while j <= |b|
      invariant 1 <= j <= |b| + 1
      invariant forall k | 0 <= k < j :: curr[k] == Lev(a[..i], b[..k])
    {
      var cost := if a[i - 1] == b[j - 1] then 0 else 1;
      var cell := Min3(prev[j] + 1, curr[j - 1] + 1, prev[j - 1] + cost);
      assert cell == Lev(a[..i], b[..j]) by { LevPrefix(a, b, i, j); }
      curr[j] := cell;
      j := j + 1;
    }
  }

  /** The rolling-row loop: two rows that swap roles. */
  method Distance(a: string, b: string) returns (d: nat)
    ensures d == Lev(a, b)
  {
    var m, n := |a|, |b|;
    if m == 0 { return n; }
    if n == 0 { return m; }
    var prev := new int[n + 1](j => j);
    var curr := new int[n + 1](_ => 0);
    assert a[..0] == [];
    var i := 1;
    while i <= m
      invariant 1 <= i <= m + 1
      invariant prev != curr && prev.Length == curr.Length == n + 1 && fresh(prev) && fresh(curr)
      invariant forall j | 0 <= j <= n :: prev[j] == Lev(a[..i - 1], b[..j])
    {
      NextRow(a, b, i, prev, curr);
      prev, curr := curr, prev;
      i := i + 1;
    }
    assert a[..m] == a && b[..n] == b;
    d := prev[n];
  }

  // ---------------------------------------------------------- metric laws

  lemma {:induction false} LevBounds(a: string, b: string)
    ensures Lev(a, b) >= |a| - |b| && Lev(a, b) >= |b| - |a|
    ensures Lev(a, b) <= |a| + |b|
    decreases |a| + |b|
  {
    if a != [] && b != [] {
      LevBounds(a[..|a| - 1], b);
      LevBounds(a, b[..|b| - 1]);
      LevBounds(a[..|a| - 1], b[..|b| - 1]);
    }
  }

  lemma {:induction false} Symmetric(a: string, b: string)
    ensures Lev(a, b) == Lev(b, a)
    decreases |a| + |b|
  {
    if a != [] && b != [] {
      Symmetric(a[..|a| - 1], b);
      Symmetric(a, b[..|b| - 1]);
      Symmetric(a[..|a| - 1], b[..|b| - 1]);
    }
  }

  lemma {:induction false} ZeroOnlyForEqual(a: string, b: string)
    ensures Lev(a, b) == 0 <==> a == b
    decreases |a| + |b|
  {
    if a != [] && b != [] {
      var a', b' := a[..|a| - 1], b[..|b| - 1];
      ZeroOnlyForEqual(a', b');
      assert a == a' + [a[|a| - 1]] && b == b' + [b[|b| - 1]];
    }
  }

  lemma {:induction false} Triangle(a: string, b: string, c: string)
    ensures Lev(a, c) <= Lev(a, b) + Lev(b, c)
    decreases |a| + |b| + |c|
  {
    if a == [] {
      LevBounds(b, c);
    } else if b == [] {
      LevBounds(a, c);
    } else if c == [] {
      LevBounds(a, b);
    } else {
      var a', b', c' := a[..|a| - 1], b[..|b| - 1], c[..|c| - 1];
      if Lev(a, b) == Lev(a', b) + 1 {
        Triangle(a', b, c);
      } else if Lev(b, c) == Lev(b, c') + 1 {
        Triangle(a, b, c');
      } else if Lev(a, b) == Lev(a, b') + 1 {
        if Lev(b, c) == Lev(b', c) + 1 { Triangle(a, b', c); } else { Triangle(a, b', c'); }
      } else if Lev(b, c) == Lev(b', c) + 1 {
        Triangle(a', b', c);
      } else {
        Triangle(a', b', c');
      }
    }
  }

  // ----------------------------------------------------------- edit scripts

  /** One insertion, deletion or substitution at a position. */
  datatype Edit = Insert(at: nat, x: char) | Delete(at: nat) | Substitute(at: nat, x: char)

  predicate Applies(e: Edit, s: string) { if e.Insert? then e.at <= |s| else e.at < |s| }

  function Apply(e: Edit, s: string): string
    requires Applies(e, s)
  {
    match e
    case Insert(i, x) => s[..i] + [x] + s[i..]
    case Delete(i) => s[..i] + s[i + 1..]
    case Substitute(i, x) => s[..i] + [x] + s[i + 1..]
  }

  /** The script turns a into b, every edit being possible when its turn comes. */
  ghost predicate Edits(a: string, script: seq<Edit>, b: string)
    decreases |script|
  {
    if script == [] then a == b else Applies(script[0], a) && Edits(Apply(script[0], a), script[1..], b)
  }

  lemma {:induction false} CommonSuffix(a: string, b: string, s: string)
    ensures Lev(a + s, b + s) <= Lev(a, b)
    decreases |s|
  {
    if s == [] {
      assert a + s == a && b + s == b;
    } else {
      var s' := s[..|s| - 1];
      assert (a + s)[..|a + s| - 1] == a + s' && (b + s)[..|b + s| - 1] == b + s';
      CommonSuffix(a, b, s');
    }
  }

  lemma OneEditIsNear(e: Edit, s: string)
    requires Applies(e, s)
    ensures Lev(s, Apply(e, s)) <= 1
  {
    match e
    case Insert(i, x) =>
      assert s == s[..i] + s[i..];
      CommonSuffix(s[..i], s[..i] + [x], s[i..]);
      LastInserted(s[..i], x);
    case Delete(i) =>
      assert s == s[..i] + [s[i]] + s[i + 1..];
      CommonSuffix(s[..i] + [s[i]], s[..i], s[i + 1..]);
      LastInserted(s[..i], s[i]);
    case Substitute(i, x) =>
      assert s == s[..i] + [s[i]] + s[i + 1..];
      CommonSuffix(s[..i] + [s[i]], s[..i] + [x], s[i + 1..]);
      LastReplaced(s[..i], s[i], x);
  }

  lemma LastInserted(p: string, x: char)
    ensures Lev(p, p + [x]) <= 1 && Lev(p + [x], p) <= 1
  {
    ZeroOnlyForEqual(p, p);
    assert (p + [x])[..|p|] == p;
  }

  lemma LastReplaced(p: string, x: char, y: char)
    ensures Lev(p + [x], p + [y]) <= 1
  {
    ZeroOnlyForEqual(p, p);
    assert (p + [x])[..|p|] == p && (p + [y])[..|p|] == p;
  }

  /** No script is shorter than the distance. */
  lemma {:induction false} ScriptsAreNoShorter(a: string, script: seq<Edit>, b: string)
    requires Edits(a, script, b)
    ensures Lev(a, b) <= |script|
    decreases |script|
  {
    if script == [] {
      ZeroOnlyForEqual(a, b);
    } else {
      var m := Apply(script[0], a);
      OneEditIsNear(script[0], a);
      ScriptsAreNoShorter(m, script[1..], b);
      Triangle(a, m, b);
    }
  }

  /** A script is carried to the same edits in front of a common last character. */
  lemma {:induction false} EditsBeforeLast(a: string, script: seq<Edit>, b: string, x: char)
    requires Edits(a, script, b)
    ensures Edits(a + [x], script, b + [x])
    decreases |script|
  {
    if script != [] {
      var e := script[0];
      assert Apply(e, a + [x]) == Apply(e, a) + [x] by {
        match e
        case Insert(i, y) => assert (a + [x])[..i] == a[..i] && (a + [x])[i..] == a[i..] + [x];
        case Delete(i) => assert (a + [x])[..i] == a[..i] && (a + [x])[i + 1..] == a[i + 1..] + [x];
        case Substitute(i, y) => assert (a + [x])[..i] == a[..i] && (a + [x])[i + 1..] == a[i + 1..] + [x];
      }
      EditsBeforeLast(Apply(e, a), script[1..], b, x);
    }
  }

  lemma {:induction false} EditsThen(a: string, script: seq<Edit>, b: string, e: Edit)
    requires Edits(a, script, b) && Applies(e, b)
    ensures Edits(a, script + [e], Apply(e, b))
    decreases |script|
  {
    if script == [] {
      assert [e][1..] == [] && [] + [e] == [e];
    } else {
      assert (script + [e])[0] == script[0] && (script + [e])[1..] == script[1..] + [e];
      EditsThen(Apply(script[0], a), script[1..], b, e);
    }
  }

  lemma InsertLast(p: string, x: char)
    ensures Applies(Insert(|p|, x), p) && Apply(Insert(|p|, x), p) == p + [x]
  {
    assert p[..|p|] == p && p[|p|..] == [];
  }

  lemma DeleteLast(p: string, x: char)
    ensures Applies(Delete(|p|), p + [x]) && Apply(Delete(|p|), p + [x]) == p
  {
    assert (p + [x])[..|p|] == p && (p + [x])[|p| + 1..] == [];
  }

  lemma SubstituteLast(p: string, x: char, y: char)
    ensures Applies(Substitute(|p|, y), p + [x]) && Apply(Substitute(|p|, y), p + [x]) == p + [y]
  {
    assert (p + [x])[..|p|] == p && (p + [x])[|p| + 1..] == [];
  }

  lemma EditsFirst(a: string, e: Edit, m: string, script: seq<Edit>, b: string)
    requires Applies(e, a) && Apply(e, a) == m && Edits(m, script, b)
    ensures Edits(a, [e] + script, b)
  {
    assert ([e] + script)[1..] == script;
  }

  /** A script of exactly the distance's length. */
  lemma {:induction false} BestScript(a: string, b: string) returns (script: seq<Edit>)
    ensures Edits(a, script, b) && |script| == Lev(a, b)
    decreases |a| + |b|
  {
    if b == [] && a == [] {
      script := [];
      return;
    }
    var a', b' := if a == [] then [] else a[..|a| - 1], if b == [] then [] else b[..|b| - 1];
    assert a != [] ==> a == a' + [a[|a| - 1]];
    assert b != [] ==> b == b' + [b[|b| - 1]];
    if b != [] && (a == [] || Lev(a, b) == Lev(a, b') + 1) {
      script := BestScript(a, b');
      InsertLast(b', b[|b| - 1]);
      EditsThen(a, script, b', Insert(|b'|, b[|b| - 1]));
      script := script + [Insert(|b'|, b[|b| - 1])];
    } else if b == [] || Lev(a, b) == Lev(a', b) + 1 {
      script := BestScript(a', b);
      DeleteLast(a', a[|a| - 1]);
      EditsFirst(a, Delete(|a'|), a', script, b);
      script := [Delete(|a'|)] + script;
    } else {
      script := BestLast(a', b', a[|a| - 1], b[|b| - 1]);
    }
  }

  lemma {:induction false} BestLast(a: string, b: string, x: char, y: char) returns (script: seq<Edit>)
    ensures Edits(a + [x], script, b + [y]) && |script| == Lev(a, b) + Cost(x, y)
    decreases |a| + |b| + 1
  {
    script := BestScript(a, b);
    EditsBeforeLast(a, script, b, x);
    if x != y {
      SubstituteLast(b, x, y);
      EditsThen(a + [x], script, b + [x], Substitute(|b|, y));
      script := script + [Substitute(|b|, y)];
    }
  }

  /** Lev is the length of the shortest edit script. */
  lemma DistanceIsShortestScript(a: string, b: string, k: nat)
    ensures Lev(a, b) <= k <==> exists script :: Edits(a, script, b) && |script| <= k
  {
    if exists script :: Edits(a, script, b) && |script| <= k {
      var script :| Edits(a, script, b) && |script| <= k;
      ScriptsAreNoShorter(a, script, b);
    } else if Lev(a, b) <= k {
      var script := BestScript(a, b);
      assert false;
    }
  }

  // ------------------------------------------------------------ similarName

  /** similarName for a given normalisation; d / max <= 0.2 without division. */
  method SimilarName(normalize: string -> string, a: string, b: string) returns (similar: bool)
    ensures similar == Similar(normalize, a, b)
  {
    var na, nb := normalize(a), normalize(b);
    if na == "" || nb == "" { return false; }
    ZeroOnlyForEqual(na, nb);
    if na == nb { return true; }
    var d := Distance(na, nb);
    similar := d <= 2 && 5 * d <= Max(|na|, |nb|);
  }

  predicate Similar(normalize: string -> string, a: string, b: string) {
    var na, nb := normalize(a), normalize(b);
    na != "" && nb != "" && Lev(na, nb) <= 2 && 5 * Lev(na, nb) <= Max(|na|, |nb|)
  }

  /** The edits allowed between names whose longer one has n characters. */
  function Allowed(n: nat): nat { if n < 5 then 0 else if n < 10 then 1 else 2 }

  /**
   * Two names are similar exactly when both normalise to something and some
   * script of no more than the allowed edits turns one into the other: none
   * below five characters, one below ten, two from there on.
   */
  lemma SimilarIff(normalize: string -> string, a: string, b: string)
    ensures var na, nb := normalize(a), normalize(b);
            Similar(normalize, a, b) <==>
              na != "" && nb != "" && exists script :: Edits(na, script, nb) && |script| <= Allowed(Max(|na|, |nb|))
  {
    var na, nb := normalize(a), normalize(b);
    DistanceIsShortestScript(na, nb, Allowed(Max(|na|, |nb|)));
  }

  /**
   * Similarity does not depend on which name is the scanned one, holds of a name
   * and itself unless it normalises to nothing, and similar names are never
   * shorter than five times the edits between them.
   */
  lemma SimilarIsSymmetric(normalize: string -> string, a: string, b: string)
    ensures Similar(normalize, a, b) == Similar(normalize, b, a)
    ensures Similar(normalize, a, a) == (normalize(a) != "")
    ensures Similar(normalize, a, b) && Max(|normalize(a)|, |normalize(b)|) < 5 ==> normalize(a) == normalize(b)
  {
    Symmetric(normalize(a), normalize(b));
    ZeroOnlyForEqual(normalize(a), normalize(a));
    ZeroOnlyForEqual(normalize(a), normalize(b));
  }
}
