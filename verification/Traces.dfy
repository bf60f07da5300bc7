/** Runs of a state machine, and logs of interleaved requests. */
module Traces {
  /** The state after a sequence of actions. */
  function RunOf<S, A>(step: (S, A) -> S, s: S, acts: seq<A>): S
    decreases |acts|
  {
    if acts == [] then s else RunOf(step, step(s, acts[0]), acts[1..])
  }

  lemma {:induction false} RunAppend<S, A>(step: (S, A) -> S, s: S, a: seq<A>, b: seq<A>)
    ensures RunOf(step, s, a + b) == RunOf(step, RunOf(step, s, a), b)
    decreases |a|
  {
    if a == [] {
      assert a + b == b;
    } else {
      assert (a + b)[0] == a[0] && (a + b)[1..] == a[1..] + b;
      RunAppend(step, step(s, a[0]), a[1..], b);
    }
  }

  lemma RunSnoc<S, A>(step: (S, A) -> S, s: S, acts: seq<A>, a: A)
    ensures RunOf(step, s, acts + [a]) == step(RunOf(step, s, acts), a)
  {
    RunAppend(step, s, acts, [a]);
    var t := RunOf(step, s, acts);
    assert [a][1..] == [] && RunOf(step, t, [a]) == RunOf(step, step(t, a), []);
  }

  lemma RunCons<S, A>(step: (S, A) -> S, s: S, a: A, rest: seq<A>)
    ensures RunOf(step, s, [a] + rest) == RunOf(step, step(s, a), rest)
  {
    assert ([a] + rest)[1..] == rest;
  }

  lemma RunThree<S, A>(step: (S, A) -> S, s: S, a: A, b: A, c: A)
    ensures RunOf(step, s, [a, b, c]) == step(step(step(s, a), b), c)
  {
    RunCons(step, s, a, [b, c]);
    RunCons(step, step(s, a), b, [c]);
    RunCons(step, step(step(s, a), b), c, []);
    assert [a] + [b, c] == [a, b, c] && [b] + [c] == [b, c] && [c] + [] == [c];
  }

  lemma RunSix<S, A>(step: (S, A) -> S, s: S, a: A, b: A, c: A, d: A, e: A, f: A)
    ensures RunOf(step, s, [a, b, c, d, e, f]) == step(step(step(step(step(step(s, a), b), c), d), e), f)
  {
    assert [a, b, c, d, e, f] == [a, b, c] + [d, e, f];
    RunAppend(step, s, [a, b, c], [d, e, f]);
    RunThree(step, s, a, b, c);
    RunThree(step, step(step(step(s, a), b), c), d, e, f);
  }

  /** A request id beyond all of these. */
  lemma {:induction false} Beyond(ids: set<int>) returns (q: nat)
    ensures forall i | i in ids :: i < q
  {
    if i :| i in ids {
      q := Beyond(ids - {i});
      if q <= i { q := i + 1; }
      forall j | j in ids ensures j < q { assert j == i || j in ids - {i}; }
    } else {
      q := 0;
    }
  }

  function Flatten<A>(parts: seq<seq<A>>): seq<A> {
    if parts == [] then [] else Flatten(parts[..|parts| - 1]) + parts[|parts| - 1]
  }

  lemma FlattenOne<A>(parts: seq<seq<A>>, k: nat)
    requires k < |parts|
    ensures Flatten(parts[..k + 1]) == Flatten(parts[..k]) + parts[k]
  {
    assert parts[..k + 1][..k] == parts[..k];
  }

  /** The log after one request's own steps, the k-th preceded by gaps[k]. */
  function Weave<A>(log: seq<A>, gaps: seq<seq<A>>, own: seq<A>): seq<A>
    requires |own| <= |gaps|
  {
    if own == [] then log
    else Weave(log, gaps, own[..|own| - 1]) + gaps[|own| - 1] + [own[|own| - 1]]
  }

  lemma {:induction false} WeaveMore<A>(log: seq<A>, gaps: seq<seq<A>>, last: seq<A>, own: seq<A>)
    requires |own| <= |gaps|
    ensures Weave(log, gaps + [last], own) == Weave(log, gaps, own)
  {
    if own != [] { WeaveMore(log, gaps, last, own[..|own| - 1]); }
  }

  lemma WeaveOne<A>(log: seq<A>, gaps: seq<seq<A>>, own: seq<A>, a: A)
    requires |own| < |gaps|
    ensures Weave(log, gaps, own + [a]) == Weave(log, gaps, own) + gaps[|own|] + [a]
  {
    assert (own + [a])[..|own|] == own;
  }

  lemma WeaveTwo<A>(log: seq<A>, gaps: seq<seq<A>>, own: seq<A>, a: A, b: A)
    requires |own| + 1 < |gaps|
    ensures Weave(log, gaps, own + [a, b]) == Weave(log, gaps, own) + gaps[|own|] + [a] + gaps[|own| + 1] + [b]
  {
    WeaveOne(log, gaps, own, a);
    WeaveOne(log, gaps, own + [a], b);
    assert own + [a, b] == own + [a] + [b];
  }

  /** Always true; a fact that mentions it is used only where it is asserted. */
  ghost predicate Unfold(n: nat) { true }

  /**
   * The tables in s are the run over log. The idle quantifier keeps the run
   * folded wherever it is only carried along.
   */
  ghost predicate Explains<S, A>(step: (S, A) -> S, start: S, log: seq<A>, s: S) {
    forall n {:trigger Unfold(n)} :: Unfold(n) ==> s == RunOf(step, start, log)
  }

  lemma ExplainsOne<S, A>(step: (S, A) -> S, start: S, log: seq<A>, s: S, a: A)
    requires Explains(step, start, log, s)
    ensures Explains(step, start, log + [a], step(s, a))
  {
    assert Unfold(0);
    RunSnoc(step, start, log, a);
  }
}
