/**
 * InventoryService.writeOnce: a lookup, a write against the unique index on the
 * key, and a recovery read, each its own statement with other requests between.
 */
module WriteOnce {
  import opened Keys
  import opened Options
  import opened Traces

  type RequestId = nat

  type Key = Option<string>

  datatype Request = Ready(key: Key) | Lost(key: Key)

  datatype Outcome = Returned(row: nat) | KeyTaken | Failed

  datatype Answer = Answer(key: Key, outcome: Outcome)

  /** A movement's key; its id is its position in the ledger. */
  datatype State = State(rows: seq<Key>, requests: map<RequestId, Request>, answers: map<RequestId, Answer>)

  datatype Action =
    | Lookup(r: RequestId, key: Key)
    | Insert(r: RequestId)
    | Recover(r: RequestId)
    | Fail(r: RequestId) // the write throws: unknown ingredient or supplier, or any database error

  function Initial(): State { State([], map[], map[]) }

  predicate InUse(rows: seq<Key>, key: Key) { key.Some? && key in rows }

  function Find(rows: seq<Key>, key: Key): (i: nat)
    requires InUse(rows, key)
    ensures i < |rows| && rows[i] == key && key !in rows[..i]
  {
    First(rows, (k: Key) => k == key)
  }

  function Finish(s: State, r: RequestId, key: Key, o: Outcome): State {
    s.(requests := s.requests - {r}, answers := s.answers[r := Answer(key, o)])
  }

  function Step(s: State, a: Action): State {
    match a
    case Lookup(r, key) =>
      if r in s.requests || r in s.answers then s
      else if Usable(key) && InUse(s.rows, key) then Finish(s, r, key, Returned(Find(s.rows, key)))
      else s.(requests := s.requests[r := Ready(key)])
    case Insert(r) =>
      if r !in s.requests || !s.requests[r].Ready? then s
      else
        var key := s.requests[r].key;
        if !InUse(s.rows, key) then Finish(s.(rows := s.rows + [key]), r, key, Returned(|s.rows|))
        else if Usable(key) then s.(requests := s.requests[r := Lost(key)])
        else Finish(s, r, key, KeyTaken)
    case Recover(r) =>
      if r !in s.requests || !s.requests[r].Lost? then s
      else
        var key := s.requests[r].key;
        Finish(s, r, key, if InUse(s.rows, key) then Returned(Find(s.rows, key)) else KeyTaken)
    case Fail(r) =>
      if r in s.requests && s.requests[r].Ready? then Finish(s, r, s.requests[r].key, Failed) else s
  }

  function Steps(): (State, Action) -> State { (s: State, a: Action) => Step(s, a) }

  function Run(s: State, acts: seq<Action>): State { RunOf(Steps(), s, acts) }

  ghost predicate KeysUnique(rows: seq<Key>) {
    forall i, j | 0 <= i < j < |rows| :: rows[i].Some? ==> rows[i] != rows[j]
  }

  ghost predicate AnswersMatch(s: State) {
    forall r | r in s.answers ::
      && (s.answers[r].outcome.Returned? ==>
            s.answers[r].outcome.row < |s.rows| && s.rows[s.answers[r].outcome.row] == s.answers[r].key)
      && (s.answers[r].outcome.KeyTaken? ==> s.answers[r].key == Some(""))
  }

  ghost predicate LossesHaveWinners(s: State) {
    forall r | r in s.requests && s.requests[r].Lost? :: Usable(s.requests[r].key) && InUse(s.rows, s.requests[r].key)
  }

  ghost predicate Inv(s: State) { KeysUnique(s.rows) && AnswersMatch(s) && LossesHaveWinners(s) }

  lemma InUseStays(rows: seq<Key>, more: seq<Key>, key: Key)
    requires rows <= more && InUse(rows, key)
    ensures InUse(more, key)
  {
    var i :| 0 <= i < |rows| && rows[i] == key;
    assert more[i] == key;
  }

  lemma StepExtends(s: State, a: Action)
    ensures s.rows <= Step(s, a).rows
  {
  }

  lemma StepKeepsLosses(s: State, a: Action)
    requires LossesHaveWinners(s)
    ensures LossesHaveWinners(Step(s, a))
  {
    StepExtends(s, a);
    forall r | r in s.requests && s.requests[r].Lost?
      ensures InUse(Step(s, a).rows, s.requests[r].key)
    {
      InUseStays(s.rows, Step(s, a).rows, s.requests[r].key);
    }
  }

  lemma StepKeepsAnswers(s: State, a: Action)
    requires AnswersMatch(s) && LossesHaveWinners(s)
    ensures AnswersMatch(Step(s, a))
  {
    StepExtends(s, a);
  }

  lemma StepKeepsKeys(s: State, a: Action)
    requires KeysUnique(s.rows)
    ensures KeysUnique(Step(s, a).rows)
  {
  }

  lemma StepKeepsInv(s: State, a: Action)
    requires Inv(s)
    ensures Inv(Step(s, a)) && s.rows <= Step(s, a).rows
  {
    StepKeepsLosses(s, a);
    StepKeepsAnswers(s, a);
    StepKeepsKeys(s, a);
    StepExtends(s, a);
  }

  lemma {:induction false} RunKeepsInv(s: State, acts: seq<Action>)
    requires Inv(s)
    ensures Inv(Run(s, acts)) && s.rows <= Run(s, acts).rows
    decreases |acts|
  {
    if acts != [] {
      StepKeepsInv(s, acts[0]);
      RunKeepsInv(Step(s, acts[0]), acts[1..]);
    }
  }

  /**
   * However calls with one key interleave, at most one row carries it, every
   * call that returns gives that row, and none is turned away for the key.
   */
  lemma KeyIsWrittenOnce(acts: seq<Action>, r: RequestId, key: Key, i: nat)
    requires Usable(key) && r in Run(Initial(), acts).answers && Run(Initial(), acts).answers[r].key == key
    requires i < |Run(Initial(), acts).rows|
    ensures Run(Initial(), acts).answers[r].outcome != KeyTaken
    ensures Run(Initial(), acts).answers[r].outcome.Returned? ==>
              (Run(Initial(), acts).rows[i] == key <==> i == Run(Initial(), acts).answers[r].outcome.row)
  {
    RunKeepsInv(Initial(), acts);
  }

  /** A second call is answered exactly if its key is not the empty one, which is stored but never looked up. */
  lemma SecondCallIsAnsweredIff(s: State, r: RequestId, key: Key)
    requires r !in s.requests && r !in s.answers && InUse(s.rows, key)
    ensures var looked := Step(s, Lookup(r, key));
            var s' := if r in looked.answers then looked else Step(looked, Insert(r));
            s'.rows == s.rows && r in s'.answers
            && (s'.answers[r].outcome.Returned? <==> key != Some("")) && (s'.answers[r].outcome.KeyTaken? <==> key == Some(""))
  {
  }

  /** An undisturbed call whose key no row carries, or that has none, adds one row with it and returns that row. */
  lemma FreshCallWrites(s: State, r: RequestId, key: Key)
    requires r !in s.requests && r !in s.answers && (key.Some? ==> key !in s.rows)
    ensures var t := Step(Step(s, Lookup(r, key)), Insert(r));
            t.rows == s.rows + [key] && r !in t.requests && r in t.answers && t.answers[r] == Answer(key, Returned(|s.rows|))
  {
  }

  // ----------------------------------------------------------- in its own form

  predicate Elsewhere(acts: seq<Action>, r: RequestId) { forall i | 0 <= i < |acts| :: acts[i].r != r }

  lemma {:induction false} OthersKeep(s: State, acts: seq<Action>, r: RequestId)
    requires Elsewhere(acts, r)
    ensures r in Run(s, acts).requests <==> r in s.requests
    ensures r in s.requests ==> Run(s, acts).requests[r] == s.requests[r]
    ensures r in Run(s, acts).answers <==> r in s.answers
    decreases |acts|
  {
    if acts != [] {
      assert acts[0].r != r;
      OthersKeep(Step(s, acts[0]), acts[1..], r);
    }
  }

  lemma ExplainsRun(log: seq<Action>, s: State)
    requires Explains(Steps(), Initial(), log, s)
    ensures s == Run(Initial(), log) && Inv(s)
  {
    assert Unfold(0);
    RunKeepsInv(Initial(), log);
  }

  class Ledger {
    var rows: seq<Key>
    var requests: map<RequestId, Request>
    var answers: map<RequestId, Answer>
    ghost var log: seq<Action>

    ghost function Now(): State reads this { State(rows, requests, answers) }

    ghost predicate Valid() reads this { Explains(Steps(), Initial(), log, Now()) }

    constructor ()
      ensures Valid() && log == []
    {
      rows, requests, answers, log := [], map[], map[], [];
    }

    method OthersRun(gap: seq<Action>, ghost r: RequestId)
      requires Valid() && Elsewhere(gap, r)
      modifies this
      ensures Valid() && log == old(log) + gap
      ensures r in requests <==> r in old(requests)
      ensures r in requests ==> requests[r] == old(requests[r])
      ensures r in answers <==> r in old(answers)
    {
      ghost var start, before := Now(), log;
      var k := 0;
      assert gap[..0] == [];
      while k < |gap|
        invariant 0 <= k <= |gap|
        invariant Valid() && log == before + gap[..k]
        invariant Now() == Run(start, gap[..k])
      {
        RunSnoc(Steps(), start, gap[..k], gap[k]);
        assert gap[..k + 1] == gap[..k] + [gap[k]];
        ExplainsOne(Steps(), Initial(), log, Now(), gap[k]);
        var s := Step(State(rows, requests, answers), gap[k]);
        rows, requests, answers := s.rows, s.requests, s.answers;
        log := log + [gap[k]];
        k := k + 1;
      }
      assert gap[..|gap|] == gap;
      OthersKeep(start, gap, r);
    }

    method Reply(r: RequestId, key: Key, o: Outcome)
      modifies this`requests, this`answers
      ensures requests == old(requests) - {r} && answers == old(answers)[r := Answer(key, o)]
    {
      requests := requests - {r};
      answers := answers[r := Answer(key, o)];
    }

    /** findMovementByKey */
    method FindMovementByKey(key: Key) returns (found: Option<nat>)
      requires key.Some?
      ensures found == if InUse(rows, key) then Some(Find(rows, key)) else None
    {
      var i := 0;
      while i < |rows|
        invariant 0 <= i <= |rows| && key !in rows[..i]
      {
        if rows[i] == key {
          return Some(i);
        }
        i := i + 1;
      }
      found := None;
    }

    method LookUp(r: RequestId, key: Key) returns (existing: Option<nat>)
      requires Valid() && r !in requests && r !in answers
      modifies this`requests, this`answers, this`log
      ensures Valid() && log == old(log) + [Lookup(r, key)]
      ensures existing.Some? ==> r !in requests && answers == old(answers)[r := Answer(key, Returned(existing.value))]
      ensures existing.None? ==> requests == old(requests)[r := Ready(key)] && answers == old(answers)
    {
      ExplainsOne(Steps(), Initial(), log, Now(), Lookup(r, key));
      log := log + [Lookup(r, key)];
      existing := None;
      if key.Some? && key.value != "" { existing := FindMovementByKey(key); }
      if existing.Some? { Reply(r, key, Returned(existing.value)); } else { requests := requests[r := Ready(key)]; }
    }

    /** The write; None when the index on the key rejected it. */
    method TryWrite(r: RequestId, key: Key) returns (row: Option<nat>)
      requires Valid() && r in requests && requests[r] == Ready(key) && r !in answers
      modifies this
      ensures Valid() && log == old(log) + [Insert(r)]
      ensures row == if InUse(old(rows), key) then None else Some(|old(rows)|)
      ensures rows == if row.Some? then old(rows) + [key] else old(rows)
      ensures row.Some? ==> r !in requests && r in answers && answers[r] == Answer(key, Returned(row.value))
      ensures row.None? && Usable(key) ==> r !in answers && r in requests && requests[r] == Lost(key)
      ensures row.None? && !Usable(key) ==> r !in requests && r in answers && answers[r] == Answer(key, KeyTaken)
    {
      ExplainsOne(Steps(), Initial(), log, Now(), Insert(r));
      log := log + [Insert(r)];
      row := None;
      if !InUse(rows, key) {
        row := Some(|rows|);
        rows := rows + [key];
        Reply(r, key, Returned(|rows| - 1));
      } else if Usable(key) {
        requests := requests[r := Lost(key)];
      } else {
        Reply(r, key, KeyTaken);
      }
    }

    method ReadWinner(r: RequestId, key: Key) returns (o: Outcome)
      requires Valid() && r in requests && requests[r] == Lost(key)
      modifies this`requests, this`answers, this`log
      ensures Valid() && log == old(log) + [Recover(r)]
      ensures r !in requests && r in answers && answers[r] == Answer(key, o) && o.Returned?
    {
      ExplainsRun(log, Now());
      ExplainsOne(Steps(), Initial(), log, Now(), Recover(r));
      log := log + [Recover(r)];
      var existing := FindMovementByKey(key);
      o := if existing.Some? then Returned(existing.value) else KeyTaken;
      Reply(r, key, o);
    }

    /** The write, after a lookup that found nothing. */
    method WriteMissing(r: RequestId, key: Key, gaps: seq<seq<Action>>, ghost start: seq<Action>)
      returns (o: Outcome, ghost own: seq<Action>)
      requires Valid() && r in requests && requests[r] == Ready(key) && r !in answers
      requires |gaps| == 3 && Elsewhere(gaps[1], r) && Elsewhere(gaps[2], r)
      requires log == Weave(start, gaps, [Lookup(r, key)])
      modifies this
      ensures Valid() && |own| <= 3 && log == Weave(start, gaps, own)
      ensures r !in requests && r in answers && answers[r] == Answer(key, o)
      ensures own == [Lookup(r, key), Insert(r)] || own == [Lookup(r, key), Insert(r), Recover(r)]
    {
      OthersRun(gaps[1], r);
      var row := TryWrite(r, key);
      WeaveOne(start, gaps, [Lookup(r, key)], Insert(r));
      own := [Lookup(r, key)] + [Insert(r)];
      if row.Some? {
        o := Returned(row.value);
      } else if key.Some? && key.value != "" {
        OthersRun(gaps[2], r);
        o := ReadWinner(r, key);
        WeaveOne(start, gaps, own, Recover(r));
        own := own + [Recover(r)];
      } else {
        o := KeyTaken;
      }
    }

    lemma Settled(r: RequestId)
      requires Valid() && r in answers
      ensures KeysUnique(rows)
      ensures answers[r].outcome.Returned? ==> answers[r].outcome.row < |rows| && rows[answers[r].outcome.row] == answers[r].key
      ensures answers[r].outcome.KeyTaken? ==> answers[r].key == Some("")
    {
      ExplainsRun(log, Now());
    }

    /** writeOnce, when the write itself does not fail. */
    method WriteOnce(r: RequestId, key: Key, gaps: seq<seq<Action>>) returns (o: Outcome, ghost own: seq<Action>)
      requires Valid() && r !in requests && r !in answers
      requires |gaps| == 3 && forall k | 0 <= k < 3 :: Elsewhere(gaps[k], r)
      modifies this
      ensures Valid() && |own| <= 3 && log == Weave(old(log), gaps, own)
      ensures r !in requests && r in answers && answers[r] == Answer(key, o)
      ensures KeysUnique(rows)
      ensures o.Returned? ==> o.row < |rows| && rows[o.row] == key
      ensures o.KeyTaken? ==> key == Some("")
      ensures own == [Lookup(r, key)] || own == [Lookup(r, key), Insert(r)]
              || own == [Lookup(r, key), Insert(r), Recover(r)]
    {
      OthersRun(gaps[0], r);
      var existing := LookUp(r, key);
      WeaveOne(old(log), gaps, [], Lookup(r, key));
      assert [] + [Lookup(r, key)] == [Lookup(r, key)];
      if existing.Some? {
        o, own := Returned(existing.value), [Lookup(r, key)];
      } else {
        o, own := WriteMissing(r, key, gaps, old(log));
      }
      Settled(r);
    }
  }
}
