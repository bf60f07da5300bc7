/**
 * OrdersService.create in its own form: a lookup, up to five attempts to number
 * and insert the order, and a recovery read, with other requests running in
 * every gap. The log records what was performed; the tables are always the
 * protocol's run over it.
 */
module OrderCreation {
  import opened Keys
  import opened Options
  import opened Traces
  import opened OrderNumbering

  function Requester(a: Action): RequestId { a.r }

  predicate Elsewhere(acts: seq<Action>, r: RequestId) {
    forall i | 0 <= i < |acts| :: Requester(acts[i]) != r
  }

  lemma {:induction false} OthersKeep(s: State, acts: seq<Action>, r: RequestId)
    requires Elsewhere(acts, r)
    ensures r in Run(s, acts).requests <==> r in s.requests
    ensures r in s.requests ==> Run(s, acts).requests[r] == s.requests[r]
    ensures r in Run(s, acts).answers <==> r in s.answers
    ensures s.orders <= Run(s, acts).orders
    decreases |acts|
  {
    if acts != [] {
      assert Requester(acts[0]) != r;
      StepExtends(s, acts[0]);
      OthersKeep(Step(s, acts[0]), acts[1..], r);
    }
  }

  lemma ExplainsRun(log: seq<Action>, s: State)
    requires Explains(Steps(), Initial(), log, s)
    ensures s == Run(Initial(), log) && Inv(s)
  {
    assert Unfold(0);
    RunKeepsInv(Initial(), log);
  }

  class Service {
    var orders: seq<Order>
    var requests: map<RequestId, Request>
    var answers: map<RequestId, Answer>
    ghost var log: seq<Action>

    ghost function Now(): State reads this { State(orders, requests, answers) }

    ghost predicate Valid() reads this { Explains(Steps(), Initial(), log, Now()) }

    constructor ()
      ensures Valid() && log == []
    {
      orders, requests, answers, log := [], map[], map[], [];
    }

    method Perform(a: Action)
      requires Valid()
      modifies this
      ensures Valid() && log == old(log) + [a] && Now() == Step(old(Now()), a)
    {
      var s := Step(State(orders, requests, answers), a);
      ExplainsOne(Steps(), Initial(), log, Now(), a);
      orders, requests, answers := s.orders, s.requests, s.answers;
      log := log + [a];
    }

    /** Whatever the other requests do between two statements of request `r`. */
    method OthersRun(gap: seq<Action>, ghost r: RequestId)
      requires Valid() && Elsewhere(gap, r)
      modifies this
      ensures Valid() && log == old(log) + gap
      ensures r in requests <==> r in old(requests)
      ensures r in requests ==> requests[r] == old(requests[r])
      ensures r in answers <==> r in old(answers)
      ensures old(orders) <= orders
    {
      ghost var start, before := Now(), log;
      var k := 0;
      assert gap[..0] == [];
      while k < |gap|
        invariant 0 <= k <= |gap|
        invariant Valid() && log == before + gap[..k]
        invariant Now() == Run(start, gap[..k])
      {
        RunSnoc(Steps(), start, gap[..k], gap[k]);
        assert gap[..k + 1] == gap[..k] + [gap[k]];
        Perform(gap[k]);
        k := k + 1;
      }
      assert gap[..|gap|] == gap;
      OthersKeep(start, gap, r);
    }

    method Reply(r: RequestId, key: Option<string>, o: Outcome)
      modifies this`requests, this`answers
      ensures requests == old(requests) - {r} && answers == old(answers)[r := Answer(key, o)]
    {
      requests := requests - {r};
      answers := answers[r := Answer(key, o)];
    }

    /** findByIdempotencyKey */
    method FindByKey(key: Option<string>) returns (found: Option<nat>)
      requires key.Some?
      ensures found == if KeyInUse(orders, key) then Some(FindKey(orders, key)) else None
    {
      var i := 0;
      while i < |orders|
        invariant 0 <= i <= |orders|
        invariant forall j | 0 <= j < i :: orders[j].key != key
      {
        if orders[i].key == key {
          return Some(i);
        }
        i := i + 1;
      }
      found := None;
    }

    /** The lookup before the first attempt; an unusable key skips it. */
    method LookUp(r: RequestId, key: Option<string>) returns (existing: Option<nat>)
      requires Valid() && r !in requests && r !in answers
      modifies this`requests, this`answers, this`log
      ensures Valid() && log == old(log) + [Lookup(r, key)]
      ensures existing.Some? ==> r !in requests && answers == old(answers)[r := Answer(key, Returned(existing.value))]
      ensures existing.None? ==> requests == old(requests)[r := Request(key, 0, Ready)] && answers == old(answers)
    {
      ExplainsOne(Steps(), Initial(), log, Now(), Lookup(r, key));
      log := log + [Lookup(r, key)];
      existing := None;
      if key.Some? && key.value != "" { existing := FindByKey(key); }
      if existing.Some? { Reply(r, key, Returned(existing.value)); }
      else { requests := requests[r := Request(key, 0, Ready)]; }
    }

    /** max(order_number) + 1, inside the transaction. */
    method PickNumber(r: RequestId) returns (n: nat)
      requires Valid() && r in requests && requests[r].phase == Ready
      modifies this`requests, this`log
      ensures Valid() && log == old(log) + [ReadMax(r)] && n == |orders| + 1
      ensures requests == old(requests)[r := old(requests[r]).(phase := Picked(n))]
    {
      ExplainsRun(log, Now());
      MaxIsCount(orders);
      ExplainsOne(Steps(), Initial(), log, Now(), ReadMax(r));
      log := log + [ReadMax(r)];
      n := MaxNumber(orders) + 1;
      requests := requests[r := requests[r].(phase := Picked(n))];
    }

    /** The insert and its commit, or the rollback an index forces. */
    method TryInsert(r: RequestId, report: Report) returns (verdict: Verdict)
      requires Valid() && r in requests && requests[r].phase.Picked?
      modifies this
      ensures Valid() && log == old(log) + [Insert(r, report)]
      ensures verdict == Check(old(orders), old(requests[r].phase.number), old(requests[r].key), report)
      ensures Now() == InsertStep(old(Now()), r, old(requests[r]), report)
    {
      ExplainsOne(Steps(), Initial(), log, Now(), Insert(r, report));
      log := log + [Insert(r, report)];
      var q := requests[r];
      verdict := Check(orders, q.phase.number, q.key, report);
      match verdict {
        case Accepted =>
          orders := orders + [Order(q.phase.number, q.key)];
          Reply(r, q.key, Returned(|orders| - 1));
        case NumberRejected =>
          if q.attempts + 1 < MAX_ATTEMPTS { requests := requests[r := Request(q.key, q.attempts + 1, Ready)]; }
          else { Reply(r, q.key, Exhausted); }
        case KeyRejected =>
          if Usable(q.key) { requests := requests[r := q.(phase := Lost)]; } else { Reply(r, q.key, KeyTaken); }
      }
    }

    /** The recovery read, in a fresh transaction. */
    method RecoverOrder(r: RequestId, key: Option<string>) returns (o: Outcome)
      requires Valid() && r in requests && requests[r].phase == Lost && requests[r].key == key && key.Some?
      modifies this`requests, this`answers, this`log
      ensures Valid() && log == old(log) + [Recover(r)]
      ensures r !in requests && answers == old(answers)[r := Answer(key, o)]
      ensures o == if KeyInUse(orders, key) then Returned(FindKey(orders, key)) else KeyTaken
    {
      ExplainsOne(Steps(), Initial(), log, Now(), Recover(r));
      log := log + [Recover(r)];
      var existing := FindByKey(key);
      o := if existing.Some? then Returned(existing.value) else KeyTaken;
      Reply(r, key, o);
    }

    /** One attempt; a refused number has been taken since it was read. */
    method Attempt(r: RequestId, key: Option<string>, attempt: nat, before: seq<Action>, between: seq<Action>, report: Report)
      returns (verdict: Verdict)
      requires Valid() && Elsewhere(before, r) && Elsewhere(between, r)
      requires r in requests && requests[r] == Request(key, attempt, Ready) && r !in answers
      modifies this
      ensures Valid() && log == old(log) + before + [ReadMax(r)] + between + [Insert(r, report)]
      ensures old(orders) <= orders
      ensures verdict == Accepted ==> r !in requests && r in answers && answers[r].key == key && answers[r].outcome.Returned?
      ensures verdict == NumberRejected ==> |orders| > |old(orders)|
      ensures verdict == NumberRejected && attempt + 1 < MAX_ATTEMPTS ==>
                r !in answers && r in requests && requests[r] == Request(key, attempt + 1, Ready)
      ensures verdict == NumberRejected && attempt + 1 >= MAX_ATTEMPTS ==>
                r !in requests && r in answers && answers[r] == Answer(key, Exhausted)
      ensures verdict == KeyRejected && Usable(key) ==>
                r !in answers && r in requests && requests[r] == Request(key, attempt, Lost)
      ensures verdict == KeyRejected && !Usable(key) ==> r !in requests && r in answers && answers[r] == Answer(key, KeyTaken)
    {
      OthersRun(before, r);
      var n := PickNumber(r);
      ghost var picked := orders;
      OthersRun(between, r);
      ExplainsRun(log, Now());
      OnlyNextIsFree(orders, n);
      assert requests[r] == Request(key, attempt, Picked(n));
      verdict := TryInsert(r, report);
    }

    /** What a call answers once the index on its key refused it. */
    method AnswerLoss(r: RequestId, key: Option<string>, attempt: nat, gaps: seq<seq<Action>>,
                      ghost start: seq<Action>, ghost before: seq<Action>)
      returns (o: Outcome, ghost own: seq<Action>)
      requires Valid() && |gaps| > 2 * attempt + 3 && |before| == 2 * attempt + 3 && log == Weave(start, gaps, before)
      requires Elsewhere(gaps[2 * attempt + 3], r)
      requires Usable(key) ==> r !in answers && r in requests && requests[r] == Request(key, attempt, Lost)
      requires !Usable(key) ==> r !in requests && r in answers && answers[r] == Answer(key, KeyTaken)
      modifies this
      ensures Valid() && 1 <= |own| <= |gaps| && log == Weave(start, gaps, own)
      ensures r !in requests && r in answers && answers[r] == Answer(key, o)
      ensures old(orders) <= orders && (o.Returned? || o == KeyTaken)
      ensures o == KeyTaken && Usable(key) ==> !KeyInUse(orders, key) && own[|own| - 1] == Recover(r)
    {
      if key.Some? && key.value != "" {
        OthersRun(gaps[2 * attempt + 3], r);
        o := RecoverOrder(r, key);
        WeaveOne(start, gaps, before, Recover(r));
        own := before + [Recover(r)];
      } else {
        o, own := KeyTaken, before;
      }
    }

    /** The attempts, after a lookup that found nothing. */
    method Attempts(r: RequestId, key: Option<string>, gaps: seq<seq<Action>>, reports: seq<Report>, ghost start: seq<Action>)
      returns (o: Outcome, ghost own: seq<Action>)
      requires Valid() && r in requests && requests[r] == Request(key, 0, Ready) && r !in answers
      requires |reports| == MAX_ATTEMPTS && |gaps| == 2 * MAX_ATTEMPTS + 2
      requires forall k | 0 <= k < |gaps| :: Elsewhere(gaps[k], r)
      requires log == Weave(start, gaps, [Lookup(r, key)])
      modifies this
      ensures Valid() && 1 <= |own| <= |gaps| && log == Weave(start, gaps, own)
      ensures r !in requests && r in answers && answers[r] == Answer(key, o) && old(orders) <= orders
      ensures o.Exhausted? ==> |own| == 2 * 5 + 1 && |orders| >= |old(orders)| + 5
      ensures o.KeyTaken? && Usable(key) ==> !KeyInUse(orders, key) && own[|own| - 1] == Recover(r)
      ensures !o.Failed?
    {
      own := [Lookup(r, key)];
      var attempt := 0;
      while attempt < MAX_ATTEMPTS
        invariant 0 <= attempt <= MAX_ATTEMPTS
        invariant Valid() && |own| == 2 * attempt + 1 && log == Weave(start, gaps, own)
        invariant old(orders) <= orders && |orders| >= |old(orders)| + attempt
        invariant attempt < MAX_ATTEMPTS ==> r !in answers && r in requests && requests[r] == Request(key, attempt, Ready)
        invariant attempt == MAX_ATTEMPTS ==> r !in requests && r in answers && answers[r] == Answer(key, Exhausted)
      {
        var verdict := Attempt(r, key, attempt, gaps[2 * attempt + 1], gaps[2 * attempt + 2], reports[attempt]);
        WeaveTwo(start, gaps, own, ReadMax(r), Insert(r, reports[attempt]));
        own := own + [ReadMax(r), Insert(r, reports[attempt])];
        if verdict == Accepted { return answers[r].outcome, own; }
        if verdict == KeyRejected {
          o, own := AnswerLoss(r, key, attempt, gaps, start, own);
          return;
        }
        attempt := attempt + 1;
      }
      o := Exhausted;
    }

    /**
     * create: look the key up, then number and insert, at most five times, while
     * only the number is refused.
     */
    method Create(r: RequestId, key: Option<string>, gaps: seq<seq<Action>>, reports: seq<Report>)
      returns (o: Outcome, ghost own: seq<Action>)
      requires Valid() && r !in requests && r !in answers
      requires |reports| == MAX_ATTEMPTS && |gaps| == 2 * MAX_ATTEMPTS + 2
      requires forall k | 0 <= k < |gaps| :: Elsewhere(gaps[k], r)
      modifies this
      ensures Valid() && 1 <= |own| <= |gaps| && log == Weave(old(log), gaps, own)
      ensures r !in requests && r in answers && answers[r] == Answer(key, o)
      ensures old(orders) <= orders && Numbered(orders) && KeysUnique(orders)
      ensures o.Returned? ==> o.id < |orders| && orders[o.id].key == key
      ensures o.Exhausted? ==> |own| == 2 * 5 + 1 && |orders| >= |old(orders)| + 5
      ensures o.KeyTaken? && Usable(key) ==> !KeyInUse(orders, key) && own[|own| - 1] == Recover(r)
      ensures !o.Failed?
    {
      OthersRun(gaps[0], r);
      var existing := LookUp(r, key);
      WeaveOne(old(log), gaps, [], Lookup(r, key));
      assert [] + [Lookup(r, key)] == [Lookup(r, key)];
      if existing.Some? {
        o, own := Returned(existing.value), [Lookup(r, key)];
      } else {
        o, own := Attempts(r, key, gaps, reports, old(log));
      }
      Settled(r);
    }

    lemma Settled(r: RequestId)
      requires Valid() && r in answers
      ensures Numbered(orders) && KeysUnique(orders)
      ensures answers[r].outcome.Returned? ==>
                answers[r].outcome.id < |orders| && orders[answers[r].outcome.id].key == answers[r].key
    {
      ExplainsRun(log, Now());
    }
  }
}
