/**
 * Order creation as interleaved database statements. Every request looks its
 * idempotency key up, reads the largest order number, and inserts against two
 * unique indexes; a rejected insert is retried or answered by a recovery read.
 */
module OrderNumbering {
  import opened Keys
  import opened Options
  import opened Traces

  type RequestId = nat

  const MAX_ATTEMPTS := 5

  /** The columns of an order row that its unique indexes cover. A row's id is its position. */
  datatype Order = Order(number: nat, key: Option<string>)

  datatype Phase = Ready | Picked(number: nat) | Lost

  datatype Request = Request(key: Option<string>, attempts: nat, phase: Phase)

  datatype Outcome = Returned(id: nat) | Exhausted | KeyTaken | Failed

  datatype Answer = Answer(key: Option<string>, outcome: Outcome)

  datatype State = State(orders: seq<Order>, requests: map<RequestId, Request>, answers: map<RequestId, Answer>)

  /** Which index an insert violates first when several would reject it. */
  datatype Report = Report(keyBeforeNumber: bool, paymentKeyTaken: bool)

  datatype Action =
    | Lookup(r: RequestId, key: Option<string>)
    | ReadMax(r: RequestId)
    | Insert(r: RequestId, report: Report)
    | Recover(r: RequestId)
    | Fail(r: RequestId) // any other error: the transaction rolls back and the call throws

  function Initial(): State { State([], map[], map[]) }

  function MaxNumber(orders: seq<Order>): nat {
    if orders == [] then 0
    else
      var n := MaxNumber(orders[..|orders| - 1]);
      var last := orders[|orders| - 1].number;
      if n < last then last else n
  }

  predicate NumberTaken(orders: seq<Order>, n: nat) { exists i :: 0 <= i < |orders| && orders[i].number == n }

  predicate KeyInUse(orders: seq<Order>, key: Option<string>) {
    key.Some? && exists i :: 0 <= i < |orders| && orders[i].key == key
  }

  function FindKey(orders: seq<Order>, key: Option<string>): (i: nat)
    requires KeyInUse(orders, key)
    ensures i < |orders| && orders[i].key == key && forall j | 0 <= j < i :: orders[j].key != key
  {
    First(orders, (o: Order) => o.key == key)
  }

  datatype Verdict = Accepted | NumberRejected | KeyRejected

  function Check(orders: seq<Order>, n: nat, key: Option<string>, report: Report): Verdict {
    if NumberTaken(orders, n) && !(report.keyBeforeNumber && KeyInUse(orders, key)) then NumberRejected
    else if KeyInUse(orders, key) then KeyRejected
    else if report.paymentKeyTaken && key.Some? then KeyRejected
    else Accepted
  }

  function Finish(s: State, r: RequestId, key: Option<string>, o: Outcome): State {
    s.(requests := s.requests - {r}, answers := s.answers[r := Answer(key, o)])
  }

  function Advance(s: State, r: RequestId, q: Request): State { s.(requests := s.requests[r := q]) }

  function Step(s: State, a: Action): State {
    match a
    case Lookup(r, key) =>
      if r in s.requests || r in s.answers then s
      else if Usable(key) && KeyInUse(s.orders, key) then Finish(s, r, key, Returned(FindKey(s.orders, key)))
      else Advance(s, r, Request(key, 0, Ready))
    case ReadMax(r) =>
      if r !in s.requests || !s.requests[r].phase.Ready? then s
      else Advance(s, r, s.requests[r].(phase := Picked(MaxNumber(s.orders) + 1)))
    case Insert(r, report) =>
      if r !in s.requests || !s.requests[r].phase.Picked? then s
      else InsertStep(s, r, s.requests[r], report)
    case Recover(r) =>
      if r !in s.requests || !s.requests[r].phase.Lost? then s
      else
        var key := s.requests[r].key;
        Finish(s, r, key, if KeyInUse(s.orders, key) then Returned(FindKey(s.orders, key)) else KeyTaken)
    case Fail(r) =>
      if r in s.requests then Finish(s, r, s.requests[r].key, Failed) else s
  }

  function InsertStep(s: State, r: RequestId, q: Request, report: Report): State
    requires q.phase.Picked?
  {
    match Check(s.orders, q.phase.number, q.key, report)
    case Accepted =>
      Finish(s.(orders := s.orders + [Order(q.phase.number, q.key)]), r, q.key, Returned(|s.orders|))
    case NumberRejected =>
      if q.attempts + 1 < MAX_ATTEMPTS then Advance(s, r, Request(q.key, q.attempts + 1, Ready))
      else Finish(s, r, q.key, Exhausted)
    case KeyRejected =>
      if Usable(q.key) then Advance(s, r, q.(phase := Lost)) else Finish(s, r, q.key, KeyTaken)
  }

  function Steps(): (State, Action) -> State { (s: State, a: Action) => Step(s, a) }

  function Run(s: State, acts: seq<Action>): State { RunOf(Steps(), s, acts) }

  // --------------------------------------------------------------- invariant

  ghost predicate Numbered(orders: seq<Order>) {
    forall i | 0 <= i < |orders| :: orders[i].number == i + 1
  }

  ghost predicate KeysUnique(orders: seq<Order>) {
    forall i, j | 0 <= i < j < |orders| :: orders[i].key.Some? ==> orders[i].key != orders[j].key
  }

  ghost predicate PicksInRange(s: State) {
    forall r | r in s.requests && s.requests[r].phase.Picked? :: 1 <= s.requests[r].phase.number <= |s.orders| + 1
  }

  ghost predicate AnswersMatch(s: State) {
    forall r | r in s.answers && s.answers[r].outcome.Returned? ::
      s.answers[r].outcome.id < |s.orders| && s.orders[s.answers[r].outcome.id].key == s.answers[r].key
  }

  /** An answered call is over. */
  ghost predicate AnsweredAreOver(s: State) { forall r | r in s.answers :: r !in s.requests }

  ghost predicate Inv(s: State) {
    Numbered(s.orders) && KeysUnique(s.orders) && PicksInRange(s) && AnswersMatch(s) && AnsweredAreOver(s)
  }

  lemma {:induction false} MaxIsCount(orders: seq<Order>)
    requires Numbered(orders)
    ensures MaxNumber(orders) == |orders|
  {
    if orders != [] { MaxIsCount(orders[..|orders| - 1]); }
  }

  /** A number in range is free exactly when it is the next one. */
  lemma OnlyNextIsFree(orders: seq<Order>, n: nat)
    requires Numbered(orders) && 1 <= n <= |orders| + 1
    ensures !NumberTaken(orders, n) <==> n == |orders| + 1
  {
    if n <= |orders| { assert orders[n - 1].number == n; }
  }

  /** A row both indexes let through is the next one, under a key of its own. */
  lemma AcceptedRow(orders: seq<Order>, n: nat, key: Option<string>, report: Report)
    requires Numbered(orders) && KeysUnique(orders) && 1 <= n <= |orders| + 1
    requires Check(orders, n, key, report) == Accepted
    ensures Numbered(orders + [Order(n, key)]) && KeysUnique(orders + [Order(n, key)])
  {
    OnlyNextIsFree(orders, n);
  }

  lemma InsertKeepsInv(s: State, r: RequestId, report: Report)
    requires Inv(s) && r in s.requests && s.requests[r].phase.Picked?
    ensures Inv(InsertStep(s, r, s.requests[r], report))
  {
    var q := s.requests[r];
    if Check(s.orders, q.phase.number, q.key, report) == Accepted { AcceptedRow(s.orders, q.phase.number, q.key, report); }
  }

  lemma StepKeepsInv(s: State, a: Action)
    requires Inv(s)
    ensures Inv(Step(s, a))
  {
    if a.Insert? {
      if a.r in s.requests && s.requests[a.r].phase.Picked? { InsertKeepsInv(s, a.r, a.report); }
    } else {
      MaxIsCount(s.orders);
    }
  }

  lemma {:induction false} RunKeepsInv(s: State, acts: seq<Action>)
    requires Inv(s)
    ensures Inv(Run(s, acts))
    decreases |acts|
  {
    if acts != [] {
      StepKeepsInv(s, acts[0]);
      RunKeepsInv(Step(s, acts[0]), acts[1..]);
    }
  }

  // ---------------------------------------------------------------- theorems

  /** However the statements interleave, the committed numbers are exactly 1..n. */
  lemma NumbersAreGapFree(acts: seq<Action>, n: nat)
    ensures NumberTaken(Run(Initial(), acts).orders, n) <==> 1 <= n <= |Run(Initial(), acts).orders|
    ensures forall i, j | 0 <= i < j < |Run(Initial(), acts).orders| ::
              Run(Initial(), acts).orders[i].number < Run(Initial(), acts).orders[j].number
  {
    var s := Run(Initial(), acts);
    RunKeepsInv(Initial(), acts);
    if 1 <= n <= |s.orders| { assert s.orders[n - 1].number == n; }
  }

  /** Every call that returns for a key returns the one row that carries it. */
  lemma OneRowPerKey(acts: seq<Action>, r: RequestId, i: nat)
    requires r in Run(Initial(), acts).answers
    requires Run(Initial(), acts).answers[r].outcome.Returned? && Run(Initial(), acts).answers[r].key.Some?
    requires i < |Run(Initial(), acts).orders|
    ensures Run(Initial(), acts).orders[i].key == Run(Initial(), acts).answers[r].key
            <==> i == Run(Initial(), acts).answers[r].outcome.id
  {
    RunKeepsInv(Initial(), acts);
  }

  lemma RepliesAgree(acts: seq<Action>, q: RequestId, r: RequestId)
    requires q in Run(Initial(), acts).answers && r in Run(Initial(), acts).answers
    requires Run(Initial(), acts).answers[q].outcome.Returned? && Run(Initial(), acts).answers[r].outcome.Returned?
    requires Run(Initial(), acts).answers[q].key == Run(Initial(), acts).answers[r].key != None
    ensures Run(Initial(), acts).answers[q].outcome == Run(Initial(), acts).answers[r].outcome
  {
    RunKeepsInv(Initial(), acts);
    OneRowPerKey(acts, q, Run(Initial(), acts).answers[r].outcome.id);
  }

  lemma {:induction false} RunExtends(s: State, acts: seq<Action>, r: RequestId)
    requires Inv(s)
    ensures s.orders <= Run(s, acts).orders
    ensures r in s.answers ==> r in Run(s, acts).answers && Run(s, acts).answers[r] == s.answers[r]
    decreases |acts|
  {
    if acts != [] {
      StepKeepsInv(s, acts[0]);
      StepExtends(s, acts[0]);
      RunExtends(Step(s, acts[0]), acts[1..], r);
    }
  }

  /** Whatever runs later, an order is never taken back or renumbered and a given answer never changes. */
  lemma AnswersAreFinal(before: seq<Action>, after: seq<Action>, r: RequestId)
    ensures Run(Initial(), before).orders <= Run(Initial(), before + after).orders
    ensures r in Run(Initial(), before).answers ==>
              r in Run(Initial(), before + after).answers
              && Run(Initial(), before + after).answers[r] == Run(Initial(), before).answers[r]
  {
    RunKeepsInv(Initial(), before);
    RunAppend(Steps(), Initial(), before, after);
    RunExtends(Run(Initial(), before), after, r);
  }

  lemma StepExtends(s: State, a: Action)
    ensures s.orders <= Step(s, a).orders
    ensures forall r | r in s.answers && r !in s.requests ::
              r !in Step(s, a).requests && r in Step(s, a).answers && Step(s, a).answers[r] == s.answers[r]
  {
  }

  /** An insert whose number was read from the current table is never refused for its number. */
  lemma UndisturbedNumberIsFree(s: State, r: RequestId, report: Report)
    requires Inv(s) && r in s.requests && s.requests[r].phase.Ready?
    ensures var t := Step(s, ReadMax(r));
            r in t.requests && t.requests[r].phase == Picked(|s.orders| + 1)
            && (Check(t.orders, |s.orders| + 1, t.requests[r].key, report) == Accepted
                <==> !KeyInUse(s.orders, s.requests[r].key) && !(report.paymentKeyTaken && s.requests[r].key.Some?))
  {
    MaxIsCount(s.orders);
    OnlyNextIsFree(s.orders, |s.orders| + 1);
  }

  /** Each failed attempt of one call is paid for by another order committed since it began. */
  ghost predicate Paid(s: State, r: RequestId, base: nat) {
    && (r in s.requests ==>
          |s.orders| >= base + s.requests[r].attempts
          && (s.requests[r].phase.Picked? ==> s.requests[r].phase.number > base + s.requests[r].attempts))
    && (r in s.answers && s.answers[r].outcome.Exhausted? ==> |s.orders| >= base + MAX_ATTEMPTS)
  }

  ghost predicate AttemptsBounded(s: State, r: RequestId) { r in s.requests ==> s.requests[r].attempts < MAX_ATTEMPTS }

  lemma StepKeepsPaid(s: State, a: Action, r: RequestId, base: nat)
    requires Inv(s) && Paid(s, r, base) && AttemptsBounded(s, r) && base <= |s.orders|
    ensures Paid(Step(s, a), r, base) && AttemptsBounded(Step(s, a), r)
  {
    StepExtends(s, a);
    if a.r == r && r in s.requests {
      if a.Insert? && s.requests[r].phase.Picked? {
        OnlyNextIsFree(s.orders, s.requests[r].phase.number);
      } else if a.ReadMax? {
        MaxIsCount(s.orders);
      }
    }
  }

  lemma {:induction false} RunKeepsPaid(s: State, acts: seq<Action>, r: RequestId, base: nat)
    requires Inv(s) && Paid(s, r, base) && AttemptsBounded(s, r) && base <= |s.orders|
    ensures Paid(Run(s, acts), r, base)
    decreases |acts|
  {
    if acts != [] {
      StepKeepsInv(s, acts[0]);
      StepKeepsPaid(s, acts[0], r, base);
      StepExtends(s, acts[0]);
      RunKeepsPaid(Step(s, acts[0]), acts[1..], r, base);
    }
  }

  /** Which insert the unique indexes let through, and which of them is blamed for one they do not. */
  lemma CheckIff(orders: seq<Order>, n: nat, key: Option<string>, report: Report)
    ensures Check(orders, n, key, report) == Accepted <==>
              && (forall i | 0 <= i < |orders| :: orders[i].number != n)
              && (key.Some? ==> !report.paymentKeyTaken && forall i | 0 <= i < |orders| :: orders[i].key != key)
    ensures Check(orders, n, key, report) == NumberRejected ==> exists i :: 0 <= i < |orders| && orders[i].number == n
    ensures Check(orders, n, key, report) == KeyRejected ==>
              key.Some? && (report.paymentKeyTaken || exists i :: 0 <= i < |orders| && orders[i].key == key)
  {
  }

  /** An undisturbed create whose key is free adds the next order under it and returns it. */
  lemma FreshCallCreates(s: State, r: RequestId, key: Option<string>, report: Report)
    requires Inv(s) && r !in s.requests && r !in s.answers
    requires !KeyInUse(s.orders, key) && (key.Some? ==> !report.paymentKeyTaken)
    ensures var t := Step(Step(Step(s, Lookup(r, key)), ReadMax(r)), Insert(r, report));
            && t.orders == s.orders + [Order(|s.orders| + 1, key)]
            && r !in t.requests && r in t.answers && t.answers[r] == Answer(key, Returned(|s.orders|))
  {
    var looked := Step(s, Lookup(r, key));
    assert r in looked.requests && looked.requests[r] == Request(key, 0, Ready) && looked.orders == s.orders;
    StepKeepsInv(s, Lookup(r, key));
    UndisturbedNumberIsFree(looked, r, report);
  }

  /** A call whose number is taken tries again after each of its first four attempts, and gives up after the fifth. */
  lemma FifthRefusalIsFinal(s: State, r: RequestId, report: Report)
    requires AttemptsBounded(s, r) && r in s.requests && s.requests[r].phase.Picked? && r !in s.answers
    requires Check(s.orders, s.requests[r].phase.number, s.requests[r].key, report) == NumberRejected
    ensures var t := Step(s, Insert(r, report));
            && t.orders == s.orders
            && (s.requests[r].attempts < 4 <==> r in t.requests && t.requests[r] == Request(s.requests[r].key, s.requests[r].attempts + 1, Ready))
            && (s.requests[r].attempts == 4 <==> r in t.answers && t.answers[r] == Answer(s.requests[r].key, Exhausted))
  {
  }

  /** Giving up on a number takes five other orders committed during the call. */
  lemma ExhaustionNeedsFiveWinners(s: State, acts: seq<Action>, r: RequestId)
    requires Inv(s) && r !in s.requests && r !in s.answers
    requires r in Run(s, acts).answers && Run(s, acts).answers[r].outcome.Exhausted?
    ensures |Run(s, acts).orders| >= |s.orders| + 5
  {
    RunKeepsPaid(s, acts, r, |s.orders|);
  }

  ghost predicate NoPaymentHoldsKey(acts: seq<Action>) {
    forall i | 0 <= i < |acts| && acts[i].Insert? :: !acts[i].report.paymentKeyTaken
  }

  ghost predicate LossesHaveWinners(s: State) {
    && (forall r | r in s.requests && s.requests[r].phase.Lost? :: KeyInUse(s.orders, s.requests[r].key))
    && (forall r | r in s.answers && s.answers[r].outcome.KeyTaken? ::
          s.answers[r].key == Some("") && KeyInUse(s.orders, s.answers[r].key))
  }

  lemma InUseStays(orders: seq<Order>, more: seq<Order>, key: Option<string>)
    requires KeyInUse(orders, key) && orders <= more
    ensures KeyInUse(more, key)
  {
    var i :| 0 <= i < |orders| && orders[i].key == key;
    assert more[i].key == key;
  }

  lemma StepKeepsWinners(s: State, a: Action)
    requires LossesHaveWinners(s) && NoPaymentHoldsKey([a])
    ensures LossesHaveWinners(Step(s, a))
  {
    StepExtends(s, a);
    assert a.Insert? ==> !([a][0]).report.paymentKeyTaken;
    forall r | r in s.requests && s.requests[r].phase.Lost?
      ensures KeyInUse(Step(s, a).orders, s.requests[r].key)
    {
      InUseStays(s.orders, Step(s, a).orders, s.requests[r].key);
    }
    forall r | r in s.answers && s.answers[r].outcome.KeyTaken?
      ensures KeyInUse(Step(s, a).orders, s.answers[r].key)
    {
      InUseStays(s.orders, Step(s, a).orders, s.answers[r].key);
    }
  }

  lemma {:induction false} RunKeepsWinners(s: State, acts: seq<Action>)
    requires LossesHaveWinners(s) && NoPaymentHoldsKey(acts)
    ensures LossesHaveWinners(Run(s, acts))
    decreases |acts|
  {
    if acts != [] {
      assert [acts[0]][0] == acts[0];
      StepKeepsWinners(s, acts[0]);
      RunKeepsWinners(Step(s, acts[0]), acts[1..]);
    }
  }

  /**
   * Losing the race on a key is never an error: while no payment holds the key,
   * only a call with the empty key, which is stored but not looked up, is turned
   * away for it, and only because another order carries that key.
   */
  lemma LostRacesAreAnswered(acts: seq<Action>, r: RequestId)
    requires NoPaymentHoldsKey(acts)
    requires r in Run(Initial(), acts).answers && Run(Initial(), acts).answers[r].outcome.KeyTaken?
    ensures Run(Initial(), acts).answers[r].key == Some("") && KeyInUse(Run(Initial(), acts).orders, Some(""))
  {
    RunKeepsWinners(Initial(), acts);
  }

  /** An undisturbed second call adds no order, and is answered exactly if its key is not the empty one. */
  lemma SecondCallIsAnsweredIff(s: State, r: RequestId, key: Option<string>, report: Report)
    requires Inv(s) && r !in s.requests && r !in s.answers && KeyInUse(s.orders, key)
    ensures var looked := Step(s, Lookup(r, key));
            var t := if r in looked.answers then looked else Step(Step(looked, ReadMax(r)), Insert(r, report));
            t.orders == s.orders && r in t.answers
            && (t.answers[r].outcome.Returned? <==> key != Some("")) && (t.answers[r].outcome.KeyTaken? <==> key == Some(""))
  {
    MaxIsCount(s.orders);
    OnlyNextIsFree(s.orders, |s.orders| + 1);
  }
}
