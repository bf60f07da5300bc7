/**
 * Money taken and handed back per order: append-only payments and refunds, each
 * recorded by one atomic transaction that checks a ceiling first.
 */
module OrderMoney {
  import opened Keys
  import opened Options
  import opened Traces
  import opened Sums
  import opened OrderStatus
  import opened OrderPricing

  /** A payment or a refund. */
  datatype Leg = Leg(order: nat, amountMinor: int, key: Option<string>)

  datatype Order = Order(amounts: Priced, status: Status, hasCustomer: bool, key: Option<string>)

  /** credited lists the orders for which settlement asked for loyalty points, in order. */
  datatype State = State(orders: seq<Order>, payments: seq<Leg>, refunds: seq<Leg>, credited: seq<nat>)

  datatype Action =
    | Create(amounts: Priced, hold: bool, paid: bool, hasCustomer: bool, key: Option<string>)
    | Pay(leg: Leg)
    | HandBack(leg: Leg)
    | Move(order: nat, to: Status)

  datatype Reply =
    | Replayed(order: nat) | NotFound | Reversed | NotFinished | Exceeds(left: int) | KeyClash
    | Recorded(settled: bool)

  function Initial(): State { State([], [], [], []) }

  predicate KeyIn(legs: seq<Leg>, key: Option<string>) {
    key.Some? && exists i :: 0 <= i < |legs| && legs[i].key == key
  }

  function LegWithKey(legs: seq<Leg>, key: Option<string>): (i: nat)
    requires KeyIn(legs, key)
    ensures i < |legs| && legs[i].key == key && forall j | 0 <= j < i :: legs[j].key != key
  {
    First(legs, (l: Leg) => l.key == key)
  }

  predicate OrderHasKey(orders: seq<Order>, key: Option<string>) {
    key.Some? && exists i :: 0 <= i < |orders| && orders[i].key == key
  }

  function ForOrder(o: nat): Leg -> int { (l: Leg) => if l.order == o then l.amountMinor else 0 }

  /** SUM(amount_minor) of an order's legs. */
  function Total(legs: seq<Leg>, o: nat): int { Sum(legs, ForOrder(o)) }

  function Outstanding(s: State, o: nat): int
    requires o < |s.orders|
  {
    s.orders[o].amounts.totalMinor - Total(s.payments, o)
  }

  function PayReply(s: State, leg: Leg): Reply {
    if Usable(leg.key) && KeyIn(s.payments, leg.key) then Replayed(s.payments[LegWithKey(s.payments, leg.key)].order)
    else if leg.order >= |s.orders| then NotFound
    else if Reversing(s.orders[leg.order].status) then Reversed
    else if leg.amountMinor > Outstanding(s, leg.order) then Exceeds(Outstanding(s, leg.order))
    else if KeyIn(s.payments, leg.key) then KeyClash
    else Recorded(s.orders[leg.order].hasCustomer && leg.amountMinor == Outstanding(s, leg.order))
  }

  predicate Finished(st: Status) { st in {COMPLETED, VOIDED, CANCELLED} }

  function RefundReply(s: State, leg: Leg): Reply {
    var refundable := Total(s.payments, leg.order) - Total(s.refunds, leg.order);
    if Usable(leg.key) && KeyIn(s.refunds, leg.key) then Replayed(s.refunds[LegWithKey(s.refunds, leg.key)].order)
    else if leg.order >= |s.orders| then NotFound
    else if !Finished(s.orders[leg.order].status) then NotFinished
    else if leg.amountMinor > refundable then Exceeds(refundable)
    else if KeyIn(s.refunds, leg.key) then KeyClash
    else Recorded(false)
  }

  /** The transaction of create commits: no constraint and no unique index rejects it. */
  predicate CreateCommits(s: State, a: Action)
    requires a.Create?
  {
    && OrderChecks(a.amounts) && !OrderHasKey(s.orders, a.key) && !(a.hold && a.paid)
    && (a.paid ==> a.amounts.totalMinor > 0 && !KeyIn(s.payments, a.key))
  }

  function Step(s: State, a: Action): State {
    match a
    case Create(amounts, hold, paid, hasCustomer, key) =>
      if !CreateCommits(s, a) then s
      else
        var o := |s.orders|;
        State(s.orders + [Order(amounts, if hold then DRAFT else PLACED, hasCustomer, key)],
              if paid then s.payments + [Leg(o, amounts.totalMinor, key)] else s.payments,
              s.refunds,
              if paid && hasCustomer then s.credited + [o] else s.credited)
    case Pay(leg) =>
      if leg.amountMinor < 1 || !PayReply(s, leg).Recorded? then s
      else s.(payments := s.payments + [leg],
              credited := if PayReply(s, leg).settled then s.credited + [leg.order] else s.credited)
    case HandBack(leg) =>
      if leg.amountMinor < 1 || !RefundReply(s, leg).Recorded? then s
      else s.(refunds := s.refunds + [leg])
    case Move(o, to) =>
      if o >= |s.orders| || !CanTransition(s.orders[o].status, to) then s
      else s.(orders := s.orders[o := s.orders[o].(status := to)])
  }

  function Steps(): (State, Action) -> State { (s: State, a: Action) => Step(s, a) }

  function Run(s: State, acts: seq<Action>): State { RunOf(Steps(), s, acts) }

  // --------------------------------------------------------------- invariant

  ghost predicate LegsValid(legs: seq<Leg>, n: nat) {
    forall i | 0 <= i < |legs| :: legs[i].order < n && legs[i].amountMinor > 0
  }

  ghost predicate WithinCeilings(s: State, o: nat)
    requires o < |s.orders|
  {
    && OrderChecks(s.orders[o].amounts)
    && 0 <= Total(s.refunds, o) <= Total(s.payments, o) <= s.orders[o].amounts.totalMinor
    && (Total(s.refunds, o) > 0 ==> Finished(s.orders[o].status))
  }

  /** An idempotency key marks at most one leg, the unusable empty one included. */
  ghost predicate KeysOnce(legs: seq<Leg>) {
    forall i, j | 0 <= i < j < |legs| :: legs[i].key.Some? ==> legs[i].key != legs[j].key
  }

  /** Settled: the captured legs make up a positive total. */
  ghost predicate Settled(s: State, o: nat) {
    o < |s.orders| && 0 < s.orders[o].amounts.totalMinor == Total(s.payments, o)
  }

  ghost predicate CreditedOnce(s: State) {
    && (forall i, j | 0 <= i < j < |s.credited| :: s.credited[i] != s.credited[j])
    && (forall o: nat :: o in s.credited <==> Settled(s, o) && s.orders[o].hasCustomer)
  }

  ghost predicate Inv(s: State) {
    && LegsValid(s.payments, |s.orders|) && LegsValid(s.refunds, |s.orders|)
    && (forall o | 0 <= o < |s.orders| :: WithinCeilings(s, o))
    && CreditedOnce(s)
  }

  lemma TotalSnoc(legs: seq<Leg>, leg: Leg, o: nat)
    ensures Total(legs + [leg], o) == Total(legs, o) + if leg.order == o then leg.amountMinor else 0
  {
    assert (legs + [leg])[..|legs|] == legs;
  }

  lemma {:induction false} NoLegsYet(legs: seq<Leg>, n: nat, o: nat)
    requires LegsValid(legs, n) && o >= n
    ensures Total(legs, o) == 0
  {
    if legs != [] { NoLegsYet(legs[..|legs| - 1], n, o); }
  }

  lemma CreateKeepsCeilings(s: State, a: Action, o: nat)
    requires Inv(s) && a.Create? && CreateCommits(s, a) && o <= |s.orders|
    ensures WithinCeilings(Step(s, a), o)
  {
    NoLegsYet(s.payments, |s.orders|, |s.orders|);
    NoLegsYet(s.refunds, |s.orders|, |s.orders|);
    TotalSnoc(s.payments, Leg(|s.orders|, a.amounts.totalMinor, a.key), o);
    if o < |s.orders| { assert WithinCeilings(s, o); }
  }

  lemma CreateKeepsCredit(s: State, a: Action)
    requires Inv(s) && a.Create? && CreateCommits(s, a)
    ensures CreditedOnce(Step(s, a))
  {
    var s' := Step(s, a);
    forall o: nat ensures o in s'.credited <==> Settled(s', o) && s'.orders[o].hasCustomer {
      NoLegsYet(s.payments, |s.orders|, |s.orders|);
      TotalSnoc(s.payments, Leg(|s.orders|, a.amounts.totalMinor, a.key), o);
      if o < |s.orders| { assert s'.orders[o] == s.orders[o]; }
    }
    forall i | 0 <= i < |s.credited| ensures s.credited[i] != |s.orders| { assert Settled(s, s.credited[i]); }
  }

  lemma PayKeepsInv(s: State, leg: Leg)
    requires Inv(s) && leg.amountMinor >= 1 && PayReply(s, leg).Recorded?
    ensures Inv(Step(s, Pay(leg)))
  {
    var s' := Step(s, Pay(leg));
    forall o | 0 <= o < |s.orders| ensures WithinCeilings(s', o) {
      assert WithinCeilings(s, o);
      TotalSnoc(s.payments, leg, o);
    }
    forall o: nat ensures o in s'.credited <==> Settled(s', o) && s'.orders[o].hasCustomer {
      TotalSnoc(s.payments, leg, o);
      assert o == leg.order ==> WithinCeilings(s, o);
    }
  }

  lemma HandBackKeepsInv(s: State, leg: Leg)
    requires Inv(s) && leg.amountMinor >= 1 && RefundReply(s, leg).Recorded?
    ensures Inv(Step(s, HandBack(leg)))
  {
    forall o | 0 <= o < |s.orders| ensures WithinCeilings(Step(s, HandBack(leg)), o) {
      assert WithinCeilings(s, o);
      TotalSnoc(s.refunds, leg, o);
    }
    assert forall o: nat :: Settled(Step(s, HandBack(leg)), o) <==> Settled(s, o);
  }

  lemma MoveKeepsInv(s: State, o: nat, to: Status)
    requires Inv(s)
    ensures Inv(Step(s, Move(o, to)))
  {
    var s' := Step(s, Move(o, to));
    forall p | 0 <= p < |s.orders| ensures WithinCeilings(s', p) { assert WithinCeilings(s, p); }
    assert forall p: nat :: Settled(s', p) <==> Settled(s, p);
  }

  lemma StepKeepsInv(s: State, a: Action)
    requires Inv(s)
    ensures Inv(Step(s, a))
  {
    match a {
      case Create(_, _, _, _, _) =>
        if CreateCommits(s, a) {
          forall o | 0 <= o <= |s.orders| ensures WithinCeilings(Step(s, a), o) { CreateKeepsCeilings(s, a, o); }
          CreateKeepsCredit(s, a);
        }
      case Pay(leg) => if leg.amountMinor >= 1 && PayReply(s, leg).Recorded? { PayKeepsInv(s, leg); }
      case HandBack(leg) => if leg.amountMinor >= 1 && RefundReply(s, leg).Recorded? { HandBackKeepsInv(s, leg); }
      case Move(o, to) => MoveKeepsInv(s, o, to);
    }
  }

  lemma {:induction false} RunKeepsInv(s: State, acts: seq<Action>)
    requires Inv(s)
    ensures Inv(Run(s, acts))
    decreases |acts|
  {
    if acts != [] {
      StepKeepsInv(s, acts[0]);
      RunKeepsInv(Step(s, acts[0]), acts[1..]);
    }
  }

  lemma KeySnoc(legs: seq<Leg>, leg: Leg)
    requires KeysOnce(legs) && !KeyIn(legs, leg.key)
    ensures KeysOnce(legs + [leg])
  {
  }

  lemma StepKeepsKeys(s: State, a: Action)
    requires KeysOnce(s.payments) && KeysOnce(s.refunds)
    ensures KeysOnce(Step(s, a).payments) && KeysOnce(Step(s, a).refunds)
  {
    match a
    case Create(amounts, _, paid, _, key) =>
      if CreateCommits(s, a) && paid { KeySnoc(s.payments, Leg(|s.orders|, amounts.totalMinor, key)); }
    case Pay(leg) => if PayReply(s, leg).Recorded? { KeySnoc(s.payments, leg); }
    case HandBack(leg) => if RefundReply(s, leg).Recorded? { KeySnoc(s.refunds, leg); }
    case Move(_, _) =>
  }

  lemma {:induction false} RunKeepsKeys(s: State, acts: seq<Action>)
    requires KeysOnce(s.payments) && KeysOnce(s.refunds)
    ensures KeysOnce(Run(s, acts).payments) && KeysOnce(Run(s, acts).refunds)
    decreases |acts|
  {
    if acts != [] {
      StepKeepsKeys(s, acts[0]);
      RunKeepsKeys(Step(s, acts[0]), acts[1..]);
    }
  }

  // ---------------------------------------------------------------- theorems

  /**
   * Over every run a key takes money once and gives it back once: no two payments
   * carry it, nor two refunds, however often the calls are repeated. A repeated
   * payment is answered with the order of the first, unless its key is the empty one.
   */
  lemma OneLegPerKey(acts: seq<Action>, leg: Leg)
    requires leg.key.Some?
    ensures var s := Run(Initial(), acts);
            && (forall i, j | 0 <= i < j < |s.payments| :: !(s.payments[i].key == leg.key == s.payments[j].key))
            && (forall i, j | 0 <= i < j < |s.refunds| :: !(s.refunds[i].key == leg.key == s.refunds[j].key))
            && (forall i | 0 <= i < |s.payments| && s.payments[i].key == leg.key ::
                  Step(s, Pay(leg)) == s && (leg.key != Some("") ==> PayReply(s, leg) == Replayed(s.payments[i].order)))
            && (forall i | 0 <= i < |s.refunds| && s.refunds[i].key == leg.key ::
                  Step(s, HandBack(leg)) == s && (leg.key != Some("") ==> RefundReply(s, leg) == Replayed(s.refunds[i].order)))
  {
    RunKeepsKeys(Initial(), acts);
    var s := Run(Initial(), acts);
    forall i | 0 <= i < |s.payments| && s.payments[i].key == leg.key
      ensures Step(s, Pay(leg)) == s && (leg.key != Some("") ==> PayReply(s, leg) == Replayed(s.payments[i].order))
    {
      assert LegWithKey(s.payments, leg.key) == i;
    }
    forall i | 0 <= i < |s.refunds| && s.refunds[i].key == leg.key
      ensures Step(s, HandBack(leg)) == s && (leg.key != Some("") ==> RefundReply(s, leg) == Replayed(s.refunds[i].order))
    {
      assert LegWithKey(s.refunds, leg.key) == i;
    }
  }

  /** Over every run an order never gives back more than it took, nor takes more than it costs. */
  lemma MoneyStaysWithinCeilings(acts: seq<Action>, o: nat)
    requires o < |Run(Initial(), acts).orders|
    ensures var s := Run(Initial(), acts);
            0 <= Total(s.refunds, o) <= Total(s.payments, o) <= s.orders[o].amounts.totalMinor
            && (Total(s.refunds, o) > 0 ==> Finished(s.orders[o].status))
  {
    RunKeepsInv(Initial(), acts);
    assert WithinCeilings(Run(Initial(), acts), o);
  }

  /** Only an order's last leg can bring its captured sum to its total, so at most one settles it. */
  lemma OnlyTheLastLegSettles(acts: seq<Action>, i: nat, j: nat)
    requires i < j < |Run(Initial(), acts).payments|
    requires Run(Initial(), acts).payments[i].order == Run(Initial(), acts).payments[j].order
    ensures var s := Run(Initial(), acts);
            var o := s.payments[i].order;
            o < |s.orders| && Total(s.payments[..i + 1], o) < s.orders[o].amounts.totalMinor
  {
    var s := Run(Initial(), acts);
    var o := s.payments[i].order;
    RunKeepsInv(Initial(), acts);
    assert WithinCeilings(s, o);
    TotalsRise(s.payments, |s.orders|, i + 1, j, o);
    TotalSnoc(s.payments[..j], s.payments[j], o);
    assert s.payments[..j + 1] == s.payments[..j] + [s.payments[j]];
    TotalsRise(s.payments, |s.orders|, j + 1, |s.payments|, o);
    assert s.payments[..|s.payments|] == s.payments;
  }

  lemma {:induction false} TotalsRise(legs: seq<Leg>, n: nat, i: nat, j: nat, o: nat)
    requires LegsValid(legs, n) && i <= j <= |legs|
    ensures Total(legs[..i], o) <= Total(legs[..j], o)
  {
    if i < j {
      TotalsRise(legs, n, i, j - 1, o);
      TotalSnoc(legs[..j - 1], legs[j - 1], o);
      assert legs[..j] == legs[..j - 1] + [legs[j - 1]];
    }
  }

  /** Settlement asks for an order's points once, and exactly for customers' orders paid in full. */
  lemma SettledOrdersAreCreditedOnce(acts: seq<Action>, o: nat)
    requires o < |Run(Initial(), acts).orders|
    ensures var s := Run(Initial(), acts);
            multiset(s.credited)[o] == if Settled(s, o) && s.orders[o].hasCustomer then 1 else 0
  {
    var s := Run(Initial(), acts);
    RunKeepsInv(Initial(), acts);
    CountInDistinct(s.credited, o);
  }

  lemma {:induction false} CountInDistinct(s: seq<nat>, x: nat)
    requires forall i, j | 0 <= i < j < |s| :: s[i] != s[j]
    ensures multiset(s)[x] == if x in s then 1 else 0
  {
    if s != [] {
      var n := |s| - 1;
      CountInDistinct(s[..n], x);
      assert s == s[..n] + [s[n]];
    }
  }

  /** A reversed order keeps what it had captured, whatever is requested later. */
  lemma {:induction false} ReversedOrdersTakeNoMoney(s: State, acts: seq<Action>, o: nat)
    requires Inv(s) && o < |s.orders| && Reversing(s.orders[o].status)
    ensures o < |Run(s, acts).orders| && Run(s, acts).orders[o] == s.orders[o]
    ensures Total(Run(s, acts).payments, o) == Total(s.payments, o)
    decreases |acts|
  {
    if acts != [] {
      var s' := Step(s, acts[0]);
      StepKeepsInv(s, acts[0]);
      ReversedTakesNothing(s, acts[0], o);
      ReversedOrdersTakeNoMoney(s', acts[1..], o);
    }
  }

  lemma ReversedRefusesPayment(s: State, leg: Leg)
    requires leg.order < |s.orders| && Reversing(s.orders[leg.order].status)
    ensures !PayReply(s, leg).Recorded?
  {
  }

  lemma PaymentsAfter(s: State, a: Action)
    requires !a.Create?
    ensures Step(s, a).payments == s.payments
            || (a.Pay? && PayReply(s, a.leg).Recorded? && Step(s, a).payments == s.payments + [a.leg])
  {
  }

  lemma ReversedTakesNothing(s: State, a: Action, o: nat)
    requires Inv(s) && o < |s.orders| && Reversing(s.orders[o].status)
    ensures o < |Step(s, a).orders| && Step(s, a).orders[o] == s.orders[o]
    ensures Total(Step(s, a).payments, o) == Total(s.payments, o)
  {
    if a.Create? {
      TotalSnoc(s.payments, Leg(|s.orders|, a.amounts.totalMinor, a.key), o);
    } else {
      PaymentsAfter(s, a);
      if a.Pay? {
        TotalSnoc(s.payments, a.leg, o);
        if a.leg.order == o { ReversedRefusesPayment(s, a.leg); }
      }
    }
  }

  // ------------------------------------------------ what is recorded, exactly

  /** No call with this key is answered from an earlier leg, and no index rejects it. */
  predicate KeyIsFree(legs: seq<Leg>, key: Option<string>) { key.None? || forall i | 0 <= i < |legs| :: legs[i].key != key }

  /** A payment is recorded exactly on an order that is not reversed and for no more than is left to pay. */
  lemma PaymentRecordedIff(s: State, leg: Leg)
    ensures PayReply(s, leg).Recorded? <==>
            && KeyIsFree(s.payments, leg.key) && leg.order < |s.orders|
            && s.orders[leg.order].status != VOIDED && s.orders[leg.order].status != CANCELLED
            && Total(s.payments, leg.order) + leg.amountMinor <= s.orders[leg.order].amounts.totalMinor
    ensures PayReply(s, leg).Recorded? ==>
              (PayReply(s, leg).settled <==>
               s.orders[leg.order].hasCustomer && Total(s.payments, leg.order) + leg.amountMinor == s.orders[leg.order].amounts.totalMinor)
  {
  }

  /** A refund is recorded exactly on a finished order and for no more than it still holds. */
  lemma RefundRecordedIff(s: State, leg: Leg)
    ensures RefundReply(s, leg).Recorded? <==>
            && KeyIsFree(s.refunds, leg.key) && leg.order < |s.orders|
            && (s.orders[leg.order].status == COMPLETED || s.orders[leg.order].status == VOIDED || s.orders[leg.order].status == CANCELLED)
            && Total(s.refunds, leg.order) + leg.amountMinor <= Total(s.payments, leg.order)
  {
  }

  /** What a payment that is not recorded was refused for. */
  lemma PaymentRefusals(s: State, leg: Leg)
    ensures PayReply(s, leg).Replayed? <==> leg.key.Some? && leg.key.value != "" && !KeyIsFree(s.payments, leg.key)
    ensures PayReply(s, leg).KeyClash? ==> leg.key == Some("") && !KeyIsFree(s.payments, leg.key)
    ensures PayReply(s, leg).NotFound? ==> leg.order >= |s.orders|
    ensures PayReply(s, leg).Reversed? ==> s.orders[leg.order].status == VOIDED || s.orders[leg.order].status == CANCELLED
    ensures PayReply(s, leg).Exceeds? ==>
              && Total(s.payments, leg.order) + leg.amountMinor > s.orders[leg.order].amounts.totalMinor
              && PayReply(s, leg) == Exceeds(s.orders[leg.order].amounts.totalMinor - Total(s.payments, leg.order))
  {
  }

  /** What a refund that is not recorded was refused for. */
  lemma RefundRefusals(s: State, leg: Leg)
    ensures RefundReply(s, leg).Replayed? <==> leg.key.Some? && leg.key.value != "" && !KeyIsFree(s.refunds, leg.key)
    ensures RefundReply(s, leg).KeyClash? ==> leg.key == Some("") && !KeyIsFree(s.refunds, leg.key)
    ensures RefundReply(s, leg).NotFound? ==> leg.order >= |s.orders|
    ensures RefundReply(s, leg).NotFinished? ==>
              s.orders[leg.order].status != COMPLETED && s.orders[leg.order].status != VOIDED && s.orders[leg.order].status != CANCELLED
    ensures RefundReply(s, leg).Exceeds? ==>
              && Total(s.refunds, leg.order) + leg.amountMinor > Total(s.payments, leg.order)
              && RefundReply(s, leg) == Exceeds(Total(s.payments, leg.order) - Total(s.refunds, leg.order))
  {
  }

  /** Every finished order can be refunded any part of what is left of its captured sum, down to the last paisa. */
  lemma RefundableInFull(acts: seq<Action>, o: nat, amount: int)
    requires var s := Run(Initial(), acts);
             && o < |s.orders| && Finished(s.orders[o].status)
             && 1 <= amount <= Total(s.payments, o) - Total(s.refunds, o)
    ensures var s := Run(Initial(), acts);
            var t := Step(s, HandBack(Leg(o, amount, None)));
            && Total(t.refunds, o) == Total(s.refunds, o) + amount <= Total(t.payments, o) == Total(s.payments, o)
            && t.orders == s.orders
  {
    var s := Run(Initial(), acts);
    RefundRecordedIff(s, Leg(o, amount, None));
    TotalSnoc(s.refunds, Leg(o, amount, None), o);
  }

  /** Every order that is not reversed can be paid to exactly its total, in one leg or in any two that make it up. */
  lemma PayableInFull(acts: seq<Action>, o: nat, amount: int)
    requires var s := Run(Initial(), acts);
             && o < |s.orders| && !Reversing(s.orders[o].status)
             && 1 <= amount <= s.orders[o].amounts.totalMinor - Total(s.payments, o)
    ensures var s := Run(Initial(), acts);
            var t := Step(s, Pay(Leg(o, amount, None)));
            && Total(t.payments, o) == Total(s.payments, o) + amount <= t.orders[o].amounts.totalMinor
            && t.orders == s.orders
            && t.credited == if s.orders[o].hasCustomer && Total(t.payments, o) == s.orders[o].amounts.totalMinor then s.credited + [o] else s.credited
  {
    var s := Run(Initial(), acts);
    PaymentRecordedIff(s, Leg(o, amount, None));
    TotalSnoc(s.payments, Leg(o, amount, None), o);
  }

  // ------------------------------------------------------------ the whole till

  function Amount(): Leg -> int { (l: Leg) => l.amountMinor }

  /** Per-order sums of the first n orders. */
  function SumByOrder(legs: seq<Leg>, n: nat): int {
    if n == 0 then 0 else SumByOrder(legs, n - 1) + Total(legs, n - 1)
  }

  function SumOfTotals(orders: seq<Order>): int {
    if orders == [] then 0 else SumOfTotals(orders[..|orders| - 1]) + orders[|orders| - 1].amounts.totalMinor
  }

  lemma {:induction false} SumByOrderSnoc(legs: seq<Leg>, leg: Leg, n: nat)
    ensures SumByOrder(legs + [leg], n) == SumByOrder(legs, n) + if leg.order < n then leg.amountMinor else 0
  {
    if n > 0 {
      SumByOrderSnoc(legs, leg, n - 1);
      TotalSnoc(legs, leg, n - 1);
    }
  }

  lemma {:induction false} NoLegsSumToZero(n: nat)
    ensures SumByOrder([], n) == 0
  {
    if n > 0 { NoLegsSumToZero(n - 1); }
  }

  /** Nothing is recorded outside an order. */
  lemma {:induction false} LegsBelongToOrders(legs: seq<Leg>, n: nat)
    requires LegsValid(legs, n)
    ensures Sum(legs, Amount()) == SumByOrder(legs, n)
  {
    if legs == [] {
      NoLegsSumToZero(n);
    } else {
      var k := |legs| - 1;
      LegsBelongToOrders(legs[..k], n);
      SumByOrderSnoc(legs[..k], legs[k], n);
      assert legs == legs[..k] + [legs[k]];
    }
  }

  lemma {:induction false} CeilingsAddUp(s: State, n: nat)
    requires Inv(s) && n <= |s.orders|
    ensures 0 <= SumByOrder(s.refunds, n) <= SumByOrder(s.payments, n) <= SumOfTotals(s.orders[..n])
  {
    if n > 0 {
      CeilingsAddUp(s, n - 1);
      assert WithinCeilings(s, n - 1);
      assert s.orders[..n][..n - 1] == s.orders[..n - 1];
    }
  }

  /** What the till holds is never negative and never more than was sold. */
  lemma TillIsWithinSales(acts: seq<Action>)
    ensures var s := Run(Initial(), acts);
            0 <= Sum(s.refunds, Amount()) <= Sum(s.payments, Amount()) <= SumOfTotals(s.orders)
  {
    var s := Run(Initial(), acts);
    RunKeepsInv(Initial(), acts);
    LegsBelongToOrders(s.payments, |s.orders|);
    LegsBelongToOrders(s.refunds, |s.orders|);
    CeilingsAddUp(s, |s.orders|);
    assert s.orders[..|s.orders|] == s.orders;
  }
}
