/**
 * OrdersService's money-handling methods in their own form. Each is one atomic
 * transaction; Valid is OrderMoney's invariant, so its theorems hold of any
 * sequence of calls.
 */
module OrdersService {
  import opened Options
  import opened OrderStatus
  import opened OrderPricing
  import opened OrderMoney

  datatype Failure = Refused(why: Refusal) | CheckViolated | UniqueViolated

  datatype MoveReply = Moved | Unchanged | Unknown | Illegal

  class Service {
    var orders: seq<Order>
    var payments: seq<Leg>
    var refunds: seq<Leg>
    var credited: seq<nat>

    ghost function Now(): State reads this { State(orders, payments, refunds, credited) }

    ghost predicate Valid() reads this { Inv(Now()) }

    constructor ()
      ensures Valid() && Now() == Initial()
    {
      orders, payments, refunds, credited := [], [], [], [];
    }

    /** insert: the order and its payment in one transaction, unless a constraint or an index rejects it. */
    method Insert(req: Request, amounts: Priced) returns (res: Result<nat, Failure>)
      requires Valid() && !(req.hold && req.paid)
      modifies this
      ensures Valid()
      ensures res.Ok? <==>
                && InsertChecks(req, amounts)
                && !OrderHasKey(old(orders), req.key) && !(req.paid && KeyIn(old(payments), req.key))
      ensures res == Err(CheckViolated) <==> !InsertChecks(req, amounts)
      ensures res.Err? ==> Now() == old(Now()) && res.error in {CheckViolated, UniqueViolated}
      ensures res.Ok? ==> res.value == |old(orders)| && |orders| == res.value + 1
                          && Now() == Step(old(Now()), Action.Create(amounts, req.hold, req.paid, req.hasCustomer, req.key))
      ensures res.Ok? && req.paid ==> Total(payments, res.value) == amounts.totalMinor
    {
      if !InsertChecks(req, amounts) { return Err(CheckViolated); }
      if OrderHasKey(orders, req.key) || (req.paid && KeyIn(payments, req.key)) { return Err(UniqueViolated); }

      StepKeepsInv(Now(), Action.Create(amounts, req.hold, req.paid, req.hasCustomer, req.key));
      var o := |orders|;
      if req.paid {
        NoLegsYet(payments, |orders|, o);
        TotalSnoc(payments, Leg(o, amounts.totalMinor, req.key), o);
        payments := payments + [Leg(o, amounts.totalMinor, req.key)];
      }
      orders := orders + [Order(amounts, if req.hold then DRAFT else PLACED, req.hasCustomer, req.key)];
      if req.hasCustomer && req.paid { credited := credited + [o]; }
      res := Ok(o);
    }

    /** create, after the lookup for a replay: guards, pricing, then the insert. */
    method Create(req: Request, ctx: Context) returns (res: Result<nat, Failure>, ghost p: Priced)
      requires Valid() && WellFormed(req, ctx)
      modifies this
      ensures Valid()
      ensures res.Ok? ==> Guard(req).None? && AddsUp(req, p) && DiscountComesFrom(req, ctx, p) && InsertChecks(req, p)
      ensures res.Ok? ==> CostsItsItems(req.items, p.subtotalMinor, p.taxMinor)
      ensures res.Ok? ==> res.value == |old(orders)| && |orders| == res.value + 1
                          && Now() == Step(old(Now()), Action.Create(p, req.hold, req.paid, req.hasCustomer, req.key))
      ensures res.Ok? && req.paid ==> Total(payments, res.value) == p.totalMinor
      ensures res.Err? ==> Now() == old(Now())
      ensures res == Err(CheckViolated) ==> AddsUp(req, p) && !InsertChecks(req, p)
      ensures res.Ok? <==>
                && Guard(req).None? && DiscountAvailable(req, ctx) && InsertChecks(req, p)
                && !OrderHasKey(old(orders), req.key) && !(req.paid && KeyIn(old(payments), req.key))
      ensures res == Err(UniqueViolated) ==> OrderHasKey(orders, req.key) || (req.paid && KeyIn(payments, req.key))
    {
      p := Priced(0, 0, 0, 0, 0);
      var guard := Guard(req);
      if guard.Some? { return Err(Refused(guard.value)), p; }
      var priced := Price(req, ctx);
      if priced.Err? { return Err(Refused(priced.error)), p; }
      var amounts := priced.value;
      p := amounts;
      res := Insert(req, amounts);
    }

    /** recordPayment */
    method RecordPayment(orderId: nat, amountMinor: int, key: Option<string>) returns (reply: Reply)
      requires Valid() && amountMinor >= 1
      modifies this`payments, this`credited
      ensures Valid() && Now() == Step(old(Now()), Pay(Leg(orderId, amountMinor, key)))
      ensures reply == PayReply(old(Now()), Leg(orderId, amountMinor, key))
      ensures reply.Recorded? <==>
                && KeyIsFree(old(payments), key) && orderId < |orders|
                && orders[orderId].status != VOIDED && orders[orderId].status != CANCELLED
                && Total(old(payments), orderId) + amountMinor <= orders[orderId].amounts.totalMinor
      ensures reply.Recorded? ==>
                payments == old(payments) + [Leg(orderId, amountMinor, key)]
                && (reply.settled <==> orders[orderId].hasCustomer && Total(payments, orderId) == orders[orderId].amounts.totalMinor)
      ensures reply.Recorded? ==> Total(payments, orderId) == Total(old(payments), orderId) + amountMinor
      ensures !reply.Recorded? ==> payments == old(payments) && credited == old(credited)
    {
      StepKeepsInv(Now(), Pay(Leg(orderId, amountMinor, key)));
      PaymentRecordedIff(Now(), Leg(orderId, amountMinor, key));
      if key.Some? && key.value != "" {
        if KeyIn(payments, key) { return Replayed(payments[LegWithKey(payments, key)].order); }
      }
      var settled := false;
      if orderId >= |orders| { return NotFound; }
      var order := orders[orderId];
      if order.status == VOIDED || order.status == CANCELLED { return Reversed; }

      var captured := Total(payments, orderId);
      var outstanding := order.amounts.totalMinor - captured;
      if amountMinor > outstanding { return Exceeds(outstanding); }
      if KeyIn(payments, key) { return KeyClash; }
      TotalSnoc(payments, Leg(orderId, amountMinor, key), orderId);
      payments := payments + [Leg(orderId, amountMinor, key)];
      settled := order.hasCustomer && amountMinor == outstanding;
      if settled { credited := credited + [orderId]; }
      reply := Recorded(settled);
    }

    /** recordRefund */
    method RecordRefund(orderId: nat, amountMinor: int, key: Option<string>) returns (reply: Reply)
      requires Valid() && amountMinor >= 1
      modifies this`refunds
      ensures Valid() && Now() == Step(old(Now()), HandBack(Leg(orderId, amountMinor, key)))
      ensures reply == RefundReply(old(Now()), Leg(orderId, amountMinor, key))
      ensures reply.Recorded? <==>
                && KeyIsFree(old(refunds), key) && orderId < |orders|
                && (orders[orderId].status == COMPLETED || orders[orderId].status == VOIDED || orders[orderId].status == CANCELLED)
                && Total(old(refunds), orderId) + amountMinor <= Total(payments, orderId)
      ensures reply.Recorded? ==> refunds == old(refunds) + [Leg(orderId, amountMinor, key)]
      ensures reply.Recorded? ==> Total(refunds, orderId) == Total(old(refunds), orderId) + amountMinor
      ensures !reply.Recorded? ==> refunds == old(refunds)
    {
      StepKeepsInv(Now(), HandBack(Leg(orderId, amountMinor, key)));
      RefundRecordedIff(Now(), Leg(orderId, amountMinor, key));
      if key.Some? && key.value != "" {
        if KeyIn(refunds, key) { return Replayed(refunds[LegWithKey(refunds, key)].order); }
      }
      if orderId >= |orders| { return NotFound; }
      var order := orders[orderId];
      if order.status !in {COMPLETED, VOIDED, CANCELLED} { return NotFinished; }

      var captured := Total(payments, orderId);
      var refunded := Total(refunds, orderId);
      var refundable := captured - refunded;
      if amountMinor > refundable { return Exceeds(refundable); }
      if KeyIn(refunds, key) { return KeyClash; }
      TotalSnoc(refunds, Leg(orderId, amountMinor, key), orderId);
      refunds := refunds + [Leg(orderId, amountMinor, key)];
      reply := Recorded(false);
    }

    /** updateStatus, apart from its stock movements. */
    method UpdateStatus(orderId: nat, to: Status) returns (reply: MoveReply)
      requires Valid()
      modifies this`orders
      ensures Valid() && Now() == Step(old(Now()), Move(orderId, to))
      ensures reply == Moved <==> orderId < |old(orders)| && CanTransition(old(orders)[orderId].status, to)
      ensures reply == Moved ==> orders[orderId] == old(orders)[orderId].(status := to)
      ensures reply != Moved ==> orders == old(orders)
      ensures reply == Unchanged <==> orderId < |old(orders)| && old(orders)[orderId].status == to
    {
      StepKeepsInv(Now(), Move(orderId, to));
      var changed := false;
      if orderId >= |orders| { return Unknown; }
      var from := orders[orderId].status;
      if from == to { return Unchanged; }
      changed := true;
      if !CanTransition(from, to) { return Illegal; }
      orders := orders[orderId := orders[orderId].(status := to)];
      reply := if changed then Moved else Unchanged;
    }
  }
}
