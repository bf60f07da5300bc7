/**
 * A sale as one transaction over all its tables: the numbered order row, the
 * stock it takes, its payment, and the coupon or the points it redeems. Calls
 * interleave statement by statement, and so do the other loyalty requests; the
 * transaction commits or rolls back as a whole.
 */
module Sales {
  import opened Options
  import opened Traces
  import opened Sums
  import opened OrderStatus
  import opened OrderPricing
  import opened LoyaltyRules
  import N = OrderNumbering
  import L = StockLedger
  import LS = StockSafety
  import LT = StockTheorems
  import M = OrderMoney
  import C = Coupons
  import P = LoyaltyLedger
  import PS = LoyaltySafety

  /** What a call wants to sell; amounts are what OrderPricing.Price makes of it, points to redeem included. */
  datatype Cart = Cart(
    items: seq<L.OrderItem>,
    amounts: Priced,
    hold: bool,
    paid: bool,
    customer: Option<P.Customer>,
    coupon: Option<C.CouponId>)

  /** customers is the customer column of the orders table. */
  datatype Shop = Shop(
    numbering: N.State,
    stock: L.Ledger,
    money: M.State,
    coupons: C.State,
    loyalty: P.State,
    customers: seq<Option<P.Customer>>)

  datatype Action =
    | Call(call: N.Action) // every statement of create but the transaction's commit
    | Commit(r: N.RequestId, cart: Cart, config: Config, keyFirst: bool, now: int)
    | Move(order: nat, to: Status, now: int)
    | Stock(stock: L.Action)
    | Money(money: M.Action)
    | Coupon(coupon: C.Action)
    | Loyalty(loyalty: P.Action)

  function Initial(prepared: set<L.Ingredient>): Shop { 
    Shop(N.Initial(), L.Empty(prepared), M.Initial(), C.Initial(), P.Initial(), [])
  }

  /** The coupon is one that redeems now, for the discount the order was priced with. */
  predicate CouponHolds(s: C.State, cart: Cart, now: int) {
    cart.coupon.Some? ==>
      && cart.coupon.value < |s.coupons|
      && CouponApplies(s.coupons[cart.coupon.value], C.Used(s.redemptions, cart.coupon.value), now, cart.amounts.subtotalMinor)
      && 0 < C.Discount(s.coupons[cart.coupon.value], cart.amounts.subtotalMinor) == cart.amounts.discountMinor
  }

  /** The points are what the order was priced with, by the configuration in force. */
  predicate PaidFor(amounts: Priced, config: Config) {
    && config.redeemPoints > 0
    && RedemptionFor(amounts.redeemPoints, amounts.subtotalMinor, config) == Ok(Redemption(amounts.redeemPoints, amounts.discountMinor))
  }

  /** Points need a customer, a sale that is not held, and no second discount. */
  predicate PointsHold(cart: Cart, config: Config) {
    cart.amounts.redeemPoints != 0 ==>
      PaidFor(cart.amounts, config) && cart.customer.Some? && !cart.hold && cart.coupon.None?
  }

  /** What rolls the transaction back before a unique index is consulted. */
  predicate Refused(s: Shop, cart: Cart, config: Config, now: int) {
    (cart.hold && cart.paid) || !CouponHolds(s.coupons, cart, now) || !PointsHold(cart, config) || !OrderChecks(cart.amounts)
  }

  /** The order row refers to its customer's row, which a debit may have locked. */
  predicate Waits(l: P.State, cart: Cart) { cart.customer.Some? && cart.customer.value in l.locks }

  /** The loyalty rows of a sale. */
  function Spent(cart: Cart, o: nat): seq<P.Entry> {
    if cart.amounts.redeemPoints == 0 || cart.customer.None? then []
    else [P.Entry(cart.customer.value, P.REDEEM, -cart.amounts.redeemPoints, Some(o), None)]
  }

  predicate CanSpend(l: P.State, cart: Cart) {
    cart.amounts.redeemPoints != 0 && cart.customer.Some? ==> cart.amounts.redeemPoints <= P.Balance(l.rows, cart.customer.value)
  }

  /** The payment comes after the order row and the points. */
  function ReportFor(s: Shop, key: Option<string>, cart: Cart, keyFirst: bool): N.Report {
    N.Report(keyFirst, !Waits(s.loyalty, cart) && CanSpend(s.loyalty, cart)
                       && cart.paid && cart.amounts.totalMinor > 0 && M.KeyIn(s.money.payments, key))
  }

  /** The tables after order |s.money.orders| is sold. */
  function Sell(s: Shop, numbering: N.State, key: Option<string>, cart: Cart, now: int): Shop {
    Shop(numbering,
         L.Step(s.stock, L.Create(cart.items, cart.hold, now)),
         M.Step(s.money, M.Create(cart.amounts, cart.hold, cart.paid, cart.customer.Some?, key)),
         if cart.coupon.None? then s.coupons
         else C.Step(s.coupons, C.Redeem(cart.coupon.value, |s.money.orders|, cart.amounts.subtotalMinor, now)),
         s.loyalty.(rows := s.loyalty.rows + Spent(cart, |s.money.orders|)),
         s.customers + [cart.customer])
  }

  function CommitStep(s: Shop, r: N.RequestId, cart: Cart, config: Config, keyFirst: bool, now: int): Shop {
    if r !in s.numbering.requests || !s.numbering.requests[r].phase.Picked? then s
    else
      var key := s.numbering.requests[r].key;
      var numbering := N.Step(s.numbering, N.Insert(r, ReportFor(s, key, cart, keyFirst)));
      if Refused(s, cart, config, now) then s.(numbering := N.Step(s.numbering, N.Fail(r)))
      else if |numbering.orders| == |s.numbering.orders| then s.(numbering := numbering)
      else if Waits(s.loyalty, cart) then s
      else if !CanSpend(s.loyalty, cart) || (cart.paid && cart.amounts.totalMinor <= 0) then
        s.(numbering := N.Step(s.numbering, N.Fail(r)))
      else Sell(s, numbering, key, cart, now)
  }

  /** Points of an order are spent by its sale alone, and earned for its own customer. */
  predicate Permitted(s: Shop, b: P.Action) {
    && (b.Lock? ==> b.debit.order.None?)
    && (b.CheckEarn? ==> b.earn.order.Some? && 0 <= b.earn.order.value < |s.customers|
                         && s.customers[b.earn.order.value] == Some(b.earn.customer))
  }

  function Step(s: Shop, a: Action): Shop {
    match a
    case Call(call) => if call.Insert? then s else s.(numbering := N.Step(s.numbering, call))
    case Commit(r, cart, config, keyFirst, now) => CommitStep(s, r, cart, config, keyFirst, now)
    case Move(o, to, now) =>
      s.(stock := L.Step(s.stock, L.SetStatus(o, to, now)), money := M.Step(s.money, M.Move(o, to)))
    case Stock(b) => if b.Create? || b.SetStatus? then s else s.(stock := L.Step(s.stock, b))
    case Money(b) => if b.Create? || b.Move? then s else s.(money := M.Step(s.money, b))
    case Coupon(b) => if b.Redeem? then s else s.(coupons := C.Step(s.coupons, b))
    case Loyalty(b) => if Permitted(s, b) then s.(loyalty := P.Step(s.loyalty, b)) else s
  }

  function Steps(): (Shop, Action) -> Shop { (s: Shop, a: Action) => Step(s, a) }

  function Run(s: Shop, acts: seq<Action>): Shop { RunOf(Steps(), s, acts) }

  // --------------------------------------------------------------- invariant

  /** The three tables of orders list the same orders. */
  ghost predicate Aligned(s: Shop) {
    && |s.numbering.orders| == |s.stock.orders| == |s.money.orders|
    && forall o | 0 <= o < |s.money.orders| ::
         s.money.orders[o].key == s.numbering.orders[o].key && s.money.orders[o].status == s.stock.orders[o].status
  }

  /** A redemption belongs to one order, and is that order's discount. */
  ghost predicate RedemptionsOk(money: M.State, coupons: C.State) {
    && (forall i | 0 <= i < |coupons.redemptions| ::
          coupons.redemptions[i].order < |money.orders|
          && coupons.redemptions[i].discountMinor == money.orders[coupons.redemptions[i].order].amounts.discountMinor)
    && (forall i, j | 0 <= i < j < |coupons.redemptions| :: coupons.redemptions[i].order != coupons.redemptions[j].order)
  }

  /** A row about an order is about its customer; points it spends are what it was priced with. */
  ghost predicate Owned(orders: seq<M.Order>, customers: seq<Option<P.Customer>>, e: P.Entry) {
    e.order.Some? ==>
      && 0 <= e.order.value < |customers| == |orders|
      && customers[e.order.value] == Some(e.customer)
      && (e.kind == P.REDEEM ==>
            e.points == -orders[e.order.value].amounts.redeemPoints
            && exists config :: PaidFor(orders[e.order.value].amounts, config))
  }

  predicate RequestOwned(orders: seq<M.Order>, customers: seq<Option<P.Customer>>, q: P.Request) {
    match q
    case Earning(e) => e.order.Some? && 0 <= e.order.value < |customers| && customers[e.order.value] == Some(e.customer)
    case Locked(d) => d.order.None?
    case Cleared(d) => d.order.None?
    case Covered(d) => d.order.None?
    case _ => true
  }

  ghost predicate PointsOk(orders: seq<M.Order>, customers: seq<Option<P.Customer>>, l: P.State) {
    && |customers| == |orders|
    && (forall o | 0 <= o < |orders| :: orders[o].hasCustomer == customers[o].Some?)
    && (forall e | e in l.rows :: Owned(orders, customers, e))
    && (forall r | r in l.requests :: RequestOwned(orders, customers, l.requests[r]))
  }

  /** No order spends points and redeems a coupon. */
  ghost predicate OneSource(coupons: C.State, l: P.State) {
    forall i, e | 0 <= i < |coupons.redemptions| && e in l.rows ::
      !(e.kind == P.REDEEM && e.order == Some(coupons.redemptions[i].order as int))
  }

  ghost predicate Inv(s: Shop) {
    && N.Inv(s.numbering) && L.Inv(s.stock) && M.Inv(s.money) && C.Inv(s.coupons) && P.Inv(s.loyalty)
    && Aligned(s) && RedemptionsOk(s.money, s.coupons)
    && PointsOk(s.money.orders, s.customers, s.loyalty) && OneSource(s.coupons, s.loyalty)
  }

  lemma SameKeys(s: Shop, key: Option<string>)
    requires Aligned(s)
    ensures M.OrderHasKey(s.money.orders, key) <==> N.KeyInUse(s.numbering.orders, key)
  {
    if M.OrderHasKey(s.money.orders, key) {
      var o :| 0 <= o < |s.money.orders| && s.money.orders[o].key == key;
      assert s.numbering.orders[o].key == key;
    }
    if N.KeyInUse(s.numbering.orders, key) {
      var o :| 0 <= o < |s.numbering.orders| && s.numbering.orders[o].key == key;
      assert s.money.orders[o].key == key;
    }
  }

  /** The action commits an order. */
  predicate Sells(s: Shop, a: Action) { |Step(s, a).numbering.orders| > |s.numbering.orders| }

  lemma CallsSellNothing(n: N.State, call: N.Action)
    requires !call.Insert?
    ensures N.Step(n, call).orders == n.orders
  {
  }

  lemma AcceptedInsert(n: N.State, r: N.RequestId, report: N.Report)
    requires |N.Step(n, N.Insert(r, report)).orders| != |n.orders|
    ensures r in n.requests && n.requests[r].phase.Picked? && !N.KeyInUse(n.orders, n.requests[r].key)
    ensures report.paymentKeyTaken ==> n.requests[r].key.None?
    ensures N.Step(n, N.Insert(r, report)).orders == n.orders + [N.Order(n.requests[r].phase.number, n.requests[r].key)]
  {
  }

  lemma RejectedInsert(n: N.State, r: N.RequestId, report: N.Report)
    ensures |N.Step(n, N.Insert(r, report)).orders| <= |n.orders| ==> N.Step(n, N.Insert(r, report)).orders == n.orders
  {
  }

  /** What a sale needed, and the row it added. */
  lemma SaleOf(s: Shop, a: Action)
    requires Sells(s, a)
    ensures a.Commit? && a.r in s.numbering.requests && s.numbering.requests[a.r].phase.Picked?
    ensures var q := s.numbering.requests[a.r];
            && !Refused(s, a.cart, a.config, a.now) && (a.cart.paid ==> a.cart.amounts.totalMinor > 0)
            && !Waits(s.loyalty, a.cart) && CanSpend(s.loyalty, a.cart)
            && !N.KeyInUse(s.numbering.orders, q.key) && !(a.cart.paid && M.KeyIn(s.money.payments, q.key))
            && Step(s, a).numbering.orders == s.numbering.orders + [N.Order(q.phase.number, q.key)]
            && Step(s, a) == Sell(s, Step(s, a).numbering, q.key, a.cart, a.now)
  {
    if a.Call? && !a.call.Insert? { CallsSellNothing(s.numbering, a.call); }
    if a.Commit? {
      CallsSellNothing(s.numbering, N.Fail(a.r));
      AcceptedInsert(s.numbering, a.r, ReportFor(s, s.numbering.requests[a.r].key, a.cart, a.keyFirst));
    }
  }

  /** The money side of a sale goes through whenever the numbering side does. */
  lemma MoneyCommits(s: Shop, a: Action)
    requires Aligned(s) && Sells(s, a)
    ensures a.Commit? && a.r in s.numbering.requests
    ensures var key := s.numbering.requests[a.r].key;
            && Step(s, a).money.orders
               == s.money.orders + [M.Order(a.cart.amounts, if a.cart.hold then DRAFT else PLACED, a.cart.customer.Some?, key)]
            && Step(s, a).money.payments
               == s.money.payments + if a.cart.paid then [M.Leg(|s.money.orders|, a.cart.amounts.totalMinor, key)] else []
  {
    SaleOf(s, a);
    SameKeys(s, s.numbering.requests[a.r].key);
    assert s.money.payments + [] == s.money.payments;
  }

  /** So does the coupon side. */
  lemma CouponCommits(s: Shop, a: Action)
    requires Sells(s, a)
    ensures a.Commit?
    ensures Step(s, a).coupons.redemptions
            == s.coupons.redemptions
               + if a.cart.coupon.None? then []
                 else [C.Redemption(a.cart.coupon.value, |s.money.orders|, a.cart.amounts.discountMinor)]
  {
    SaleOf(s, a);
    assert s.coupons.redemptions + [] == s.coupons.redemptions;
  }

  lemma StockCreates(l: L.Ledger, items: seq<L.OrderItem>, hold: bool, now: int)
    ensures var l' := L.Step(l, L.Create(items, hold, now));
            |l'.orders| == |l.orders| + 1 && l'.orders[..|l.orders|] == l.orders
            && l'.orders[|l.orders|].status == if hold then DRAFT else PLACED
  {
  }

  lemma SaleStaysAligned(s: Shop, a: Action)
    requires Inv(s) && Sells(s, a)
    ensures Aligned(Step(s, a))
  {
    SaleOf(s, a);
    MoneyCommits(s, a);
    StockCreates(s.stock, a.cart.items, a.cart.hold, a.now);
    var s' := Step(s, a);
    forall o | 0 <= o < |s.stock.orders| ensures s'.stock.orders[o] == s.stock.orders[o] {
      assert s'.stock.orders[..|s.stock.orders|][o] == s'.stock.orders[o];
    }
  }

  lemma RedemptionAdded(money: M.State, coupons: C.State, money': M.State, coupons': C.State, o: M.Order, added: seq<C.Redemption>)
    requires RedemptionsOk(money, coupons)
    requires money'.orders == money.orders + [o] && coupons'.redemptions == coupons.redemptions + added && |added| <= 1
    requires forall r | r in added :: r.order == |money.orders| && r.discountMinor == o.amounts.discountMinor
    ensures RedemptionsOk(money', coupons')
  {
    if added != [] { assert added[0] in added; }
  }

  lemma SaleKeepsRedemptions(s: Shop, a: Action)
    requires Inv(s) && Sells(s, a)
    ensures RedemptionsOk(Step(s, a).money, Step(s, a).coupons)
  {
    var s' := Step(s, a);
    MoneyCommits(s, a);
    CouponCommits(s, a);
    RedemptionAdded(s.money, s.coupons, s'.money, s'.coupons, s'.money.orders[|s.money.orders|],
                    s'.coupons.redemptions[|s.coupons.redemptions|..]);
  }

  // ------------------------------------------------------------------ points

  lemma LockReturned(locks: map<P.Customer, P.RequestId>, c: P.Customer, q: P.RequestId)
    requires c !in locks && forall d | d in locks :: locks[d] != q
    ensures var held := locks[c := q]; (map d | d in held && held[d] != q :: held[d]) == locks
  {
    var held := locks[c := q];
    var after := map d | d in held && held[d] != q :: held[d];
    assert forall d :: d in after <==> d in locks;
  }

  /** redeemForOrder in the sale's transaction is an undisturbed debit: lock, balance read, append. */
  lemma SpendIsADebit(l: P.State, q: P.RequestId, e: P.Entry)
    requires q !in l.requests && (forall c | c in l.locks :: l.locks[c] != q) && e.customer !in l.locks
    requires P.IsDebitRequest(e) && e.key.None? && P.Unique(l.rows, e) && P.Balance(l.rows, e.customer) + e.points >= 0
    ensures P.Step(P.Step(P.Step(P.Step(l, P.Lock(q, e)), P.CheckReplay(q)), P.ReadBalance(q)), P.CommitDebit(q))
            == l.(rows := l.rows + [e])
  {
    var locked := P.Step(l, P.Lock(q, e));
    var cleared := P.Step(locked, P.CheckReplay(q));
    var covered := P.Step(cleared, P.ReadBalance(q));
    assert covered.requests == l.requests[q := P.Covered(e)] && covered.locks == l.locks[e.customer := q];
    assert covered.requests - {q} == l.requests;
    LockReturned(l.locks, e.customer, q);
  }

  lemma SpendKeepsInv(l: P.State, e: P.Entry)
    requires P.Inv(l) && e.customer !in l.locks
    requires P.IsDebitRequest(e) && e.key.None? && P.Unique(l.rows, e) && P.Balance(l.rows, e.customer) + e.points >= 0
    ensures P.Inv(l.(rows := l.rows + [e]))
  {
    var q := Beyond(l.requests.Keys + l.locks.Values);
    forall c | c in l.locks ensures l.locks[c] != q { assert l.locks[c] in l.locks.Values; }
    SpendIsADebit(l, q, e);
    var locked := P.Step(l, P.Lock(q, e));
    var cleared := P.Step(locked, P.CheckReplay(q));
    PS.StepKeepsInv(l, P.Lock(q, e));
    PS.StepKeepsInv(locked, P.CheckReplay(q));
    PS.StepKeepsInv(cleared, P.ReadBalance(q));
    PS.StepKeepsInv(P.Step(cleared, P.ReadBalance(q)), P.CommitDebit(q));
  }

  lemma NoRowsYet(orders: seq<M.Order>, customers: seq<Option<P.Customer>>, l: P.State, k: P.Kind)
    requires PointsOk(orders, customers, l)
    ensures !P.HasRow(l.rows, |orders|, k)
  {
    forall i | 0 <= i < |l.rows| ensures l.rows[i].order != Some(|orders| as int) { assert Owned(orders, customers, l.rows[i]); }
  }

  /** What a sale adds to the loyalty ledger, and that it may. */
  lemma LoyaltyCommits(s: Shop, a: Action)
    requires PointsOk(s.money.orders, s.customers, s.loyalty) && Sells(s, a)
    ensures a.Commit? && Step(s, a).loyalty == s.loyalty.(rows := s.loyalty.rows + Spent(a.cart, |s.money.orders|))
    ensures Step(s, a).customers == s.customers + [a.cart.customer]
    ensures forall e | e in Spent(a.cart, |s.money.orders|) ::
              && P.IsDebitRequest(e) && e.kind == P.REDEEM && e.key.None? && e.order == Some(|s.money.orders| as int)
              && Some(e.customer) == a.cart.customer && e.points == -a.cart.amounts.redeemPoints
              && e.customer !in s.loyalty.locks && P.Unique(s.loyalty.rows, e)
              && P.Balance(s.loyalty.rows, e.customer) + e.points >= 0 && PaidFor(a.cart.amounts, a.config) && a.cart.coupon.None?
  {
    SaleOf(s, a);
    NoRowsYet(s.money.orders, s.customers, s.loyalty, P.REDEEM);
  }

  lemma SaleKeepsLoyalty(s: Shop, a: Action)
    requires Inv(s) && Sells(s, a)
    ensures P.Inv(Step(s, a).loyalty)
  {
    LoyaltyCommits(s, a);
    var added := Spent(a.cart, |s.money.orders|);
    if added == [] {
      assert s.loyalty.rows + [] == s.loyalty.rows;
    } else {
      assert added[0] in added;
      SpendKeepsInv(s.loyalty, added[0]);
    }
  }

  lemma OwnedStays(orders: seq<M.Order>, customers: seq<Option<P.Customer>>, o: M.Order, c: Option<P.Customer>, e: P.Entry)
    requires Owned(orders, customers, e)
    ensures |orders| == |customers| ==> Owned(orders + [o], customers + [c], e)
  {
  }

  lemma SaleOwnsItsPoints(s: Shop, a: Action)
    requires Inv(s) && Sells(s, a)
    ensures PointsOk(Step(s, a).money.orders, Step(s, a).customers, Step(s, a).loyalty)
  {
    MoneyCommits(s, a);
    LoyaltyCommits(s, a);
    var s' := Step(s, a);
    var o := s'.money.orders[|s.money.orders|];
    forall e | e in s'.loyalty.rows ensures Owned(s'.money.orders, s'.customers, e) {
      if e in s.loyalty.rows {
        OwnedStays(s.money.orders, s.customers, o, a.cart.customer, e);
      } else {
        assert e in Spent(a.cart, |s.money.orders|);
        assert PaidFor(s'.money.orders[|s.money.orders|].amounts, a.config);
      }
    }
    forall r | r in s'.loyalty.requests ensures RequestOwned(s'.money.orders, s'.customers, s'.loyalty.requests[r]) {
      assert RequestOwned(s.money.orders, s.customers, s.loyalty.requests[r]);
    }
  }

  lemma SaleHasOneSource(s: Shop, a: Action)
    requires Inv(s) && Sells(s, a)
    ensures OneSource(Step(s, a).coupons, Step(s, a).loyalty)
  {
    CouponCommits(s, a);
    LoyaltyCommits(s, a);
    var s' := Step(s, a);
    forall i, e | 0 <= i < |s'.coupons.redemptions| && e in s'.loyalty.rows
      ensures !(e.kind == P.REDEEM && e.order == Some(s'.coupons.redemptions[i].order as int))
    {
      if e in s.loyalty.rows { assert Owned(s.money.orders, s.customers, e); } else { assert e in Spent(a.cart, |s.money.orders|); }
      if i < |s.coupons.redemptions| { assert s'.coupons.redemptions[i] == s.coupons.redemptions[i]; }
    }
  }

  lemma SaleKeepsInv(s: Shop, a: Action)
    requires Inv(s) && Sells(s, a)
    ensures Inv(Step(s, a))
  {
    SaleOf(s, a);
    var key := s.numbering.requests[a.r].key;
    N.StepKeepsInv(s.numbering, N.Insert(a.r, ReportFor(s, key, a.cart, a.keyFirst)));
    LS.StepKeepsInv(s.stock, L.Create(a.cart.items, a.cart.hold, a.now));
    M.StepKeepsInv(s.money, M.Create(a.cart.amounts, a.cart.hold, a.cart.paid, a.cart.customer.Some?, key));
    if a.cart.coupon.Some? {
      C.StepKeepsInv(s.coupons, C.Redeem(a.cart.coupon.value, |s.money.orders|, a.cart.amounts.subtotalMinor, a.now));
    }
    SaleStaysAligned(s, a);
    SaleKeepsRedemptions(s, a);
    SaleKeepsLoyalty(s, a);
    SaleOwnsItsPoints(s, a);
    SaleHasOneSource(s, a);
  }

  /** A statement of create that commits nothing touches no stock, money, coupon or points. */
  lemma OnlySalesWrite(s: Shop, a: Action)
    requires (a.Call? || a.Commit?) && !Sells(s, a)
    ensures Step(s, a) == s.(numbering := Step(s, a).numbering) && Step(s, a).numbering.orders == s.numbering.orders
  {
    if a.Call? {
      if !a.call.Insert? { CallsSellNothing(s.numbering, a.call); }
    } else if a.r in s.numbering.requests {
      CallsSellNothing(s.numbering, N.Fail(a.r));
      RejectedInsert(s.numbering, a.r, ReportFor(s, s.numbering.requests[a.r].key, a.cart, a.keyFirst));
    }
  }

  lemma CallKeepsInv(s: Shop, a: Action)
    requires Inv(s) && (a.Call? || a.Commit?) && !Sells(s, a)
    ensures Inv(Step(s, a))
  {
    OnlySalesWrite(s, a);
    if a.Call? {
      N.StepKeepsInv(s.numbering, a.call);
    } else if a.r in s.numbering.requests {
      N.StepKeepsInv(s.numbering, N.Fail(a.r));
      N.StepKeepsInv(s.numbering, N.Insert(a.r, ReportFor(s, s.numbering.requests[a.r].key, a.cart, a.keyFirst)));
    }
  }

  lemma StockMoves(l: L.Ledger, o: nat, to: Status, now: int)
    ensures var l' := L.Step(l, L.SetStatus(o, to, now));
            |l'.orders| == |l.orders|
            && forall p | 0 <= p < |l.orders| ::
                 l'.orders[p].status == if p == o && CanTransition(l.orders[p].status, to) then to else l.orders[p].status
  {
  }

  lemma MoveKeepsInv(s: Shop, a: Action)
    requires Inv(s) && a.Move?
    ensures Inv(Step(s, a))
  {
    LS.StepKeepsInv(s.stock, L.SetStatus(a.order, a.to, a.now));
    M.StepKeepsInv(s.money, M.Move(a.order, a.to));
    SameAmounts(s, M.Move(a.order, a.to));
    StockMoves(s.stock, a.order, a.to, a.now);
  }

  lemma StockKeepsOrders(l: L.Ledger, b: L.Action)
    requires !b.Create? && !b.SetStatus?
    ensures L.Step(l, b).orders == l.orders
  {
  }

  /** Nothing but a sale changes what the loyalty rows refer to. */
  lemma SameAmounts(s: Shop, b: M.Action)
    requires PointsOk(s.money.orders, s.customers, s.loyalty) && !b.Create?
    ensures PointsOk(M.Step(s.money, b).orders, s.customers, s.loyalty)
  {
    var orders := M.Step(s.money, b).orders;
    assert forall o | 0 <= o < |s.money.orders| ::
        orders[o].amounts == s.money.orders[o].amounts && orders[o].hasCustomer == s.money.orders[o].hasCustomer;
    forall e | e in s.loyalty.rows ensures Owned(orders, s.customers, e) { assert Owned(s.money.orders, s.customers, e); }
  }

  /** The row another loyalty request commits is about its order's customer, and spends no order's points. */
  lemma CommittedIsOwned(s: Shop, b: P.Action)
    requires P.Inv(s.loyalty) && PointsOk(s.money.orders, s.customers, s.loyalty) && PS.Committed(s.loyalty, b).Some?
    ensures var e := PS.Committed(s.loyalty, b).value;
            Owned(s.money.orders, s.customers, e) && (e.kind == P.REDEEM ==> e.order.None?)
  {
    var q := s.loyalty.requests[b.r];
    assert RequestOwned(s.money.orders, s.customers, q) && P.RequestOk(s.loyalty, b.r, q);
    if b.CommitUndo? { assert Owned(s.money.orders, s.customers, q.original); }
  }

  lemma RequestsStayOwned(s: Shop, b: P.Action)
    requires PointsOk(s.money.orders, s.customers, s.loyalty) && Permitted(s, b)
    ensures forall r | r in P.Step(s.loyalty, b).requests :: RequestOwned(s.money.orders, s.customers, P.Step(s.loyalty, b).requests[r])
  {
    var l' := P.Step(s.loyalty, b);
    forall r | r in l'.requests ensures RequestOwned(s.money.orders, s.customers, l'.requests[r]) {
      if r in s.loyalty.requests { assert RequestOwned(s.money.orders, s.customers, s.loyalty.requests[r]); }
    }
  }

  lemma LoyaltyKeepsInv(s: Shop, b: P.Action)
    requires Inv(s) && Permitted(s, b)
    ensures Inv(s.(loyalty := P.Step(s.loyalty, b)))
  {
    var l' := P.Step(s.loyalty, b);
    PS.StepKeepsInv(s.loyalty, b);
    PS.StepCommits(s.loyalty, b);
    RequestsStayOwned(s, b);
    if PS.Committed(s.loyalty, b).Some? { CommittedIsOwned(s, b); }
    forall e | e in l'.rows ensures Owned(s.money.orders, s.customers, e) {
      if e in s.loyalty.rows { assert Owned(s.money.orders, s.customers, e); }
    }
  }

  lemma StockKeepsInv(s: Shop, b: L.Action)
    requires Inv(s)
    ensures Inv(Step(s, Stock(b)))
  {
    LS.StepKeepsInv(s.stock, b);
    if !b.Create? && !b.SetStatus? { StockKeepsOrders(s.stock, b); }
  }

  lemma MoneyKeepsInv(s: Shop, b: M.Action)
    requires Inv(s)
    ensures Inv(Step(s, Money(b)))
  {
    M.StepKeepsInv(s.money, b);
    if !b.Create? { SameAmounts(s, b); }
  }

  lemma CouponKeepsInv(s: Shop, b: C.Action)
    requires Inv(s)
    ensures Inv(Step(s, Action.Coupon(b)))
  {
    C.StepKeepsInv(s.coupons, b);
  }

  lemma StepKeepsInv(s: Shop, a: Action)
    requires Inv(s)
    ensures Inv(Step(s, a))
  {
    match a
    case Move(_, _, _) => MoveKeepsInv(s, a);
    case Stock(b) => StockKeepsInv(s, b);
    case Money(b) => MoneyKeepsInv(s, b);
    case Coupon(b) => CouponKeepsInv(s, b);
    case Loyalty(b) => if Permitted(s, b) { LoyaltyKeepsInv(s, b); }
    case _ => if Sells(s, a) { SaleKeepsInv(s, a); } else { CallKeepsInv(s, a); }
  }

  lemma {:induction false} RunKeepsInv(s: Shop, acts: seq<Action>)
    requires Inv(s)
    ensures Inv(Run(s, acts))
    decreases |acts|
  {
    if acts != [] {
      StepKeepsInv(s, acts[0]);
      RunKeepsInv(Step(s, acts[0]), acts[1..]);
    }
  }

  // ------------------------------------------------------------ what is sold

  /** The coupon, if any, may be used now and gives the most it affords. */
  predicate CouponGives(s: C.State, cart: Cart, now: int) {
    cart.coupon.Some? ==>
      && cart.coupon.value < |s.coupons|
      && var c, sub, d := s.coupons[cart.coupon.value], cart.amounts.subtotalMinor, cart.amounts.discountMinor;
         WhyNot(c, C.Used(s.redemptions, cart.coupon.value), now, sub).None? && 0 < d && Affords(c, sub, d) && !Affords(c, sub, d + 1)
  }

  /** The points, if any, make the discount of a named customer's own sale. */
  predicate PointsGive(cart: Cart, config: Config) {
    cart.amounts.redeemPoints != 0 ==>
      && cart.customer.Some? && !cart.hold && cart.coupon.None?
      && RedeemsFor(cart.amounts.redeemPoints, cart.amounts.subtotalMinor, config, cart.amounts.discountMinor)
  }

  lemma CouponHoldsIff(s: C.State, cart: Cart, now: int)
    ensures CouponHolds(s, cart, now) <==> CouponGives(s, cart, now)
  {
    if cart.coupon.Some? && cart.coupon.value < |s.coupons| {
      var c, sub, d := s.coupons[cart.coupon.value], cart.amounts.subtotalMinor, cart.amounts.discountMinor;
      CouponAppliesIff(c, C.Used(s.redemptions, cart.coupon.value), now, sub);
      assert d == C.Discount(c, sub) <==> Affords(c, sub, d) && !Affords(c, sub, d + 1) by {
        C.DiscountIsLargest(c, sub, d);
        CouponDiscountIff(d, c, sub);
      }
    }
  }

  lemma PointsHoldIff(cart: Cart, config: Config)
    ensures PointsHold(cart, config) <==> PointsGive(cart, config)
  {
    if config.redeemPoints > 0 { RedeemsIff(cart.amounts.redeemPoints, cart.amounts.subtotalMinor, config); }
  }

  /** What a transaction that is not rolled back needs, index checks aside. */
  predicate InOrder(s: Shop, cart: Cart, config: Config, now: int) {
    && !(cart.hold && cart.paid)
    && CouponGives(s.coupons, cart, now) && PointsGive(cart, config)
    && cart.amounts.totalMinor == cart.amounts.subtotalMinor - cart.amounts.discountMinor + cart.amounts.taxMinor
    && 0 <= cart.amounts.discountMinor <= cart.amounts.subtotalMinor && 0 <= cart.amounts.taxMinor
    && (cart.paid ==> 0 < cart.amounts.totalMinor)
  }

  lemma RefusedIff(s: Shop, cart: Cart, config: Config, now: int)
    ensures InOrder(s, cart, config, now) <==> !Refused(s, cart, config, now) && (cart.paid ==> 0 < cart.amounts.totalMinor)
  {
    CouponHoldsIff(s.coupons, cart, now);
    PointsHoldIff(cart, config);
  }

  /** The unique indexes let a picked number through exactly if it is the next one and its key is free. */
  lemma InsertIff(n: N.State, r: N.RequestId, report: N.Report)
    requires N.Inv(n) && r in n.requests && n.requests[r].phase.Picked?
    ensures |N.Step(n, N.Insert(r, report)).orders| > |n.orders| <==>
              && n.requests[r].phase.number == |n.orders| + 1
              && (n.requests[r].key.Some? ==>
                    !report.paymentKeyTaken && forall i | 0 <= i < |n.orders| :: n.orders[i].key != n.requests[r].key)
  {
    var q := n.requests[r];
    assert 1 <= q.phase.number <= |n.orders| + 1;
    N.CheckIff(n.orders, q.phase.number, q.key, report);
    if q.phase.number <= |n.orders| { assert n.orders[q.phase.number - 1].number == q.phase.number; }
  }

  /** What a commit needs of the other tables. */
  predicate Affordable(s: Shop, cart: Cart) {
    cart.customer.Some? ==>
      && cart.customer.value !in s.loyalty.locks
      && (cart.amounts.redeemPoints != 0 ==> cart.amounts.redeemPoints <= P.Balance(s.loyalty.rows, cart.customer.value))
  }

  lemma CommitSells(s: Shop, r: N.RequestId, cart: Cart, config: Config, keyFirst: bool, now: int)
    requires r in s.numbering.requests && s.numbering.requests[r].phase.Picked?
    ensures var report := ReportFor(s, s.numbering.requests[r].key, cart, keyFirst);
            Sells(s, Commit(r, cart, config, keyFirst, now)) <==>
              && InOrder(s, cart, config, now) && Affordable(s, cart)
              && |N.Step(s.numbering, N.Insert(r, report)).orders| > |s.numbering.orders|
  {
    RefusedIff(s, cart, config, now);
    CallsSellNothing(s.numbering, N.Fail(r));
    RejectedInsert(s.numbering, r, ReportFor(s, s.numbering.requests[r].key, cart, keyFirst));
  }

  /**
   * A commit sells exactly if it is the next number's, its key is new, its
   * amounts add up with the coupon or the points it names, and its customer is
   * neither locked nor short of them.
   */
  lemma SellsIff(s: Shop, r: N.RequestId, cart: Cart, config: Config, keyFirst: bool, now: int)
    requires Inv(s)
    ensures Sells(s, Commit(r, cart, config, keyFirst, now)) <==>
              && r in s.numbering.requests && s.numbering.requests[r].phase == N.Picked(|s.numbering.orders| + 1)
              && InOrder(s, cart, config, now) && Affordable(s, cart)
              && var key := s.numbering.requests[r].key;
                 && (key.Some? ==> forall i | 0 <= i < |s.numbering.orders| :: s.numbering.orders[i].key != key)
                 && (cart.paid ==> M.KeyIsFree(s.money.payments, key))
  {
    if r in s.numbering.requests && s.numbering.requests[r].phase.Picked? {
      var report := ReportFor(s, s.numbering.requests[r].key, cart, keyFirst);
      CommitSells(s, r, cart, config, keyFirst, now);
      InsertIff(s.numbering, r, report);
      if InOrder(s, cart, config, now) && Affordable(s, cart) { ReportIff(s, r, cart, keyFirst); }
    }
  }

  lemma ReportIff(s: Shop, r: N.RequestId, cart: Cart, keyFirst: bool)
    requires r in s.numbering.requests && Affordable(s, cart) && (cart.paid ==> 0 < cart.amounts.totalMinor)
    ensures ReportFor(s, s.numbering.requests[r].key, cart, keyFirst).paymentKeyTaken
            <==> cart.paid && !M.KeyIsFree(s.money.payments, s.numbering.requests[r].key)
  {
  }

  /** Outside sales points are still spent, and earned for an order's own customer. */
  lemma PointsOutsideSales(s: Shop, r: P.RequestId, e: P.Entry)
    requires r !in s.loyalty.requests && e.customer !in s.loyalty.locks
    ensures P.IsDebitRequest(e) && e.order.None? ==>
              var t := Step(Step(Step(Step(s, Loyalty(P.Lock(r, e))), Loyalty(P.CheckReplay(r))), Loyalty(P.ReadBalance(r))), Loyalty(P.CommitDebit(r)));
              t.loyalty.rows == if PS.IsFresh(s.loyalty.rows, e) && (e.points < 0 ==> -e.points <= P.Balance(s.loyalty.rows, e.customer))
                                then s.loyalty.rows + [e] else s.loyalty.rows
    ensures P.IsEarnRequest(e) && 0 <= e.order.value < |s.customers| && s.customers[e.order.value] == Some(e.customer) ==>
              var t := Step(Step(s, Loyalty(P.CheckEarn(r, e))), Loyalty(P.CommitEarn(r)));
              t.loyalty.rows == if PS.IsFresh(s.loyalty.rows, e) then s.loyalty.rows + [e] else s.loyalty.rows
  {
    if P.IsDebitRequest(e) && e.order.None? { PS.UndisturbedDebitIsWrittenIff(s.loyalty, r, e); }
    if P.IsEarnRequest(e) { PS.UndisturbedEarnIsWrittenIff(s.loyalty, r, e); }
  }

  // ---------------------------------------------------------------- theorems

  /** One commit writes the whole sale: number, stock, payment and coupon or points, each as the cart says. */
  lemma SaleIsWhole(s: Shop, a: Action, i: L.Ingredient)
    requires Inv(s) && Sells(s, a)
    ensures a.Commit? && a.r in s.numbering.requests
    ensures var o, s' := |s.numbering.orders|, Step(s, a);
            && s'.numbering.orders == s.numbering.orders + [N.Order(o + 1, s.numbering.requests[a.r].key)]
            && L.Net(s'.stock.rows, o, L.AtIngredient(i))
               == (if a.cart.hold then 0 else -L.Expansion(s.stock.recipes, L.ExpandItems(a.cart.items), i))
            && M.Total(s'.money.payments, o) == (if a.cart.paid then a.cart.amounts.totalMinor else 0)
            && s'.coupons.redemptions
               == s.coupons.redemptions
                  + (if a.cart.coupon.None? then [] else [C.Redemption(a.cart.coupon.value, o, a.cart.amounts.discountMinor)])
            && (a.cart.amounts.redeemPoints == 0 ==> s'.loyalty.rows == s.loyalty.rows)
            && (a.cart.amounts.redeemPoints != 0 ==>
                  a.cart.customer.Some? && 0 < a.cart.amounts.redeemPoints
                  && s'.loyalty.rows
                     == s.loyalty.rows + [P.Entry(a.cart.customer.value, P.REDEEM, -a.cart.amounts.redeemPoints, Some(o), None)]
                  && P.Balance(s'.loyalty.rows, a.cart.customer.value)
                     == P.Balance(s.loyalty.rows, a.cart.customer.value) - a.cart.amounts.redeemPoints >= 0)
  {
    SaleOf(s, a);
    SaleSpendsPoints(s, a);
    SaleIsNumbered(s, a);
    SaleTakesStock(s, a, i);
    SaleTakesPayment(s, a);
    CouponCommits(s, a);
  }

  lemma SaleIsNumbered(s: Shop, a: Action)
    requires Inv(s) && Sells(s, a)
    ensures a.Commit? && a.r in s.numbering.requests
    ensures Step(s, a).numbering.orders == s.numbering.orders + [N.Order(|s.numbering.orders| + 1, s.numbering.requests[a.r].key)]
  {
    SaleOf(s, a);
    SaleKeepsInv(s, a);
    assert Step(s, a).numbering.orders[|s.numbering.orders|].number == |s.numbering.orders| + 1;
  }

  lemma SaleTakesStock(s: Shop, a: Action, i: L.Ingredient)
    requires Inv(s) && Sells(s, a)
    ensures a.Commit?
    ensures L.Net(Step(s, a).stock.rows, |s.stock.orders|, L.AtIngredient(i))
            == if a.cart.hold then 0 else -L.Expansion(s.stock.recipes, L.ExpandItems(a.cart.items), i)
  {
    SaleOf(s, a);
    if a.cart.hold {
      HeldTakesNothing(s.stock, |s.stock.orders|, L.AtIngredient(i));
    } else {
      PlacedTakes(s.stock, a.cart.items, a.now, i);
    }
  }

  lemma PlacedTakes(l: L.Ledger, items: seq<L.OrderItem>, now: int, i: L.Ingredient)
    requires L.Inv(l)
    ensures L.Net(L.Step(l, L.Create(items, false, now)).rows, |l.orders|, L.AtIngredient(i))
            == -L.Expansion(l.recipes, L.ExpandItems(items), i)
  {
    StockCreates(l, items, false, now);
    LT.DirectSaleTakes(l, items, now, [], i);
  }

  lemma HeldTakesNothing(l: L.Ledger, o: nat, p: L.Key -> bool)
    requires L.Inv(l) && o >= |l.orders|
    ensures L.Net(l.rows, o, p) == 0
  {
    forall m | m in l.rows ensures L.Weigh(L.OfOrderKey(o, p))(m) == 0 { assert L.RowOk(l, m); }
    SumZero(l.rows, L.Weigh(L.OfOrderKey(o, p)));
  }

  lemma SaleTakesPayment(s: Shop, a: Action)
    requires Inv(s) && Sells(s, a)
    ensures a.Commit?
    ensures M.Total(Step(s, a).money.payments, |s.money.orders|) == if a.cart.paid then a.cart.amounts.totalMinor else 0
  {
    MoneyCommits(s, a);
    M.NoLegsYet(s.money.payments, |s.money.orders|, |s.money.orders|);
    if a.cart.paid {
      M.TotalSnoc(s.money.payments, M.Leg(|s.money.orders|, a.cart.amounts.totalMinor, s.numbering.requests[a.r].key), |s.money.orders|);
    } else {
      assert s.money.payments + [] == s.money.payments;
    }
  }

  lemma SaleSpendsPoints(s: Shop, a: Action)
    requires Inv(s) && Sells(s, a)
    ensures a.Commit? && (a.cart.amounts.redeemPoints == 0 ==> Step(s, a).loyalty.rows == s.loyalty.rows)
    ensures a.cart.amounts.redeemPoints != 0 ==>
              a.cart.customer.Some? && 0 < a.cart.amounts.redeemPoints
              && Step(s, a).loyalty.rows
                 == s.loyalty.rows + [P.Entry(a.cart.customer.value, P.REDEEM, -a.cart.amounts.redeemPoints, Some(|s.money.orders|), None)]
              && P.Balance(Step(s, a).loyalty.rows, a.cart.customer.value)
                 == P.Balance(s.loyalty.rows, a.cart.customer.value) - a.cart.amounts.redeemPoints >= 0
  {
    SaleOf(s, a);
    LoyaltyCommits(s, a);
    var added := Spent(a.cart, |s.money.orders|);
    if added != [] {
      assert added[0] in added;
      PS.AppendRow(s.loyalty.rows, added[0], a.cart.customer.value);
    } else {
      assert s.loyalty.rows + [] == s.loyalty.rows;
    }
  }

  /** The sales a run commits under a key. */
  function SalesFor(s: Shop, acts: seq<Action>, key: Option<string>): nat
    decreases |acts|
  {
    if acts == [] then 0
    else
      var a := acts[0];
      SalesFor(Step(s, a), acts[1..], key)
      + if Sells(s, a) && a.Commit? && a.r in s.numbering.requests && s.numbering.requests[a.r].key == key then 1 else 0
  }

  lemma {:induction false} SalesSinceKeyWasFree(s: Shop, acts: seq<Action>, key: Option<string>)
    requires key.Some?
    ensures SalesFor(s, acts, key) + (if N.KeyInUse(s.numbering.orders, key) then 1 else 0)
            == if N.KeyInUse(Run(s, acts).numbering.orders, key) then 1 else 0
    decreases |acts|
  {
    if acts != [] {
      SalesSinceKeyWasFree(Step(s, acts[0]), acts[1..], key);
      KeyUseAfter(s, acts[0], key);
    }
  }

  /** A step puts a key to use exactly by selling under it, which needs the key free. */
  lemma KeyUseAfter(s: Shop, a: Action, key: Option<string>)
    requires key.Some?
    ensures var sold := Sells(s, a) && a.Commit? && a.r in s.numbering.requests && s.numbering.requests[a.r].key == key;
            && (sold ==> !N.KeyInUse(s.numbering.orders, key))
            && (N.KeyInUse(Step(s, a).numbering.orders, key) <==> sold || N.KeyInUse(s.numbering.orders, key))
  {
    if Sells(s, a) {
      SaleOf(s, a);
      UseSnoc(s.numbering.orders, N.Order(s.numbering.requests[a.r].phase.number, s.numbering.requests[a.r].key), key);
    } else if a.Call? || a.Commit? {
      OnlySalesWrite(s, a);
    }
  }

  lemma UseSnoc(orders: seq<N.Order>, o: N.Order, key: Option<string>)
    requires key.Some?
    ensures N.KeyInUse(orders + [o], key) <==> N.KeyInUse(orders, key) || o.key == key
  {
    var all := orders + [o];
    if N.KeyInUse(orders, key) {
      var i :| 0 <= i < |orders| && orders[i].key == key;
      assert all[i].key == key;
    }
    if o.key == key { assert all[|orders|].key == key; }
  }

  /**
   * However calls with one key are repeated and interleaved, exactly one sale is
   * committed under it once an order carries it, and none before: stock is
   * taken, the payment captured, the coupon redeemed and the points spent at
   * most once.
   */
  lemma SoldOncePerKey(prepared: set<L.Ingredient>, acts: seq<Action>, key: Option<string>)
    requires key.Some?
    ensures SalesFor(Initial(prepared), acts, key)
            == if N.KeyInUse(Run(Initial(prepared), acts).numbering.orders, key) then 1 else 0
  {
    SalesSinceKeyWasFree(Initial(prepared), acts, key);
  }

  lemma ReachableInv(prepared: set<L.Ingredient>, acts: seq<Action>)
    ensures Inv(Run(Initial(prepared), acts))
  {
    RunKeepsInv(Initial(prepared), acts);
  }

  /** In every run the tables tell one story about an order. */
  lemma TablesAgree(prepared: set<L.Ingredient>, acts: seq<Action>, o: nat, k: L.Key)
    requires o < |Run(Initial(prepared), acts).numbering.orders|
    ensures var s := Run(Initial(prepared), acts);
            && o < |s.money.orders| && o < |s.stock.orders|
            && s.numbering.orders[o] == N.Order(o + 1, s.money.orders[o].key)
            && s.money.orders[o].status == s.stock.orders[o].status
            && (s.money.orders[o].status in {DRAFT, CANCELLED, VOIDED} ==> L.Net(s.stock.rows, o, L.AtKey(k)) == 0)
            && 0 <= M.Total(s.money.refunds, o) <= M.Total(s.money.payments, o) <= s.money.orders[o].amounts.totalMinor
  {
    var s := Run(Initial(prepared), acts);
    ReachableInv(prepared, acts);
    assert L.OrderOk(s.stock, o) && M.WithinCeilings(s.money, o);
    if s.stock.orders[o].status == DRAFT { SumZero(s.stock.rows, L.Weigh(L.OfOrderKey(o, L.AtKey(k)))); }
  }

  /** An order's discount is redeemed from at most one coupon, and for exactly that amount. */
  lemma RedemptionIsTheDiscount(prepared: set<L.Ingredient>, acts: seq<Action>, i: nat, j: nat)
    requires i < |Run(Initial(prepared), acts).coupons.redemptions| && j < |Run(Initial(prepared), acts).coupons.redemptions|
    ensures var s := Run(Initial(prepared), acts);
            var r := s.coupons.redemptions[i];
            && r.order < |s.money.orders| && 0 < r.discountMinor == s.money.orders[r.order].amounts.discountMinor
            && (s.coupons.redemptions[j].order == r.order <==> i == j)
  {
    ReachableInv(prepared, acts);
  }

  /** Points are spent by a sale at most once, for its own customer, as many as its discount was priced at, and with no coupon. */
  lemma PointsAreTheDiscount(prepared: set<L.Ingredient>, acts: seq<Action>, i: nat, j: nat)
    requires var rows := Run(Initial(prepared), acts).loyalty.rows;
             i < |rows| && j < |rows| && rows[i].kind == rows[j].kind == P.REDEEM && rows[i].order.Some?
    ensures var s := Run(Initial(prepared), acts);
            var row := s.loyalty.rows[i];
            var o := row.order.value;
            && 0 <= o < |s.money.orders| == |s.customers|
            && s.customers[o] == Some(row.customer) && row.points == -s.money.orders[o].amounts.redeemPoints
            && (exists config :: PaidFor(s.money.orders[o].amounts, config))
            && (s.loyalty.rows[j].order == Some(o) <==> i == j)
            && (forall k | 0 <= k < |s.coupons.redemptions| :: s.coupons.redemptions[k].order != o)
  {
    var s := Run(Initial(prepared), acts);
    ReachableInv(prepared, acts);
    assert Owned(s.money.orders, s.customers, s.loyalty.rows[i]);
    assert s.loyalty.rows[i] in s.loyalty.rows;
  }

  /** With sales spending points among all the other requests, still no debit overdraws. */
  lemma SalesNeverOverdraw(prepared: set<L.Ingredient>, acts: seq<Action>, i: nat)
    requires i < |Run(Initial(prepared), acts).loyalty.rows| && P.IsDebit(Run(Initial(prepared), acts).loyalty.rows[i])
    ensures var rows := Run(Initial(prepared), acts).loyalty.rows;
            P.Balance(rows[..i + 1], rows[i].customer) >= 0
  {
    ReachableInv(prepared, acts);
  }

  // -------------------------------------------------------------- permanence

  /** What was sold in s stands in s': its number and key, what it cost and for whom, and every row written for it. */
  ghost predicate Stands(s: Shop, s': Shop) {
    && s.numbering.orders <= s'.numbering.orders && s.customers <= s'.customers
    && s.money.payments <= s'.money.payments && s.money.refunds <= s'.money.refunds
    && s.coupons.redemptions <= s'.coupons.redemptions && s.loyalty.rows <= s'.loyalty.rows
    && |s.money.orders| <= |s'.money.orders|
    && forall o | 0 <= o < |s.money.orders| :: s'.money.orders[o].(status := s.money.orders[o].status) == s.money.orders[o]
  }

  lemma MoneyStands(m: M.State, b: M.Action)
    ensures m.payments <= M.Step(m, b).payments && m.refunds <= M.Step(m, b).refunds && |m.orders| <= |M.Step(m, b).orders|
    ensures forall o | 0 <= o < |m.orders| :: M.Step(m, b).orders[o].(status := m.orders[o].status) == m.orders[o]
  {
  }

  lemma SaleStands(s: Shop, a: Action)
    requires Sells(s, a)
    ensures Stands(s, Step(s, a))
  {
    SaleOf(s, a);
    MoneyStands(s.money, M.Create(a.cart.amounts, a.cart.hold, a.cart.paid, a.cart.customer.Some?, s.numbering.requests[a.r].key));
    CouponCommits(s, a);
  }

  lemma MovedStands(s: Shop, l: L.Action, b: M.Action)
    ensures Stands(s, s.(stock := L.Step(s.stock, l), money := M.Step(s.money, b)))
  {
    MoneyStands(s.money, b);
  }

  lemma RolledBackStands(s: Shop, n: N.State)
    requires n.orders == s.numbering.orders
    ensures Stands(s, s.(numbering := n))
  {
  }

  lemma StepStands(s: Shop, a: Action)
    ensures Stands(s, Step(s, a))
  {
    match a
    case Move(o, to, now) => MovedStands(s, L.SetStatus(o, to, now), M.Move(o, to));
    case Money(b) => MoneyStands(s.money, b);
    case Loyalty(b) => PS.StepCommits(s.loyalty, b);
    case Stock(_) =>
    case Coupon(_) =>
    case _ =>
      if Sells(s, a) {
        SaleStands(s, a);
      } else {
        OnlySalesWrite(s, a);
        RolledBackStands(s, Step(s, a).numbering);
      }
  }

  lemma StandsTransitive(a: Shop, b: Shop, c: Shop)
    requires Stands(a, b) && Stands(b, c)
    ensures Stands(a, c)
  {
    forall o | 0 <= o < |a.money.orders| ensures c.money.orders[o].(status := a.money.orders[o].status) == a.money.orders[o] {
      assert b.money.orders[o].(status := a.money.orders[o].status) == a.money.orders[o];
      assert c.money.orders[o].(status := b.money.orders[o].status) == b.money.orders[o];
    }
  }

  lemma {:induction false} RunStands(s: Shop, acts: seq<Action>)
    ensures Stands(s, Run(s, acts))
    decreases |acts|
  {
    if acts != [] {
      StepStands(s, acts[0]);
      RunStands(Step(s, acts[0]), acts[1..]);
      StandsTransitive(s, Step(s, acts[0]), Run(s, acts));
    }
  }

  /** A committed sale is never taken back or repriced, nor any row written for it, whatever runs later. */
  lemma SalesAreFinal(prepared: set<L.Ingredient>, before: seq<Action>, after: seq<Action>)
    ensures Stands(Run(Initial(prepared), before), Run(Initial(prepared), before + after))
  {
    RunAppend(Steps(), Initial(prepared), before, after);
    RunStands(Run(Initial(prepared), before), after);
  }
}
