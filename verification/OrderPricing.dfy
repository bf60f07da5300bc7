/**
 * What an order costs: lines priced from the catalogue, one discount source at
 * most, and the total the database constrains.
 */
module OrderPricing {
  import opened Options
  import opened Sums
  import opened StableSort
  import opened Rounding
  import opened LoyaltyRules

  /** A requested line after the catalogue lookups. */
  datatype Item =
    | ProductItem(priceMinor: int, perUnitAdjustMinor: int, taxRateBp: int, quantity: int)
    | ComboItem(priceMinor: int, taxRateBp: int, quantity: int)

  datatype Line = Line(unitPriceMinor: int, quantity: int, lineTotalMinor: int, taxRateBp: int, taxMinor: int)

  function UnitPrice(i: Item): int {
    if i.ComboItem? then i.priceMinor else i.priceMinor + i.perUnitAdjustMinor
  }

  function LineOf(i: Item): Line {
    var total := UnitPrice(i) * i.quantity;
    Line(UnitPrice(i), i.quantity, total, i.taxRateBp, RoundDiv(total * i.taxRateBp, 10_000))
  }

  function ToLine(): Item -> Line { (i: Item) => LineOf(i) }

  function LinesOf(items: seq<Item>): seq<Line> { Map(items, ToLine()) }

  function LineTotal(): Line -> int { (l: Line) => l.lineTotalMinor }

  function LineTax(): Line -> int { (l: Line) => l.taxMinor }

  function Subtotal(items: seq<Item>): int { Sum(LinesOf(items), LineTotal()) }

  function Tax(items: seq<Item>): int { Sum(LinesOf(items), LineTax()) }

  // ------------------------------------------------ the cost of a request's items

  /** quantity * (price + modifiers) for a product, quantity * price for a combo. */
  function Cost(): Item -> int {
    (i: Item) =>
      match i
      case ProductItem(price, adjust, _, quantity) => quantity * (price + adjust)
      case ComboItem(price, _, quantity) => quantity * price
  }

  /** t is a line's tax in whole paise: the nearest to cost * rate / 10000, halves going up. */
  predicate IsNearestTax(t: int, i: Item) { -5_000 < 10_000 * t - Cost()(i) * i.taxRateBp <= 5_000 }

  function Itself(): int -> int { (x: int) => x }

  /** What the items cost and are taxed, said of the request alone. */
  ghost predicate CostsItsItems(items: seq<Item>, subtotal: int, tax: int) {
    && subtotal == Sum(items, Cost())
    && exists taxes: seq<int> ::
         |taxes| == |items| && tax == Sum(taxes, Itself()) && forall k | 0 <= k < |items| :: IsNearestTax(taxes[k], items[k])
  }

  lemma LineCosts(i: Item)
    ensures LineOf(i).lineTotalMinor == Cost()(i) && IsNearestTax(LineOf(i).taxMinor, i)
  {
    RoundDivIsNearest(LineOf(i).lineTotalMinor * i.taxRateBp, 10_000);
  }

  function Taxes(items: seq<Item>): (r: seq<int>)
    ensures |r| == |items| && forall k | 0 <= k < |items| :: r[k] == LineOf(items[k]).taxMinor
  {
    seq(|items|, k requires 0 <= k < |items| => LineOf(items[k]).taxMinor)
  }

  lemma {:induction false} SumsByItem(items: seq<Item>)
    ensures Subtotal(items) == Sum(items, Cost()) && Tax(items) == Sum(Taxes(items), Itself())
  {
    if items != [] {
      var n := |items| - 1;
      SumsByItem(items[..n]);
      assert LinesOf(items)[..n] == LinesOf(items[..n]);
      assert Taxes(items)[..n] == Taxes(items[..n]);
      LineCosts(items[n]);
    }
  }

  lemma PricedByItem(items: seq<Item>)
    ensures CostsItsItems(items, Subtotal(items), Tax(items))
  {
    SumsByItem(items);
    forall k | 0 <= k < |items| ensures IsNearestTax(Taxes(items)[k], items[k]) { LineCosts(items[k]); }
  }

  function Raised(i: Item, x: int): Item
    requires i.ProductItem?
  {
    i.(perUnitAdjustMinor := i.perUnitAdjustMinor + x)
  }

  lemma RaisedCost(i: Item, x: int)
    requires i.ProductItem?
    ensures Cost()(Raised(i, x)) == Cost()(i) + i.quantity * x
  {
    assert i.quantity * (i.priceMinor + (i.perUnitAdjustMinor + x)) == i.quantity * (i.priceMinor + i.perUnitAdjustMinor) + i.quantity * x;
  }

  lemma OtherLinesStay(items: seq<Item>, k: nat, i: Item)
    requires k < |items|
    ensures forall j | 0 <= j < |items| && j != k :: LinesOf(items[k := i])[j] == LinesOf(items)[j]
  {
  }

  /** Raising one product's modifiers by x a unit raises the subtotal by quantity * x and leaves every other line alone. */
  lemma ModifiersArePaidFor(items: seq<Item>, k: nat, x: int)
    requires k < |items| && items[k].ProductItem?
    ensures Subtotal(items[k := Raised(items[k], x)]) == Subtotal(items) + items[k].quantity * x
    ensures forall j | 0 <= j < |items| && j != k :: LinesOf(items[k := Raised(items[k], x)])[j] == LinesOf(items)[j]
  {
    var raised := items[k := Raised(items[k], x)];
    assert Subtotal(items) == Sum(items, Cost()) by { SumsByItem(items); }
    assert Subtotal(raised) == Sum(raised, Cost()) by { SumsByItem(raised); }
    SumUpdate(items, k, Raised(items[k], x), Cost());
    RaisedCost(items[k], x);
    OtherLinesStay(items, k, Raised(items[k], x));
  }

  lemma SumUpdate(s: seq<Item>, k: nat, x: Item, w: Item -> int)
    requires k < |s|
    ensures Sum(s[k := x], w) == Sum(s, w) - w(s[k]) + w(x)
  {
    assert s == s[..k] + ([s[k]] + s[k + 1..]) && s[k := x] == s[..k] + ([x] + s[k + 1..]);
    SumAppend(s[..k], [s[k]] + s[k + 1..], w);
    SumAppend(s[..k], [x] + s[k + 1..], w);
    SumAppend([s[k]], s[k + 1..], w);
    SumAppend([x], s[k + 1..], w);
    SumOne(s[k], w);
    SumOne(x, w);
  }

  // ----------------------------------------------------------------- coupons

  datatype CouponType = PERCENT | FIXED

  datatype Coupon = Coupon(
    isActive: bool,
    validFrom: Option<int>,
    validUntil: Option<int>,
    minSubtotalMinor: int,
    maxRedemptions: Option<int>,
    kind: CouponType,
    percentBp: Option<int>,
    amountMinor: Option<int>,
    maxDiscountMinor: Option<int>)

  datatype Refusal =
    | HoldTakesNoPayment | OneDiscountOnly | MissingDiscountPermission
    | PointsNeedCustomer | HoldTakesNoPoints | MissingRedeemPermission
    | CouponNotValid | CouponNotYetActive | CouponExpired | BelowCouponMinimum | CouponUsedUp | CouponGivesNothing
    | DiscountAboveSubtotal
    | RedemptionRefused(why: LoyaltyRules.Refusal)

  /** The coupon may be used on this subtotal, now, after `used` redemptions. */
  predicate CouponApplies(c: Coupon, used: int, now: int, subtotal: int) {
    && c.isActive
    && (c.validFrom.Some? ==> c.validFrom.value <= now)
    && (c.validUntil.Some? ==> now <= c.validUntil.value)
    && c.minSubtotalMinor <= subtotal
    && (c.maxRedemptions.Some? ==> used < c.maxRedemptions.value)
  }

  function ValueOr(o: Option<int>, d: int): int { if o.Some? then o.value else d }

  /** What the coupon is worth before its cap and the subtotal limit it. */
  function FaceValue(c: Coupon, subtotal: int): int {
    if c.kind == PERCENT then subtotal * ValueOr(c.percentBp, 0) / 10_000 else ValueOr(c.amountMinor, 0)
  }

  /** The largest amount that neither the face value, the cap nor the subtotal forbids. */
  ghost predicate IsCouponDiscount(d: int, c: Coupon, subtotal: int) {
    && d <= FaceValue(c, subtotal) && d <= subtotal && (c.maxDiscountMinor.Some? ==> d <= c.maxDiscountMinor.value)
    && (d == FaceValue(c, subtotal) || d == subtotal || c.maxDiscountMinor == Some(d))
  }

  /** d is no more than the coupon's rate or amount gives, its cap allows and the subtotal holds. */
  predicate Affords(c: Coupon, subtotal: int, d: int) {
    && (c.kind == PERCENT ==> 10_000 * d <= subtotal * ValueOr(c.percentBp, 0))
    && (c.kind == FIXED ==> d <= ValueOr(c.amountMinor, 0))
    && (c.maxDiscountMinor.Some? ==> d <= c.maxDiscountMinor.value)
    && d <= subtotal
  }

  /** A coupon's discount is the most it affords: a share of the subtotal if PERCENT, an amount if FIXED. */
  lemma CouponDiscountIff(d: int, c: Coupon, subtotal: int)
    ensures IsCouponDiscount(d, c, subtotal) <==> Affords(c, subtotal, d) && !Affords(c, subtotal, d + 1)
  {
    var x := subtotal * ValueOr(c.percentBp, 0);
    assert x == 10_000 * (x / 10_000) + x % 10_000;
  }

  /** The first reason a coupon may not be used now, if any. */
  function WhyNot(c: Coupon, used: int, now: int, subtotal: int): Option<Refusal> {
    if !c.isActive then Some(CouponNotValid)
    else if c.validFrom.Some? && now < c.validFrom.value then Some(CouponNotYetActive)
    else if c.validUntil.Some? && c.validUntil.value < now then Some(CouponExpired)
    else if subtotal < c.minSubtotalMinor then Some(BelowCouponMinimum)
    else if c.maxRedemptions.Some? && c.maxRedemptions.value <= used then Some(CouponUsedUp)
    else None
  }

  /**
   * A coupon applies from its first instant through its last, on its minimum
   * subtotal and above, for as many redemptions as it allows, while it is active.
   */
  lemma CouponAppliesIff(c: Coupon, used: int, now: int, subtotal: int)
    ensures CouponApplies(c, used, now, subtotal) <==> WhyNot(c, used, now, subtotal).None?
    ensures CouponApplies(c, used, now, subtotal) <==>
              !(!c.isActive || (c.validFrom.Some? && now < c.validFrom.value) || (c.validUntil.Some? && now > c.validUntil.value)
                || subtotal < c.minSubtotalMinor || (c.maxRedemptions.Some? && used >= c.maxRedemptions.value))
    ensures WhyNot(c, used, now, subtotal) == Some(CouponNotValid) <==> !c.isActive
    ensures WhyNot(c, used, now, subtotal) == Some(CouponNotYetActive) ==> c.validFrom.Some? && now < c.validFrom.value
    ensures WhyNot(c, used, now, subtotal) == Some(CouponExpired) ==> c.validUntil.Some? && now > c.validUntil.value
    ensures WhyNot(c, used, now, subtotal) == Some(BelowCouponMinimum) ==> subtotal < c.minSubtotalMinor
    ensures WhyNot(c, used, now, subtotal) == Some(CouponUsedUp) ==> c.maxRedemptions.Some? && used >= c.maxRedemptions.value
  {
  }

  /** validateAndComputeDiscount */
  method ValidateAndComputeDiscount(coupon: Option<Coupon>, used: int, now: int, subtotalMinor: int)
    returns (res: Result<int, Refusal>)
    ensures res.Ok? <==> coupon.Some? && CouponApplies(coupon.value, used, now, subtotalMinor)
                         && exists d :: d > 0 && IsCouponDiscount(d, coupon.value, subtotalMinor)
    ensures res.Ok? ==> 0 < res.value <= subtotalMinor && IsCouponDiscount(res.value, coupon.value, subtotalMinor)
    ensures res.Ok? ==> Affords(coupon.value, subtotalMinor, res.value) && !Affords(coupon.value, subtotalMinor, res.value + 1)
    ensures res == Err(CouponNotValid) <==> coupon.None? || !coupon.value.isActive
    ensures res.Ok? <==> coupon.Some? && WhyNot(coupon.value, used, now, subtotalMinor).None? && Affords(coupon.value, subtotalMinor, 1)
    ensures coupon.Some? && WhyNot(coupon.value, used, now, subtotalMinor).Some? ==>
              res == Err(WhyNot(coupon.value, used, now, subtotalMinor).value)
    ensures res == Err(CouponGivesNothing) <==>
              coupon.Some? && WhyNot(coupon.value, used, now, subtotalMinor).None? && !Affords(coupon.value, subtotalMinor, 1)
  {
    if coupon.None? || !coupon.value.isActive { return Err(CouponNotValid); }
    var c := coupon.value;
    if c.validFrom.Some? && c.validFrom.value > now { return Err(CouponNotYetActive); }
    if c.validUntil.Some? && c.validUntil.value < now { return Err(CouponExpired); }
    if subtotalMinor < c.minSubtotalMinor { return Err(BelowCouponMinimum); }
    if c.maxRedemptions.Some? {
      if used >= c.maxRedemptions.value { return Err(CouponUsedUp); }
    }

    var discount := if c.kind == PERCENT then subtotalMinor * ValueOr(c.percentBp, 0) / 10_000 else ValueOr(c.amountMinor, 0);
    if c.maxDiscountMinor.Some? { discount := Min(discount, c.maxDiscountMinor.value); }
    discount := Min(discount, subtotalMinor);
    assert IsCouponDiscount(discount, c, subtotalMinor);
    CouponDiscountIff(discount, c, subtotalMinor);
    if discount <= 0 { return Err(CouponGivesNothing); }
    res := Ok(discount);
  }

  // -------------------------------------------------------------- the request

  datatype Request = Request(
    items: seq<Item>,
    couponCode: Option<string>,
    manualDiscountMinor: Option<int>,
    redeemPoints: Option<int>,
    hold: bool,
    paid: bool, // a payment method was given
    hasCustomer: bool,
    mayDiscount: bool,
    mayRedeem: bool,
    key: Option<string>)

  /** What the transaction reads about the discount. */
  datatype Context = Context(coupon: Option<Coupon>, used: nat, now: int, config: Config)

  /** What request validation guarantees before the service is called. */
  ghost predicate WellFormed(req: Request, ctx: Context) {
    && req.items != [] && (forall i | i in req.items :: 1 <= i.quantity <= 999)
    && (req.manualDiscountMinor.Some? ==> 1 <= req.manualDiscountMinor.value <= 10_000_000)
    && (req.redeemPoints.Some? ==> 1 <= req.redeemPoints.value <= 10_000_000)
    && ValidateConfig(ctx.config).None?
  }

  function Sources(req: Request): nat {
    (if req.couponCode.Some? then 1 else 0) + (if req.manualDiscountMinor.Some? then 1 else 0)
    + (if req.redeemPoints.Some? then 1 else 0)
  }

  /** The guards of create, before any transaction. */
  function Guard(req: Request): Option<Refusal> {
    if req.hold && req.paid then Some(HoldTakesNoPayment)
    else if Sources(req) > 1 then Some(OneDiscountOnly)
    else if ValueOr(req.manualDiscountMinor, 0) != 0 && !req.mayDiscount then Some(MissingDiscountPermission)
    else if ValueOr(req.redeemPoints, 0) != 0 then
      if !req.hasCustomer then Some(PointsNeedCustomer)
      else if req.hold then Some(HoldTakesNoPoints)
      else if !req.mayRedeem then Some(MissingRedeemPermission)
      else None
    else None
  }

  datatype Priced = Priced(subtotalMinor: int, discountMinor: int, taxMinor: int, totalMinor: int, redeemPoints: int)

  /** The discount a request asks for can be given on what its items cost. */
  ghost predicate DiscountAvailable(req: Request, ctx: Context)
    requires ValidateConfig(ctx.config).None?
  {
    var subtotal := Sum(req.items, Cost());
    && (req.couponCode.Some? && req.couponCode.value != "" ==>
          && ctx.coupon.Some? && ctx.coupon.value.isActive
          && (ctx.coupon.value.validFrom.Some? ==> ctx.coupon.value.validFrom.value <= ctx.now)
          && (ctx.coupon.value.validUntil.Some? ==> ctx.now <= ctx.coupon.value.validUntil.value)
          && ctx.coupon.value.minSubtotalMinor <= subtotal
          && (ctx.coupon.value.maxRedemptions.Some? ==> ctx.used < ctx.coupon.value.maxRedemptions.value)
          && Affords(ctx.coupon.value, subtotal, 1))
    && (req.manualDiscountMinor.Some? ==> req.manualDiscountMinor.value <= subtotal)
    && (req.redeemPoints.Some? ==> exists d :: RedeemsFor(req.redeemPoints.value, subtotal, ctx.config, d))
  }

  /** What each guard of create turns away. */
  lemma GuardIff(req: Request)
    ensures Guard(req) == Some(HoldTakesNoPayment) <==> req.hold && req.paid
    ensures Guard(req) == Some(OneDiscountOnly) <==>
              !(req.hold && req.paid)
              && ((req.couponCode.Some? && req.manualDiscountMinor.Some?) || (req.couponCode.Some? && req.redeemPoints.Some?)
                  || (req.manualDiscountMinor.Some? && req.redeemPoints.Some?))
    ensures Guard(req).None? <==>
              && !(req.hold && req.paid)
              && !(req.couponCode.Some? && req.manualDiscountMinor.Some?) && !(req.couponCode.Some? && req.redeemPoints.Some?)
              && !(req.manualDiscountMinor.Some? && req.redeemPoints.Some?)
              && (req.manualDiscountMinor.Some? && req.manualDiscountMinor.value != 0 ==> req.mayDiscount)
              && (req.redeemPoints.Some? && req.redeemPoints.value != 0 ==> req.hasCustomer && !req.hold && req.mayRedeem)
    ensures Guard(req) == Some(MissingDiscountPermission) ==> req.manualDiscountMinor.Some? && !req.mayDiscount
    ensures Guard(req) == Some(PointsNeedCustomer) ==> req.redeemPoints.Some? && !req.hasCustomer
    ensures Guard(req) == Some(HoldTakesNoPoints) ==> req.redeemPoints.Some? && req.hold && req.hasCustomer
    ensures Guard(req) == Some(MissingRedeemPermission) ==> req.redeemPoints.Some? && !req.mayRedeem
  {
  }

  /** The money part of insert. */
  method Price(req: Request, ctx: Context) returns (res: Result<Priced, Refusal>)
    requires WellFormed(req, ctx) && Guard(req).None?
    ensures res.Ok? ==> AddsUp(req, res.value) && DiscountComesFrom(req, ctx, res.value)
    ensures res.Ok? ==> CostsItsItems(req.items, res.value.subtotalMinor, res.value.taxMinor)
    ensures Sources(req) == 0 ==> res.Ok?
    ensures res.Ok? <==> DiscountAvailable(req, ctx)
    ensures req.manualDiscountMinor.Some? ==> (res.Ok? <==> req.manualDiscountMinor.value <= Subtotal(req.items))
    ensures req.redeemPoints.Some? ==> (res.Ok? <==> RedemptionFor(req.redeemPoints.value, Subtotal(req.items), ctx.config).Ok?)
  {
    PricedByItem(req.items);
    ghost var cost := Subtotal(req.items);
    if ctx.coupon.Some? { CouponAppliesIff(ctx.coupon.value, ctx.used, ctx.now, cost); }
    if req.redeemPoints.Some? { RedeemsIff(req.redeemPoints.value, cost, ctx.config); }
    var lines := LinesOf(req.items);
    var subtotal := Sum(lines, LineTotal());
    var tax := Sum(lines, LineTax());
    var discount, redeemPoints := 0, 0;
    if req.couponCode.Some? && req.couponCode.value != "" {
      var r := ValidateAndComputeDiscount(ctx.coupon, ctx.used, ctx.now, subtotal);
      if r.Err? { return Err(r.error); }
      discount := r.value;
    } else if req.manualDiscountMinor.Some? && req.manualDiscountMinor.value != 0 {
      if req.manualDiscountMinor.value > subtotal { return Err(DiscountAboveSubtotal); }
      discount := req.manualDiscountMinor.value;
    } else if req.redeemPoints.Some? && req.redeemPoints.value != 0 {
      var r := RedemptionFor(req.redeemPoints.value, subtotal, ctx.config);
      if r.Err? { return Err(RedemptionRefused(r.error)); }
      discount, redeemPoints := r.value.discountMinor, r.value.points;
    }
    var total := subtotal - discount + tax;
    res := Ok(Priced(subtotal, discount, tax, total, redeemPoints));
  }

  ghost predicate AddsUp(req: Request, p: Priced) {
    && p.subtotalMinor == Subtotal(req.items) && p.taxMinor == Tax(req.items)
    && p.totalMinor == p.subtotalMinor - p.discountMinor + p.taxMinor
    && (p.discountMinor == 0 || 0 < p.discountMinor <= p.subtotalMinor)
  }

  /** A discount has exactly one source, and is what that source allows. */
  ghost predicate DiscountComesFrom(req: Request, ctx: Context, p: Priced) {
    && (p.discountMinor != 0 ==> Sources(req) == 1)
    && (req.couponCode.Some? && p.discountMinor != 0 ==>
          ctx.coupon.Some? && CouponApplies(ctx.coupon.value, ctx.used, ctx.now, p.subtotalMinor)
          && IsCouponDiscount(p.discountMinor, ctx.coupon.value, p.subtotalMinor))
    && (req.couponCode.Some? && req.couponCode.value != "" ==> p.discountMinor > 0)
    && (req.manualDiscountMinor.Some? ==> p.discountMinor == req.manualDiscountMinor.value && req.mayDiscount)
    && (req.redeemPoints.Some? ==>
          req.mayRedeem && req.hasCustomer && p.redeemPoints == req.redeemPoints.value
          && p.discountMinor * ctx.config.redeemPoints == p.redeemPoints * ctx.config.redeemAmountMinor)
    && (req.redeemPoints.None? ==> p.redeemPoints == 0)
  }

  // -------------------------------------------------- the database's own checks

  predicate LineChecks(l: Line) {
    l.quantity > 0 && l.unitPriceMinor >= 0 && l.taxMinor >= 0 && 0 <= l.taxRateBp <= 10_000
    && l.lineTotalMinor == l.unitPriceMinor * l.quantity
  }

  predicate OrderChecks(p: Priced) {
    && p.subtotalMinor >= 0 && p.discountMinor >= 0 && p.taxMinor >= 0 && p.totalMinor >= 0
    && p.totalMinor == p.subtotalMinor - p.discountMinor + p.taxMinor
    && p.discountMinor <= p.subtotalMinor
  }

  /** Every CHECK the insert meets: the lines', the order's, and the payment's when there is one. */
  predicate InsertChecks(req: Request, p: Priced) {
    && (forall i | 0 <= i < |req.items| :: LineChecks(LineOf(req.items[i])))
    && OrderChecks(p)
    && (req.paid ==> p.totalMinor > 0)
  }

  /** The catalogue row behind a line is one the schema allows on an order. */
  predicate Sellable(i: Item) {
    && (match i case ProductItem(price, adjust, _, _) => price + adjust >= 0 case ComboItem(price, _, _) => price >= 0)
    && 0 <= i.taxRateBp <= 10_000
  }

  lemma LineChecksIff(i: Item)
    requires i.quantity >= 1
    ensures LineChecks(LineOf(i)) <==> Sellable(i)
    ensures Sellable(i) ==> LineOf(i).lineTotalMinor >= 0
  {
    if Sellable(i) {
      ProductNonNegative(UnitPrice(i), i.quantity);
      ProductNonNegative(LineOf(i).lineTotalMinor, i.taxRateBp);
      RoundDivBounds(LineOf(i).lineTotalMinor * i.taxRateBp, 10_000);
    }
  }

  lemma ProductNonNegative(a: int, b: int)
    requires a >= 0 && b >= 0
    ensures a * b >= 0
  {
  }

  lemma SumsNonNegative(items: seq<Item>)
    requires forall i | i in items :: i.quantity >= 1 && Sellable(i)
    ensures Subtotal(items) >= 0 && Tax(items) >= 0
  {
    var lines := LinesOf(items);
    forall l | l in lines ensures l.lineTotalMinor >= 0 && l.taxMinor >= 0 {
      var k :| 0 <= k < |lines| && lines[k] == l;
      assert items[k] in items;
      LineChecksIff(items[k]);
    }
    SumNonNegative(lines, LineTotal());
    SumNonNegative(lines, LineTax());
  }

  /**
   * The CHECK constraints reject a priced order exactly when some line has a
   * negative unit price or a rate outside 0..10000, or a payment would be for
   * nothing: they never catch the pricing itself in an error.
   */
  lemma ChecksRejectIff(req: Request, ctx: Context, p: Priced)
    requires WellFormed(req, ctx) && AddsUp(req, p)
    ensures InsertChecks(req, p) <==> (forall i | i in req.items :: Sellable(i)) && (req.paid ==> p.totalMinor > 0)
  {
    forall k | 0 <= k < |req.items|
      ensures LineChecks(LineOf(req.items[k])) <==> Sellable(req.items[k])
    {
      assert req.items[k] in req.items;
      LineChecksIff(req.items[k]);
    }
    if forall i | i in req.items :: Sellable(i) { SumsNonNegative(req.items); }
  }

  /**
   * Of the orders whose lines are sellable, the constraints refuse exactly the
   * paid ones that are fully discounted and untaxed; no total is ever negative.
   */
  lemma NothingToPayIff(req: Request, ctx: Context, p: Priced)
    requires WellFormed(req, ctx) && AddsUp(req, p) && forall i | i in req.items :: Sellable(i)
    ensures !InsertChecks(req, p) <==> req.paid && p.discountMinor == p.subtotalMinor && p.taxMinor == 0
    ensures 0 <= p.discountMinor <= p.subtotalMinor && 0 <= p.totalMinor
  {
    SumsNonNegative(req.items);
    ChecksRejectIff(req, ctx, p);
  }

  /** One untaxed item at a rupee, a rupee off, and a payment method. */
  function FreeOrder(): Request {
    Request([ProductItem(100, 0, 0, 1)], None, Some(100), None, false, true, false, true, false, None)
  }

  /** Such an order passes every guard and is priced, and whatever pricing returns for it is refused. */
  lemma FreeOrderIsRefused(ctx: Context, p: Priced)
    requires ValidateConfig(ctx.config).None?
    ensures WellFormed(FreeOrder(), ctx) && Guard(FreeOrder()).None? && FreeOrder().manualDiscountMinor.value <= Subtotal(FreeOrder().items)
    ensures AddsUp(FreeOrder(), p) && DiscountComesFrom(FreeOrder(), ctx, p) ==> p.totalMinor == 0 && !InsertChecks(FreeOrder(), p)
  {
    var item := ProductItem(100, 0, 0, 1);
    assert LinesOf([item]) == [LineOf(item)] && LineOf(item) == Line(100, 1, 100, 0, 0);
    SumOne(LineOf(item), LineTotal());
    SumOne(LineOf(item), LineTax());
  }

  // ----------------------------------------------------------------- rounding

  function ExactTax(): Item -> int { (i: Item) => Cost()(i) * i.taxRateBp }

  /** Rounding each line moves the order's tax by at most half a paisa per line. */
  lemma {:induction false} TaxIsWithinHalfAPaisaPerLine(items: seq<Item>)
    ensures -5_000 * |items| <= 10_000 * Tax(items) - Sum(items, ExactTax()) <= 5_000 * |items|
  {
    if items != [] {
      var n := |items| - 1;
      TaxIsWithinHalfAPaisaPerLine(items[..n]);
      assert LinesOf(items)[..n] == LinesOf(items[..n]);
      LineCosts(items[n]);
    }
  }
}
