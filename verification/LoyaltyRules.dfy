/** The loyalty policy: pure functions of a tenant's configuration. */
module LoyaltyRules {
  import opened Options
  import opened Sums

  datatype Config = Config(
    isEnabled: bool,
    earnAmountMinor: int,
    earnPoints: int,
    redeemPoints: int,
    redeemAmountMinor: int,
    minimumRedeemPoints: int,
    maximumRedeemPointsPerOrder: Option<int>)

  datatype Problem =
    | EarnAmountNotPositive | EarnPointsNotPositive | RedeemPointsNotPositive | RedeemValueNegative
    | MinimumNegative | MaximumNegative | EarnRateTooHigh | RedeemValueTooHigh
    | MinimumNotMultiple | MaximumNotMultiple | MaximumBelowMinimum

  /** The first problem with a configuration, if any. */
  function ValidateConfig(c: Config): Option<Problem> {
    if c.earnAmountMinor <= 0 then Some(EarnAmountNotPositive)
    else if c.earnPoints <= 0 then Some(EarnPointsNotPositive)
    else if c.redeemPoints <= 0 then Some(RedeemPointsNotPositive)
    else if c.redeemAmountMinor < 0 then Some(RedeemValueNegative)
    else if c.minimumRedeemPoints < 0 then Some(MinimumNegative)
    else if c.maximumRedeemPointsPerOrder.Some? && c.maximumRedeemPointsPerOrder.value < 0 then Some(MaximumNegative)
    else if c.earnPoints > c.earnAmountMinor then Some(EarnRateTooHigh)
    else if c.redeemAmountMinor > c.redeemPoints * 10000 then Some(RedeemValueTooHigh)
    else if c.minimumRedeemPoints % c.redeemPoints != 0 then Some(MinimumNotMultiple)
    else if c.maximumRedeemPointsPerOrder.Some? && c.maximumRedeemPointsPerOrder.value % c.redeemPoints != 0 then Some(MaximumNotMultiple)
    else if c.maximumRedeemPointsPerOrder.Some? && c.maximumRedeemPointsPerOrder.value < c.minimumRedeemPoints then Some(MaximumBelowMinimum)
    else None
  }

  function PointsForOrder(subtotalMinor: int, discountMinor: int, c: Config): int
    requires c.earnAmountMinor > 0
  {
    var net := subtotalMinor - discountMinor;
    if !c.isEnabled || net <= 0 then 0 else net * c.earnPoints / c.earnAmountMinor
  }

  datatype Refusal = LoyaltyOff | NotWholePoints | NotMultiple | BelowMinimum | AboveMaximum | WorthNothing | OrderTooSmall

  datatype Redemption = Redemption(points: int, discountMinor: int)

  function RedemptionFor(points: int, subtotalMinor: int, c: Config): Result<Redemption, Refusal>
    requires c.redeemPoints > 0
  {
    if !c.isEnabled then Err(LoyaltyOff)
    else if points <= 0 then Err(NotWholePoints)
    else if points % c.redeemPoints != 0 then Err(NotMultiple)
    else if points < c.minimumRedeemPoints then Err(BelowMinimum)
    else if c.maximumRedeemPointsPerOrder.Some? && points > c.maximumRedeemPointsPerOrder.value then Err(AboveMaximum)
    else
      var discountMinor := points / c.redeemPoints * c.redeemAmountMinor;
      if discountMinor <= 0 then Err(WorthNothing)
      else if discountMinor > subtotalMinor then Err(OrderTooSmall)
      else Ok(Redemption(points, discountMinor))
  }

  /** The rules redeem applies to points spent outside a sale, in its order. */
  function RedeemRefusal(points: int, c: Config): Option<Refusal>
    requires c.redeemPoints > 0
  {
    if !c.isEnabled then Some(LoyaltyOff)
    else if points % c.redeemPoints != 0 then Some(NotMultiple)
    else if points < c.minimumRedeemPoints then Some(BelowMinimum)
    else if c.maximumRedeemPointsPerOrder.Some? && points > c.maximumRedeemPointsPerOrder.value then Some(AboveMaximum)
    else None
  }

  /** The smallest integer not below a / b. */
  function CeilDiv(a: int, b: int): int
    requires b > 0
  {
    -(-a / b)
  }

  function AvailableReward(balancePoints: int, c: Config): Option<Redemption> {
    if !c.isEnabled || c.redeemPoints <= 0 then None
    else
      var floor := Max(c.redeemPoints, c.minimumRedeemPoints);
      var points := CeilDiv(floor, c.redeemPoints) * c.redeemPoints;
      if points <= 0 || balancePoints < points then None
      else if c.maximumRedeemPointsPerOrder.Some? && points > c.maximumRedeemPointsPerOrder.value then None
      else
        var discountMinor := points / c.redeemPoints * c.redeemAmountMinor;
        if discountMinor <= 0 then None else Some(Redemption(points, discountMinor))
  }

  // ------------------------------------------------------- available reward

  /** redemptionFor accepts these points on some order. */
  ghost predicate Redeemable(points: int, c: Config)
    requires c.redeemPoints > 0
  {
    exists subtotal :: RedemptionFor(points, subtotal, c).Ok?
  }

  lemma MulMonotone(x: int, y: int, b: int)
    requires x <= y && b >= 0
    ensures x * b <= y * b
  {
    assert (y - x) * b >= 0;
    assert (y - x) * b == y * b - x * b;
  }

  lemma DivMod(a: int, b: int)
    requires b > 0
    ensures a == a / b * b + a % b
  {
  }

  lemma FloorIsGreatest(a: int, b: int, p: int)
    requires b > 0
    ensures p <= a / b <==> p * b <= a
  {
    var q := a / b;
    DivMod(a, b);
    if p <= q {
      MulMonotone(p, q, b);
    } else {
      MulMonotone(q + 1, p, b);
      assert (q + 1) * b == q * b + b;
    }
  }

  lemma CeilDivLeast(a: int, b: int, k: int)
    requires b > 0
    ensures k >= CeilDiv(a, b) <==> k * b >= a
  {
    FloorIsGreatest(-a, b, -k);
    assert -k * b == -(k * b);
  }

  lemma DiscountGrows(p: int, q: int, c: Config)
    requires c.redeemPoints > 0 && c.redeemAmountMinor >= 0 && 0 <= p <= q
    ensures p / c.redeemPoints * c.redeemAmountMinor <= q / c.redeemPoints * c.redeemAmountMinor
  {
    var b := c.redeemPoints;
    DivMod(p, b);
    FloorIsGreatest(q, b, p / b);
    MulMonotone(p / b, q / b, c.redeemAmountMinor);
  }

  lemma RedeemableIs(p: int, c: Config)
    requires c.redeemPoints > 0
    ensures Redeemable(p, c) <==>
            c.isEnabled && p > 0 && p % c.redeemPoints == 0 && p >= c.minimumRedeemPoints
            && (c.maximumRedeemPointsPerOrder.Some? ==> p <= c.maximumRedeemPointsPerOrder.value)
            && p / c.redeemPoints * c.redeemAmountMinor > 0
  {
    var d := p / c.redeemPoints * c.redeemAmountMinor;
    assert RedemptionFor(p, d, c).Ok? ==> Redeemable(p, c);
  }

  /** Points make a discount of d: whole blocks within the limits, each worth its amount, on an order that covers it. */
  predicate RedeemsFor(points: int, subtotal: int, c: Config, d: int) {
    && c.isEnabled && 0 < points && c.minimumRedeemPoints <= points
    && (c.maximumRedeemPointsPerOrder.Some? ==> points <= c.maximumRedeemPointsPerOrder.value)
    && c.redeemPoints > 0 && points % c.redeemPoints == 0
    && d * c.redeemPoints == points * c.redeemAmountMinor && 0 < d <= subtotal
  }

  lemma BlockValue(points: int, b: int, v: int, d: int)
    requires b > 0 && points % b == 0
    ensures d * b == points * v <==> d == points / b * v
  {
    DivMod(points, b);
    var k := points / b;
    assert points * v == k * v * b by { assert points == k * b; }
    if d * b == k * v * b { SameFactor(d, k * v, b); }
  }

  lemma SameFactor(x: int, y: int, b: int)
    requires b > 0 && x * b == y * b
    ensures x == y
  {
    FloorIsGreatest(x * b, b, y);
    FloorIsGreatest(y * b, b, x);
    FloorIsGreatest(x * b, b, x + 1);
    FloorIsGreatest(y * b, b, y + 1);
  }

  /** redemptionFor accepts exactly the counts that make a discount, and returns it. */
  lemma RedeemsIff(points: int, subtotal: int, c: Config)
    requires c.redeemPoints > 0
    ensures forall d :: RedemptionFor(points, subtotal, c) == Ok(Redemption(points, d)) <==> RedeemsFor(points, subtotal, c, d)
    ensures RedemptionFor(points, subtotal, c).Ok? <==> exists d :: RedeemsFor(points, subtotal, c, d)
  {
    var v := points / c.redeemPoints * c.redeemAmountMinor;
    forall d ensures RedemptionFor(points, subtotal, c) == Ok(Redemption(points, d)) <==> RedeemsFor(points, subtotal, c, d) {
      if points % c.redeemPoints == 0 { BlockValue(points, c.redeemPoints, c.redeemAmountMinor, d); }
    }
    if RedemptionFor(points, subtotal, c).Ok? { assert RedeemsFor(points, subtotal, c, v); }
  }

  /** What redeem turns away outside a sale, first reason first. */
  lemma RedeemRefusalIff(points: int, c: Config)
    requires c.redeemPoints > 0
    ensures var top := c.maximumRedeemPointsPerOrder;
            && (RedeemRefusal(points, c) == Some(LoyaltyOff) <==> !c.isEnabled)
            && (RedeemRefusal(points, c) == Some(NotMultiple) <==> c.isEnabled && points % c.redeemPoints != 0)
            && (RedeemRefusal(points, c) == Some(BelowMinimum) <==>
                c.isEnabled && points % c.redeemPoints == 0 && points < c.minimumRedeemPoints)
            && (RedeemRefusal(points, c) == Some(AboveMaximum) <==>
                c.isEnabled && points % c.redeemPoints == 0 && points >= c.minimumRedeemPoints && top.Some? && top.value < points)
            && (RedeemRefusal(points, c).None? <==>
                c.isEnabled && points % c.redeemPoints == 0 && points >= c.minimumRedeemPoints && (top.None? || points <= top.value))
  {
  }

  /** A configuration is accepted exactly when its rates are positive and sane and its limits are whole blocks in order. */
  lemma ConfigAcceptedIff(c: Config)
    ensures ValidateConfig(c).None? <==>
            && 0 < c.earnPoints <= c.earnAmountMinor
            && 0 < c.redeemPoints && 0 <= c.redeemAmountMinor <= 10000 * c.redeemPoints
            && 0 <= c.minimumRedeemPoints && c.minimumRedeemPoints % c.redeemPoints == 0
            && (c.maximumRedeemPointsPerOrder.Some? ==>
                  c.minimumRedeemPoints <= c.maximumRedeemPointsPerOrder.value
                  && c.maximumRedeemPointsPerOrder.value % c.redeemPoints == 0)
  {
  }

  /**
   * The two ways to spend points agree: what redeem refuses, no sale accepts, for
   * the same reason; what it lets through, some sale accepts if it is worth anything.
   */
  lemma RedeemingAgreesWithSales(points: int, c: Config)
    requires c.redeemPoints > 0 && points >= 1
    ensures RedeemRefusal(points, c).Some? ==>
              forall subtotal :: RedemptionFor(points, subtotal, c) == Err(RedeemRefusal(points, c).value)
    ensures Redeemable(points, c) <==> RedeemRefusal(points, c).None? && points / c.redeemPoints * c.redeemAmountMinor > 0
  {
    RedeemableIs(points, c);
  }

  /** The candidate is a redeemable count's lower bound. */
  lemma CandidateIsLeast(p: int, c: Config)
    requires c.redeemPoints > 0
    ensures var least := CeilDiv(Max(c.redeemPoints, c.minimumRedeemPoints), c.redeemPoints) * c.redeemPoints;
            least >= c.redeemPoints && least >= c.minimumRedeemPoints && least % c.redeemPoints == 0
            && (p > 0 && p % c.redeemPoints == 0 && p >= c.minimumRedeemPoints ==> p >= least)
  {
    var b := c.redeemPoints;
    var floor := Max(b, c.minimumRedeemPoints);
    var n := CeilDiv(floor, b);
    CeilDivLeast(floor, b, n);
    MultipleHasNoRemainder(n, b);
    if p > 0 && p % b == 0 && p >= c.minimumRedeemPoints {
      DivMod(p, b);
      PositiveMultiple(p / b, b);
      CeilDivLeast(floor, b, p / b);
      MulMonotone(n, p / b, b);
    }
  }

  lemma PositiveMultiple(k: int, b: int)
    requires b > 0 && k * b > 0
    ensures k * b >= b
  {
    if k <= 0 {
      MulMonotone(k, 0, b);
      assert false;
    }
    MulMonotone(1, k, b);
  }

  lemma MultipleHasNoRemainder(n: int, b: int)
    requires b > 0
    ensures (n * b) % b == 0
  {
    DivMod(n * b, b);
    FloorIsGreatest(n * b, b, n);
    MulMonotone(n, n * b / b, b);
  }

  /**
   * The advertised reward is the least redeemable count within the balance, at
   * the price redemption charges; none is advertised exactly when there is none.
   */
  lemma RewardIsLeastRedeemable(balance: int, c: Config)
    requires ValidateConfig(c).None?
    ensures AvailableReward(balance, c).None? <==> forall p :: p <= balance ==> !Redeemable(p, c)
    ensures AvailableReward(balance, c).Some? ==>
              var r := AvailableReward(balance, c).value;
              && r.points <= balance
              && (forall p :: p <= balance && Redeemable(p, c) ==> r.points <= p)
              && forall subtotal :: RedemptionFor(r.points, subtotal, c)
                                    == if subtotal >= r.discountMinor then Ok(r) else Err(OrderTooSmall)
  {
    var reward := AvailableReward(balance, c);
    var least := CeilDiv(Max(c.redeemPoints, c.minimumRedeemPoints), c.redeemPoints) * c.redeemPoints;
    CandidateIsLeast(0, c);
    RedeemableIs(least, c);
    if reward.Some? { assert Redeemable(reward.value.points, c); }
    forall p | p <= balance && Redeemable(p, c) ensures least <= p && reward.Some? {
      RedeemableIs(p, c);
      CandidateIsLeast(p, c);
      WorthAtLeast(least, p, c);
    }
  }

  /** If any block is worth something, so is the least one. */
  lemma WorthAtLeast(least: int, p: int, c: Config)
    requires c.redeemPoints > 0 && c.redeemAmountMinor >= 0 && c.redeemPoints <= least && 0 < p
    requires p / c.redeemPoints * c.redeemAmountMinor > 0
    ensures least / c.redeemPoints * c.redeemAmountMinor > 0
  {
    DiscountGrows(c.redeemPoints, least, c);
    assert c.redeemPoints / c.redeemPoints == 1;
  }

  // ----------------------------------------------------------------- earning

  /** Net sale value: what is left of the subtotal after the discount. */
  function Net(subtotal: int, discount: int): nat { if discount < subtotal then subtotal - discount else 0 }

  /** p is the most points that a net value pays for at c's rate. */
  ghost predicate MostPoints(p: int, net: int, c: Config) {
    p * c.earnAmountMinor <= net * c.earnPoints < (p + 1) * c.earnAmountMinor
  }

  /**
   * An enabled programme awards the most points the net value pays for, never
   * more than one per paisa of it; a disabled one awards none.
   */
  lemma EarnsMostTheNetPaysFor(subtotal: int, discount: int, c: Config)
    requires ValidateConfig(c).None?
    ensures var p := PointsForOrder(subtotal, discount, c);
            && 0 <= p <= Net(subtotal, discount)
            && (if c.isEnabled then MostPoints(p, Net(subtotal, discount), c) else p == 0)
    ensures forall p, q :: MostPoints(p, Net(subtotal, discount), c) && MostPoints(q, Net(subtotal, discount), c) ==> p == q
  {
    var net, m := Net(subtotal, discount), c.earnAmountMinor;
    var x := net * c.earnPoints;
    forall p, q | MostPoints(p, net, c) && MostPoints(q, net, c) ensures p == q {
      MostIsFloor(p, x, m);
      MostIsFloor(q, x, m);
    }
    if c.isEnabled {
      DivMod(x, m);
      assert (x / m + 1) * m == x / m * m + m;
      MulMonotone(c.earnPoints, m, net);
      FloorAtMost(x, m, net);
    }
  }

  lemma MostIsFloor(p: int, x: int, m: int)
    requires m > 0 && p * m <= x < (p + 1) * m
    ensures p == x / m
  {
    FloorIsGreatest(x, m, p);
    FloorIsGreatest(x, m, p + 1);
  }

  /** Splitting a bill in two, discounts included, never earns more, nor more than one point less. */
  lemma EarningIsFair(a: nat, b: nat, d: nat, e: nat, c: Config)
    requires ValidateConfig(c).None? && d <= a && e <= b
    ensures 0 <= PointsForOrder(a + b, d + e, c) - PointsForOrder(a, d, c) - PointsForOrder(b, e, c) <= 1
  {
    if c.isEnabled {
      var x, y := (a - d) * c.earnPoints, (b - e) * c.earnPoints;
      assert (a + b - (d + e)) * c.earnPoints == x + y;
      EarnedIsFloor(a - d, c);
      EarnedIsFloor(b - e, c);
      EarnedIsFloor(a + b - (d + e), c);
      FloorSum(x, y, c.earnAmountMinor);
    }
  }

  lemma FloorAtMost(x: int, m: int, a: int)
    requires m > 0 && 0 <= x <= m * a
    ensures 0 <= x / m <= a
  {
    FloorIsGreatest(x, m, a + 1);
    assert (a + 1) * m == m * a + m;
  }

  lemma EarnedIsFloor(a: nat, c: Config)
    requires c.earnAmountMinor > 0 && c.isEnabled
    ensures PointsForOrder(a, 0, c) == a * c.earnPoints / c.earnAmountMinor
  {
  }

  lemma FloorSum(x: int, y: int, m: int)
    requires m > 0
    ensures 0 <= (x + y) / m - x / m - y / m <= 1
  {
    DivMod(x, m);
    DivMod(y, m);
    var k := x / m + y / m;
    assert k * m == x / m * m + y / m * m;
    assert (k + 2) * m == k * m + 2 * m;
    FloorIsGreatest(x + y, m, k);
    FloorIsGreatest(x + y, m, k + 2);
  }
}
