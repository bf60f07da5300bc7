/** Coupon redemptions: append-only rows, counted inside the transaction that adds one. */
module Coupons {
  import opened Options
  import opened Traces
  import opened Sums
  import opened OrderPricing

  type CouponId = nat // position in `coupons`

  datatype Redemption = Redemption(coupon: CouponId, order: nat, discountMinor: int)

  datatype State = State(coupons: seq<Coupon>, redemptions: seq<Redemption>)

  datatype Action =
    | CreateCoupon(coupon: Coupon)
    | SetActive(id: CouponId, isActive: bool)
    | Redeem(id: CouponId, order: nat, subtotalMinor: int, now: int)

  function Initial(): State { State([], []) }

  function OfCoupon(c: CouponId): Redemption -> int { (r: Redemption) => if r.coupon == c then 1 else 0 }

  /** COUNT(*) of a coupon's redemptions. */
  function Used(redemptions: seq<Redemption>, c: CouponId): int { Sum(redemptions, OfCoupon(c)) }

  function Discount(c: Coupon, subtotal: int): int {
    Min(if c.maxDiscountMinor.Some? then Min(FaceValue(c, subtotal), c.maxDiscountMinor.value) else FaceValue(c, subtotal), subtotal)
  }

  function Step(s: State, a: Action): State {
    match a
    case CreateCoupon(c) => s.(coupons := s.coupons + [c.(isActive := true)])
    case SetActive(id, isActive) =>
      if id >= |s.coupons| then s else s.(coupons := s.coupons[id := s.coupons[id].(isActive := isActive)])
    case Redeem(id, o, subtotal, now) =>
      if id >= |s.coupons| || !CouponApplies(s.coupons[id], Used(s.redemptions, id), now, subtotal) then s
      else if Discount(s.coupons[id], subtotal) <= 0 then s
      else s.(redemptions := s.redemptions + [Redemption(id, o, Discount(s.coupons[id], subtotal))])
  }

  function Steps(): (State, Action) -> State { (s: State, a: Action) => Step(s, a) }

  function Run(s: State, acts: seq<Action>): State { RunOf(Steps(), s, acts) }

  ghost predicate WithinLimit(s: State, c: CouponId)
    requires c < |s.coupons|
  {
    s.coupons[c].maxRedemptions.Some? ==> Used(s.redemptions, c) <= Max(0, s.coupons[c].maxRedemptions.value)
  }

  ghost predicate Inv(s: State) {
    && (forall i | 0 <= i < |s.redemptions| :: s.redemptions[i].coupon < |s.coupons| && s.redemptions[i].discountMinor > 0)
    && (forall c | 0 <= c < |s.coupons| :: WithinLimit(s, c))
  }

  lemma UsedSnoc(redemptions: seq<Redemption>, r: Redemption, c: CouponId)
    ensures Used(redemptions + [r], c) == Used(redemptions, c) + if r.coupon == c then 1 else 0
  {
    assert (redemptions + [r])[..|redemptions|] == redemptions;
  }

  lemma NewCouponIsUnused(s: State)
    requires Inv(s)
    ensures Used(s.redemptions, |s.coupons|) == 0
  {
    forall r | r in s.redemptions ensures OfCoupon(|s.coupons|)(r) == 0 {
      var i :| 0 <= i < |s.redemptions| && s.redemptions[i] == r;
      assert s.redemptions[i].coupon < |s.coupons|;
    }
    SumZero(s.redemptions, OfCoupon(|s.coupons|));
  }

  lemma StepKeepsInv(s: State, a: Action)
    requires Inv(s)
    ensures Inv(Step(s, a))
  {
    var s' := Step(s, a);
    forall c | 0 <= c < |s'.coupons| ensures WithinLimit(s', c) {
      if c < |s.coupons| { assert WithinLimit(s, c); } else { NewCouponIsUnused(s); }
      if a.Redeem? { UsedSnoc(s.redemptions, Redemption(a.id, a.order, if a.id < |s.coupons| then Discount(s.coupons[a.id], a.subtotalMinor) else 0), c); }
    }
  }

  lemma {:induction false} RunKeepsInv(s: State, acts: seq<Action>)
    requires Inv(s)
    ensures Inv(Run(s, acts))
    decreases |acts|
  {
    if acts != [] {
      StepKeepsInv(s, acts[0]);
      RunKeepsInv(Step(s, acts[0]), acts[1..]);
    }
  }

  /** Over every run a limited coupon is redeemed at most as often as it allows. */
  lemma LimitIsNeverExceeded(acts: seq<Action>, c: CouponId)
    ensures var s := Run(Initial(), acts);
            c < |s.coupons| && s.coupons[c].maxRedemptions.Some? ==>
              Used(s.redemptions, c) <= Max(0, s.coupons[c].maxRedemptions.value)
  {
    var s := Run(Initial(), acts);
    RunKeepsInv(Initial(), acts);
    if c < |s.coupons| { assert WithinLimit(s, c); }
  }

  lemma DiscountIsLargest(c: Coupon, subtotal: int, d: int)
    ensures IsCouponDiscount(d, c, subtotal) <==> d == Discount(c, subtotal)
  {
  }

  lemma {:induction false} InactiveRedeemsNothing(s: State, acts: seq<Action>, id: CouponId)
    requires id < |s.coupons| && !s.coupons[id].isActive
    requires forall i | 0 <= i < |acts| :: acts[i] != SetActive(id, true)
    ensures id < |Run(s, acts).coupons| && !Run(s, acts).coupons[id].isActive
    ensures Used(Run(s, acts).redemptions, id) == Used(s.redemptions, id)
    decreases |acts|
  {
    if acts != [] {
      var a, t := acts[0], Step(s, acts[0]);
      assert Used(t.redemptions, id) == Used(s.redemptions, id) by {
        if a.Redeem? && a.id < |s.coupons| { UsedSnoc(s.redemptions, Redemption(a.id, a.order, Discount(s.coupons[a.id], a.subtotalMinor)), id); }
      }
      assert forall i | 0 <= i < |acts[1..]| :: acts[1..][i] == acts[i + 1];
      InactiveRedeemsNothing(t, acts[1..], id);
    }
  }

  /** A coupon switched off is not redeemed again before it is switched on. */
  lemma SwitchedOffRedeemsNothing(s: State, acts: seq<Action>, id: CouponId)
    requires id < |s.coupons| && forall i | 0 <= i < |acts| :: acts[i] != SetActive(id, true)
    ensures Used(Run(Step(s, SetActive(id, false)), acts).redemptions, id) == Used(s.redemptions, id)
  {
    InactiveRedeemsNothing(Step(s, SetActive(id, false)), acts, id);
  }

  /** A coupon just created or switched on is redeemed whenever its dates, minimum and limit allow and it gives anything. */
  lemma SwitchedOnRedeemsIff(s: State, id: CouponId, c: Coupon, o: nat, subtotal: int, now: int)
    requires id <= |s.coupons| && (if id < |s.coupons| then c == s.coupons[id] else Used(s.redemptions, id) == 0)
    ensures var on := Step(s, if id < |s.coupons| then SetActive(id, true) else CreateCoupon(c));
            Used(Step(on, Redeem(id, o, subtotal, now)).redemptions, id) == Used(s.redemptions, id) + 1 <==>
              WhyNot(c.(isActive := true), Used(s.redemptions, id), now, subtotal).None? && Affords(c, subtotal, 1)
  {
    var on := Step(s, if id < |s.coupons| then SetActive(id, true) else CreateCoupon(c));
    var d := Discount(on.coupons[id], subtotal);
    assert on.coupons[id] == c.(isActive := true) && on.redemptions == s.redemptions;
    CouponAppliesIff(on.coupons[id], Used(s.redemptions, id), now, subtotal);
    assert 0 < d <==> Affords(c, subtotal, 1) by {
      DiscountIsLargest(on.coupons[id], subtotal, d);
      CouponDiscountIff(d, on.coupons[id], subtotal);
    }
    UsedSnoc(s.redemptions, Redemption(id, o, d), id);
  }

  class Service {
    var coupons: seq<Coupon>
    var redemptions: seq<Redemption>

    ghost function Now(): State reads this { State(coupons, redemptions) }

    constructor ()
      ensures Now() == Initial() && Inv(Now())
    {
      coupons, redemptions := [], [];
    }

    /** couponRedemption.count */
    method CountRedemptions(id: CouponId) returns (used: nat)
      ensures used == Used(redemptions, id)
    {
      used := 0;
      var i := 0;
      while i < |redemptions|
        invariant 0 <= i <= |redemptions| && used == Used(redemptions[..i], id)
      {
        UsedSnoc(redemptions[..i], redemptions[i], id);
        assert redemptions[..i + 1] == redemptions[..i] + [redemptions[i]];
        if redemptions[i].coupon == id { used := used + 1; }
        i := i + 1;
      }
      assert redemptions[..|redemptions|] == redemptions;
    }

    /** The coupon part of an order's transaction: validate, price, then record. */
    method RedeemForOrder(id: CouponId, o: nat, subtotalMinor: int, now: int) returns (res: Result<int, Refusal>)
      requires Inv(Now())
      modifies this`redemptions
      ensures Inv(Now()) && Now() == Step(old(Now()), Action.Redeem(id, o, subtotalMinor, now))
      ensures res.Ok? ==> 0 < res.value <= subtotalMinor && redemptions == old(redemptions) + [Redemption(id, o, res.value)]
      ensures res.Err? ==> redemptions == old(redemptions)
      ensures res.Ok? <==>
                && id < |coupons| && WhyNot(coupons[id], Used(old(redemptions), id), now, subtotalMinor).None?
                && Affords(coupons[id], subtotalMinor, 1)
      ensures res.Ok? ==> Affords(coupons[id], subtotalMinor, res.value) && !Affords(coupons[id], subtotalMinor, res.value + 1)
    {
      StepKeepsInv(Now(), Action.Redeem(id, o, subtotalMinor, now));
      var coupon := if id < |coupons| then Some(coupons[id]) else None;
      var used := CountRedemptions(id);
      res := ValidateAndComputeDiscount(coupon, used, now, subtotalMinor);
      if id < |coupons| {
        ghost var best := Discount(coupons[id], subtotalMinor);
        DiscountIsLargest(coupons[id], subtotalMinor, best);
        if res.Ok? {
          DiscountIsLargest(coupons[id], subtotalMinor, res.value);
          redemptions := redemptions + [Redemption(id, o, res.value)];
        }
      }
    }
  }
}
