/** The discount every stored order carries, by the coupon it was placed with. */
module ShopDiscounts {
  import opened OrderRules
  import opened Ledger
  import opened Money
  import opened Commerce
  import opened ShopInvariants
  import opened ShopRuns
  import opened ShopCharges

  /** The order's discount is what its coupon promises; without one there is none. */
  ghost predicate DiscountFits(coupons: map<CouponCode, Coupon>, o: Order) {
    match o.coupon
    case None => o.discount == 0
    case Some(code) =>
      code in coupons && Deducts(coupons[code].kind, coupons[code].value, o.subtotal, o.discount)
  }

  ghost predicate DiscountsFit(s: Shop) {
    forall id {:trigger s.orders[id]} :: id in s.orders ==> DiscountFits(s.coupons, s.orders[id])
  }

  /** Kind and value of a coupon never change. */
  ghost predicate TermsKept(before: map<CouponCode, Coupon>, after: map<CouponCode, Coupon>) {
    forall code {:trigger after[code]} {:trigger before[code]} :: code in before ==>
      code in after && after[code].kind == before[code].kind && after[code].value == before[code].value
  }

  lemma {:induction false} PlacementKeepsTerms(s: Shop, r: CreateRequest, id: OrderId)
    ensures TermsKept(s.coupons, CreateFromCart(s, r, id).shop.coupons)
  {
  }

  lemma {:induction false} OtherCallsKeepCoupons(s: Shop, c: Command)
    requires !c.DoCreateOrder? && !c.DoCreateCoupon? && !c.DoUpdateCoupon?
    ensures Step(s, c).coupons == s.coupons
  {
  }

  lemma {:induction false} StepKeepsTerms(s: Shop, c: Command)
    ensures TermsKept(s.coupons, Step(s, c).coupons)
  {
    match c
    case DoCreateOrder(r, id) => PlacementKeepsTerms(s, r, id);
    case DoCreateCoupon(_, _) =>
    case DoUpdateCoupon(_, _) =>
    case _ => OtherCallsKeepCoupons(s, c);
  }

  /** Orders that were there keep coupon, subtotal and discount. */
  ghost predicate AmountsKept(s: Shop, t: Shop, id: OrderId)
    requires id in s.orders && id in t.orders
  {
    var (o, u) := (s.orders[id], t.orders[id]);
    u.coupon == o.coupon && u.subtotal == o.subtotal && u.discount == o.discount
  }

  lemma {:induction false} PlacedDiscountFits(s: Shop, r: CreateRequest, id: OrderId)
    requires DiscountsFit(s)
    ensures DiscountsFit(CreateFromCart(s, r, id).shop)
  {
    var t := CreateFromCart(s, r, id).shop;
    if t != s {
      var o := t.orders[id];
      if r.coupon.Some? {
        var c := s.coupons[r.coupon.value];
        DiscountDeducts(c.kind, c.value, o.subtotal);
        assert t.coupons[r.coupon.value] == c.(usedCount := c.usedCount + 1);
      }
      assert DiscountFits(t.coupons, o);
      forall k | k in t.orders
        ensures DiscountFits(t.coupons, t.orders[k])
      {
        assert k != id ==> DiscountFits(s.coupons, s.orders[k]);
      }
    }
  }

  ghost predicate AllAmountsKept(s: Shop, t: Shop) {
    s.orders.Keys == t.orders.Keys && forall id :: id in s.orders ==> AmountsKept(s, t, id)
  }

  lemma StatusKeepsAmounts(s: Shop, id: OrderId, to: Status)
    ensures AllAmountsKept(s, UpdateStatus(s, id, to).shop)
  {
  }

  lemma {:induction false} PayKeepsAmounts(s: Shop, c: Command)
    requires c.DoPay?
    ensures AllAmountsKept(s, Step(s, c))
  {
    PayOrders(s, c);
    var to := if c.simulateFailure then PAYMENT_FAILED else PAID;
    if p :| Step(s, c) == UpdateStatus(s.(payments := p), c.order, to).shop {
      StatusKeepsAmounts(s.(payments := p), c.order, to);
    }
  }

  lemma {:induction false} OtherStepsKeepAmounts(s: Shop, c: Command)
    requires !c.DoCreateOrder?
    ensures AllAmountsKept(s, Step(s, c))
  {
    match c
    case DoUpdateStatus(id, to) => StatusKeepsAmounts(s, id, to);
    case DoTimeout(id) => StatusKeepsAmounts(s, id, CANCELLED);
    case DoPay(_, _, _, _) => PayKeepsAmounts(s, c);
    case _ =>
  }

  lemma KeptDiscountsFit(s: Shop, t: Shop)
    requires DiscountsFit(s) && TermsKept(s.coupons, t.coupons) && AllAmountsKept(s, t)
    ensures DiscountsFit(t)
  {
    forall id | id in t.orders
      ensures DiscountFits(t.coupons, t.orders[id])
    {
      var (o, u) := (s.orders[id], t.orders[id]);
      assert DiscountFits(s.coupons, o) && AmountsKept(s, t, id);
      if u.coupon.Some? {
        var (c, d) := (s.coupons[u.coupon.value], t.coupons[u.coupon.value]);
        assert Deducts(c.kind, c.value, o.subtotal, o.discount) && d.kind == c.kind && d.value == c.value;
      }
    }
  }

  lemma {:induction false} StepKeepsDiscounts(s: Shop, c: Command)
    requires DiscountsFit(s)
    ensures DiscountsFit(Step(s, c))
  {
    if c.DoCreateOrder? {
      PlacedDiscountFits(s, c.request, c.order);
    } else {
      StepKeepsTerms(s, c);
      OtherStepsKeepAmounts(s, c);
      KeptDiscountsFit(s, Step(s, c));
    }
  }

  /** After any run, with coupons updated in between or not, every order's discount is what its coupon promises, and
      its total is what is left of the subtotal. */
  lemma {:induction false} DiscountsAreKept(catalog: map<VariantId, VariantInfo>, cs: seq<Command>, id: OrderId)
    requires AllWellFormed(cs)
    ensures DiscountsFit(Run(catalog, cs))
    ensures var s := Run(catalog, cs);
            id in s.orders ==>
              && DiscountFits(s.coupons, s.orders[id])
              && s.orders[id].total == s.orders[id].subtotal - s.orders[id].discount >= 0
  {
    if cs == [] {
    } else {
      DiscountsAreKept(catalog, cs[..|cs| - 1], id);
      StepKeepsDiscounts(Run(catalog, cs[..|cs| - 1]), cs[|cs| - 1]);
    }
    RunKeepsInv(catalog, cs);
    assert id in Run(catalog, cs).orders ==> OrderOk(Run(catalog, cs).orders[id]);
  }
}
