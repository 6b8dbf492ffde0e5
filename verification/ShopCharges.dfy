/** How often an order is paid for, and how often a coupon is used: what repeated calls add up to over a run. */
module ShopCharges {
  import opened Common
  import opened OrderRules
  import opened Ledger
  import opened Commerce
  import opened ShopInvariants
  import opened ShopRuns
  import opened Checkout

  // ---------- Usage limits ----------

  ghost predicate LimitsOk(coupons: map<CouponCode, Coupon>) {
    forall code {:trigger coupons[code]} ::
      code in coupons && coupons[code].maxUses.Some? ==> coupons[code].usedCount <= coupons[code].maxUses.value
  }

  /** A coupon update that sets the limit below the uses there have been. */
  predicate UndercutsUse(s: Shop, c: Command) {
    && c.DoUpdateCoupon? && c.code in s.coupons && c.patch.maxUses.Some?
    && c.patch.maxUses.value < s.coupons[c.code].usedCount
  }

  /** Such an update is the only call that breaks a limit, and it always does. */
  lemma LimitsBreakIff(s: Shop, c: Command)
    requires LimitsOk(s.coupons)
    ensures LimitsOk(Step(s, c).coupons) <==> !UndercutsUse(s, c)
  {
    if UndercutsUse(s, c) {
      var after := Step(s, c).coupons[c.code];
      assert after.maxUses == c.patch.maxUses && after.usedCount > after.maxUses.value;
    }
  }

  lemma {:induction false} LimitsAreRespected(catalog: map<VariantId, VariantInfo>, cs: seq<Command>)
    requires forall i {:trigger cs[i]} :: 0 <= i < |cs| ==> !UndercutsUse(Run(catalog, cs[..i]), cs[i])
    ensures LimitsOk(Run(catalog, cs).coupons)
  {
    if cs == [] {
    } else {
      var init := cs[..|cs| - 1];
      forall i | 0 <= i < |init|
        ensures !UndercutsUse(Run(catalog, init[..i]), init[i])
      {
        assert init[..i] == cs[..i] && init[i] == cs[i];
      }
      LimitsAreRespected(catalog, init);
      assert !UndercutsUse(Run(catalog, init), cs[|cs| - 1]);
      LimitsBreakIff(Run(catalog, init), cs[|cs| - 1]);
    }
  }

  // ---------- Charges ----------

  /** The payments of an order that have taken money, refunded or not. */
  ghost function Charges(payments: map<PaymentId, Payment>, id: OrderId): set<PaymentId> {
    set p | p in payments && payments[p].order == id && payments[p].status != FAILED
  }

  predicate Waiting(s: Shop, id: OrderId) {
    id in s.orders && s.orders[id].status in {PENDING_PAYMENT, PAYMENT_FAILED}
  }

  /** The call writes a successful payment of the order. */
  predicate TakesMoney(s: Shop, c: Command, id: OrderId) {
    && c.DoPay? && c.order == id && !c.simulateFailure
    && Waiting(s, id) && !PaymentKeyUsed(s, c.key) && c.payment !in s.payments
  }

  /** And the order does not become PAID by it. */
  predicate InVain(s: Shop, c: Command, id: OrderId) {
    TakesMoney(s, c, id) && (s.orders[id].status == PAYMENT_FAILED || s.warehouse.None?)
  }

  lemma VainPaymentsFail(s: Shop, c: Command, id: OrderId)
    requires Inv(s) && TakesMoney(s, c, id)
    ensures InVain(s, c, id) <==> Pay(s, id, false, c.key, c.payment).reply.Err?
    ensures !InVain(s, c, id) ==> Step(s, c).orders[id].status == PAID
  {
    PayFailsIff(s, id, false, c.key, c.payment);
    PhaseMoves(PENDING_PAYMENT, PAID);
  }

  lemma {:induction false} NewPaymentCharges(payments: map<PaymentId, Payment>, p: PaymentId, payment: Payment,
                                             id: OrderId)
    requires p !in payments
    ensures Charges(payments[p := payment], id) ==
            Charges(payments, id) + (if payment.order == id && payment.status != FAILED then {p} else {})
  {
  }

  lemma {:induction false} PayCharges(s: Shop, c: Command, id: OrderId)
    requires c.DoPay?
    ensures Charges(Step(s, c).payments, id) == Charges(s.payments, id) +
            (if TakesMoney(s, c, id) then {c.payment} else {})
  {
    if !PaymentKeyUsed(s, c.key) && Waiting(s, c.order) && c.payment !in s.payments {
      var status := if c.simulateFailure then FAILED else SUCCEEDED;
      var p := Payment(c.order, s.orders[c.order].total, status, c.key);
      assert Step(s, c).payments == s.payments[c.payment := p];
      NewPaymentCharges(s.payments, c.payment, p, id);
    }
  }

  lemma {:induction false} RefundCharges(s: Shop, payment: PaymentId, amount: int, id: OrderId)
    ensures Charges(MakeRefund(s, payment, amount).shop.payments, id) == Charges(s.payments, id)
  {
  }

  lemma {:induction false} ChargeStep(s: Shop, c: Command, id: OrderId)
    ensures Charges(Step(s, c).payments, id) == Charges(s.payments, id) +
            (if TakesMoney(s, c, id) then {c.payment} else {})
  {
    match c
    case DoPay(_, _, _, _) => PayCharges(s, c, id);
    case DoRefund(payment, amount) => RefundCharges(s, payment, amount, id);
    case _ =>
  }

  lemma {:induction false} StatusWaits(s: Shop, k: OrderId, to: Status, id: OrderId)
    requires id in s.orders && OrderOk(s.orders[id]) && Waiting(UpdateStatus(s, k, to).shop, id)
    ensures Waiting(s, id)
  {
    HistoryLength(s.orders[id].history);
  }

  /** What pay does to the orders. */
  lemma {:induction false} PayOrders(s: Shop, c: Command)
    requires c.DoPay?
    ensures Step(s, c).orders == s.orders
         || exists p :: Step(s, c) ==
              UpdateStatus(s.(payments := p), c.order, if c.simulateFailure then PAYMENT_FAILED else PAID).shop
  {
    if Step(s, c) != s {
      var p := Payment(c.order, s.orders[c.order].total, if c.simulateFailure then FAILED else SUCCEEDED, c.key);
      assert Step(s, c).payments == s.payments[c.payment := p];
    }
  }

  lemma {:induction false} PayWaits(s: Shop, c: Command, id: OrderId)
    requires c.DoPay? && id in s.orders && OrderOk(s.orders[id]) && Waiting(Step(s, c), id)
    ensures Waiting(s, id)
  {
    PayOrders(s, c);
    var to := if c.simulateFailure then PAYMENT_FAILED else PAID;
    if p :| Step(s, c) == UpdateStatus(s.(payments := p), c.order, to).shop {
      StatusWaits(s.(payments := p), c.order, to, id);
    }
  }

  /** An order that has stopped waiting never waits again. */
  lemma {:induction false} WaitingWasWaiting(s: Shop, c: Command, id: OrderId)
    requires Inv(s) && id in s.orders && Waiting(Step(s, c), id)
    ensures Waiting(s, id)
  {
    assert OrderOk(s.orders[id]);
    match c
    case DoUpdateStatus(k, to) => StatusWaits(s, k, to, id);
    case DoTimeout(k) =>
      if Timeout(s, k).shop != s {
        StatusWaits(s, k, CANCELLED, id);
      }
    case DoPay(_, _, _, _) => PayWaits(s, c, id);
    case _ =>
  }

  lemma {:induction false} OrdersStay(s: Shop, c: Command, id: OrderId)
    requires id in s.orders
    ensures id in Step(s, c).orders
  {
  }

  ghost function VainPayments(catalog: map<VariantId, VariantInfo>, cs: seq<Command>, id: OrderId): nat {
    if cs == [] then 0
    else
      var init := cs[..|cs| - 1];
      VainPayments(catalog, init, id) + (if InVain(Run(catalog, init), cs[|cs| - 1], id) then 1 else 0)
  }

  /** Charged once for each of these payments in vain, and at most once more, unless it still waits. */
  ghost predicate ChargedFor(s: Shop, id: OrderId, vain: nat) {
    var charged := |Charges(s.payments, id)|;
    vain <= charged <= vain + 1 && (Waiting(s, id) || id !in s.orders ==> charged == vain)
  }

  lemma {:induction false} ChargedForNext(s: Shop, c: Command, id: OrderId, vain: nat)
    requires Inv(s) && ChargedFor(s, id, vain)
    ensures ChargedFor(Step(s, c), id, vain + (if InVain(s, c, id) then 1 else 0))
  {
    ChargeStep(s, c, id);
    if TakesMoney(s, c, id) {
      VainPaymentsFail(s, c, id);
    }
    if id in s.orders {
      OrdersStay(s, c, id);
      if Waiting(Step(s, c), id) {
        WaitingWasWaiting(s, c, id);
      }
    }
  }

  /** An order is charged once for every payment in vain, and at most once more: by the one payment that made it PAID,
      after which it never waits again. */
  lemma {:induction false} ChargesOfAnOrder(catalog: map<VariantId, VariantInfo>, cs: seq<Command>, id: OrderId)
    requires AllWellFormed(cs)
    ensures ChargedFor(Run(catalog, cs), id, VainPayments(catalog, cs, id))
  {
    if cs == [] {
    } else {
      var init := cs[..|cs| - 1];
      ChargesOfAnOrder(catalog, init, id);
      RunKeepsInv(catalog, init);
      ChargedForNext(Run(catalog, init), cs[|cs| - 1], id, VainPayments(catalog, init, id));
    }
  }

  /** So an order that is charged more than once has had a payment in vain. */
  lemma ChargedOnce(catalog: map<VariantId, VariantInfo>, cs: seq<Command>, id: OrderId)
    requires AllWellFormed(cs)
    ensures |Charges(Run(catalog, cs).payments, id)| > 1 ==> VainPayments(catalog, cs, id) > 0
    ensures VainPayments(catalog, cs, id) > 1 ==> |Charges(Run(catalog, cs).payments, id)| > 1
  {
    ChargesOfAnOrder(catalog, cs, id);
  }

  /** The payment q has gone through, and these are all payments now. */
  ghost predicate PaidBy(u: Outcome<PaymentId>, id: OrderId, q: PaymentId, payments: map<PaymentId, Payment>) {
    u.reply == Ok(q) && id in u.shop.orders && u.shop.orders[id].status == PAID && u.shop.payments == payments
  }

  function Success(id: OrderId, total: int, key: Option<string>): Payment {
    Payment(id, total, SUCCEEDED, key)
  }

  /** Paying a PAYMENT_FAILED order, making it wait again and paying it once more charges its total twice. */
  lemma {:induction false} RetryChargesTwice(s: Shop, id: OrderId, k: Option<string>, p: PaymentId, l: Option<string>,
                                             q: PaymentId)
    requires id in s.orders && s.orders[id].status == PAYMENT_FAILED && s.warehouse.Some?
    requires !PaymentKeyUsed(s, k) && !PaymentKeyUsed(s, l) && (k != l || k.None?)
    requires p !in s.payments && q !in s.payments && p != q
    ensures var t := UpdateStatus(Pay(s, id, false, k, p).shop, id, PENDING_PAYMENT).shop;
            var total := s.orders[id].total;
            PaidBy(Pay(t, id, false, l, q), id, q, s.payments[p := Success(id, total, k)][q := Success(id, total, l)])
  {
    FirstPayment(s, id, k, p);
    var paid := Pay(s, id, false, k, p).shop;
    var t := UpdateStatus(paid, id, PENDING_PAYMENT).shop;
    WaitsAgain(paid, id);
    SecondPayment(t, id, l, q);
  }

  lemma {:induction false} FirstPayment(s: Shop, id: OrderId, k: Option<string>, p: PaymentId)
    requires id in s.orders && s.orders[id].status == PAYMENT_FAILED && !PaymentKeyUsed(s, k) && p !in s.payments
    ensures Pay(s, id, false, k, p).shop == s.(payments := s.payments[p := Success(id, s.orders[id].total, k)])
  {
  }

  lemma {:induction false} WaitsAgain(s: Shop, id: OrderId)
    requires id in s.orders && s.orders[id].status == PAYMENT_FAILED && s.warehouse.Some?
    ensures var t := UpdateStatus(s, id, PENDING_PAYMENT).shop;
            && id in t.orders && t.orders[id].status == PENDING_PAYMENT && t.orders[id].total == s.orders[id].total
            && t.warehouse == s.warehouse && t.payments == s.payments
  {
  }

  lemma {:induction false} SecondPayment(t: Shop, id: OrderId, l: Option<string>, q: PaymentId)
    requires id in t.orders && t.orders[id].status == PENDING_PAYMENT && t.warehouse.Some?
    requires !PaymentKeyUsed(t, l) && q !in t.payments
    ensures PaidBy(Pay(t, id, false, l, q), id, q, t.payments[q := Success(id, t.orders[id].total, l)])
  {
    PhaseMoves(PENDING_PAYMENT, PAID);
  }
}
