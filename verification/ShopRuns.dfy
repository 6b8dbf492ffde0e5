/** Every call keeps the table invariants, so every run does: no run is excluded here. */
module ShopRuns {
  import opened Common
  import opened OrderRules
  import opened Ledger
  import opened Money
  import opened Commerce
  import opened ShopInvariants

  lemma UpdateStatusKeepsInv(s: Shop, id: OrderId, to: Status)
    requires Inv(s)
    ensures Inv(UpdateStatus(s, id, to).shop)
  {
    var t := UpdateStatus(s, id, to).shop;
    if UpdateStatus(s, id, to).reply.Ok? {
      var o, w := s.orders[id], s.warehouse.value;
      assert OrderOk(o);
      MovedStockLogs(s.stock, LinesOf(o.items), PhaseFor(o.status), PhaseFor(to), w, id);
      StatusNetOk(s.stock.movements, s.orders, id, to, w);
      WithStatusOk(o, to);
      OneOrderChanged(s.orders, s.homes, id, WithStatus(o, to), s.homes[id]);
      assert s.homes[id := s.homes[id]] == s.homes;
      StatusKeepsCouponsOk(s.coupons, s.orders, id, WithStatus(o, to));
      assert OrderKeysUnique(t.orders);
    }
  }

  lemma PlaceOrderKeepsInv(s: Shop, d: Draft, id: OrderId)
    requires Inv(s) && AllPriced(d.lines, d.prices) && !KeyUsed(s, d.key)
    requires d.lines != [] && OneLinePerVariant(d.lines) && Positive(d.lines)
    requires 0 <= d.discount <= d.subtotal
    ensures Inv(PlaceOrder(s, d, id).shop)
  {
    if PlaceOrder(s, d, id).reply.Ok? {
      var o := NewOrder(d);
      assert LinesOf(o.items) == d.lines;
      assert o.history[..0] == [];
      ReserveLinesLogs(s.stock, d.lines, d.warehouse, id);
      NewOrderNetOk(s.stock.movements, s.orders, id, o, d.warehouse);
      OneOrderChanged(s.orders, s.homes, id, o, d.warehouse);
      NewOrderKeepsCouponsOk(s.coupons, s.orders, id, o);
    }
  }

  /** The draft createFromCart builds is priced, non-empty, and its discount fits the subtotal. */
  lemma DraftIsSound(s: Shop, r: CreateRequest)
    requires Inv(s) && WellFormed(DoCreateOrder(r, ""))
    requires var lines := CartOf(s, r.user);
             && AllPriced(lines, r.prices) && s.warehouse.Some? && (r.coupon.Some? ==> r.coupon.value in s.coupons)
    ensures var lines := CartOf(s, r.user);
            var d := DraftFor(s, r, lines, Subtotal(Pricing(lines, r.prices)));
            OneLinePerVariant(lines) && Positive(lines) && 0 <= d.discount <= d.subtotal
  {
    var lines := CartOf(s, r.user);
    assert r.user in s.carts ==> OneLinePerVariant(s.carts[r.user]) && Positive(s.carts[r.user]);
    ExactIsNonNegative(Pricing(lines, r.prices));
    if r.coupon.Some? {
      assert CouponOk(s.coupons, s.orders, r.coupon.value);
      var c := s.coupons[r.coupon.value];
      DiscountWithinSubtotal(c.kind, c.value, Subtotal(Pricing(lines, r.prices)));
    }
  }

  lemma CreateFromCartKeepsInv(s: Shop, r: CreateRequest, id: OrderId)
    requires Inv(s) && WellFormed(DoCreateOrder(r, id))
    ensures Inv(CreateFromCart(s, r, id).shop)
  {
    var lines := CartOf(s, r.user);
    if CreateFromCart(s, r, id).shop != s {
      DraftIsSound(s, r);
      PlaceOrderKeepsInv(s, DraftFor(s, r, lines, Subtotal(Pricing(lines, r.prices))), id);
    }
  }

  lemma PayKeepsInv(s: Shop, order: OrderId, simulateFailure: bool, key: Option<string>, id: PaymentId)
    requires Inv(s)
    ensures Inv(Pay(s, order, simulateFailure, key, id).shop)
  {
    if !PaymentKeyUsed(s, key) && order in s.orders && id !in s.payments {
      assert OrderOk(s.orders[order]);
      var p := Payment(order, s.orders[order].total, if simulateFailure then FAILED else SUCCEEDED, key);
      NewPaymentOk(s.payments, s.refunds, id, p);
      assert PaymentKeysUnique(s.payments[id := p]);
      UpdateStatusKeepsInv(s.(payments := s.payments[id := p]), order,
                           if simulateFailure then PAYMENT_FAILED else PAID);
    }
  }

  lemma RefundKeepsInv(s: Shop, id: PaymentId, amount: int)
    requires Inv(s) && amount > 0
    ensures Inv(MakeRefund(s, id, amount).shop)
  {
    if MakeRefund(s, id, amount).reply.Ok? {
      RefundOk(s.payments, s.refunds, id, amount, MakeRefund(s, id, amount).shop.payments[id]);
    }
  }

  lemma ReceiveKeepsInv(s: Shop, v: VariantId, at: Option<WarehouseId>, quantity: int)
    requires Inv(s) && quantity > 0
    ensures Inv(Receive(s, v, at, quantity).shop)
  {
    if Receive(s, v, at, quantity).reply.Ok? {
      var key := StockKey(v, Target(s, at).value);
      assert Available(s.stock, key) >= 0;
      PostKeepsStockOk(s.stock, key, quantity, 0, Movement(RECEIPT, key, quantity, None));
      NoOrderNetOk(s.stock.movements, Movement(RECEIPT, key, quantity, None), s.orders);
    }
  }

  lemma AdjustKeepsInv(s: Shop, v: VariantId, at: Option<WarehouseId>, delta: int)
    requires Inv(s)
    ensures Inv(Adjust(s, v, at, delta).shop)
  {
    if Adjust(s, v, at, delta).reply.Ok? {
      var key := StockKey(v, Target(s, at).value);
      PostKeepsStockOk(s.stock, key, delta, 0, Movement(ADJUSTMENT, key, delta, None));
      NoOrderNetOk(s.stock.movements, Movement(ADJUSTMENT, key, delta, None), s.orders);
    }
  }

  lemma {:induction false} AddItemKeepsInv(s: Shop, user: UserId, v: VariantId, quantity: int)
    requires Inv(s) && quantity > 0
    ensures Inv(AddItem(s, user, v, quantity).shop)
  {
    var lines := CartOf(s, user);
    PositiveQuantity(lines, v);
    WithLineMeaning(lines, v, Quantity(lines, v) + quantity);
  }

  lemma {:induction false} UpdateItemKeepsInv(s: Shop, user: UserId, v: VariantId, quantity: int)
    requires Inv(s) && quantity >= 0
    ensures Inv(UpdateItem(s, user, v, quantity).shop)
  {
    var lines := CartOf(s, user);
    WithoutLineMeaning(lines, v);
    if quantity > 0 {
      WithLineMeaning(lines, v, quantity);
    }
  }

  lemma CouponCallsKeepInv(s: Shop, code: CouponCode, coupon: Coupon, patch: CouponPatch)
    requires Inv(s)
    ensures coupon.value > 0 ==> Inv(CreateCoupon(s, code, coupon).shop)
    ensures Inv(UpdateCoupon(s, code, patch).shop)
  {
    if coupon.value > 0 && CreateCoupon(s, code, coupon).reply.Ok? {
      CouponWrittenOk(s.coupons, s.orders, code, coupon.(usedCount := 0));
    }
    if code in s.coupons {
      assert CouponOk(s.coupons, s.orders, code);
      CouponWrittenOk(s.coupons, s.orders, code, Patched(s.coupons[code], patch));
    }
  }

  lemma StepKeepsInv(s: Shop, c: Command)
    requires Inv(s) && WellFormed(c)
    ensures Inv(Step(s, c))
  {
    match c
    case DoReceive(v, at, quantity) => ReceiveKeepsInv(s, v, at, quantity);
    case DoAdjust(v, at, delta) => AdjustKeepsInv(s, v, at, delta);
    case DoAddItem(user, v, quantity) => AddItemKeepsInv(s, user, v, quantity);
    case DoUpdateItem(user, v, quantity) => UpdateItemKeepsInv(s, user, v, quantity);
    case DoCreateCoupon(code, coupon) => CouponCallsKeepInv(s, code, coupon, CouponPatch(None, None, None, None, None));
    case DoUpdateCoupon(code, patch) =>
      CouponCallsKeepInv(s, code, Coupon(FIXED_AMOUNT, 0, None, 0, None, None, None, true), patch);
    case DoCreateOrder(request, order) => CreateFromCartKeepsInv(s, request, order);
    case DoUpdateStatus(order, to) => UpdateStatusKeepsInv(s, order, to);
    case DoTimeout(order) => UpdateStatusKeepsInv(s, order, CANCELLED);
    case DoPay(order, simulateFailure, key, payment) => PayKeepsInv(s, order, simulateFailure, key, payment);
    case DoRefund(payment, amount) => RefundKeepsInv(s, payment, amount);
    case SetDefaultWarehouse(warehouse) =>
  }

  lemma {:induction false} RunKeepsInv(catalog: map<VariantId, VariantInfo>, cs: seq<Command>)
    requires AllWellFormed(cs)
    ensures Inv(Run(catalog, cs))
  {
    if cs != [] {
      RunKeepsInv(catalog, cs[..|cs| - 1]);
      StepKeepsInv(Run(catalog, cs[..|cs| - 1]), cs[|cs| - 1]);
    } else {
      assert Inv(Empty(catalog));
    }
  }
}
