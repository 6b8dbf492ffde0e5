/** What holds after every run of calls on the shop, read off the table invariants. */
module ShopTheorems {
  import opened Common
  import opened OrderRules
  import opened Ledger
  import opened Commerce
  import opened ShopInvariants
  import opened ShopRuns

  /** How much was moved at a row by movements of one kind. */
  function Moved(ms: seq<Movement>, key: StockKey, kind: Kind): int {
    if ms == [] then 0
    else
      var m := ms[|ms| - 1];
      Moved(ms[..|ms| - 1], key, kind) + (if m.key == key && m.kind == kind then m.quantity else 0)
  }

  lemma {:induction false} EffectsByKind(ms: seq<Movement>, key: StockKey)
    ensures Sum(ms, OnHandAt(key)) ==
            Moved(ms, key, RECEIPT) + Moved(ms, key, ADJUSTMENT) + Moved(ms, key, RETURN) - Moved(ms, key, DEDUCT)
    ensures Sum(ms, ReservedAt(key)) == Moved(ms, key, RESERVE) - Moved(ms, key, RELEASE) - Moved(ms, key, DEDUCT)
  {
    if ms == [] {
    } else {
      EffectsByKind(ms[..|ms| - 1], key);
    }
  }

  /** Retries and warehouse changes included: every row is the fold of its movements and is never overdrawn. */
  lemma RowsAreFoldsOfMovements(catalog: map<VariantId, VariantInfo>, cs: seq<Command>, key: StockKey)
    requires AllWellFormed(cs)
    ensures var s := Run(catalog, cs).stock;
            var ms := s.movements;
            && At(s, key).onHand == Moved(ms, key, RECEIPT) + Moved(ms, key, ADJUSTMENT)
                                    + Moved(ms, key, RETURN) - Moved(ms, key, DEDUCT)
            && At(s, key).reserved == Moved(ms, key, RESERVE) - Moved(ms, key, RELEASE) - Moved(ms, key, DEDUCT)
            && At(s, key).reserved <= At(s, key).onHand
  {
    RunKeepsInv(catalog, cs);
    var s := Run(catalog, cs).stock;
    assert At(s, key) == StockRow(Sum(s.movements, OnHandAt(key)), Sum(s.movements, ReservedAt(key)));
    assert Available(s, key) >= 0;
    EffectsByKind(s.movements, key);
  }

  /** Each order's history is a short chain of allowed transitions from null -> PENDING_PAYMENT to its status. */
  lemma HistoriesAreChains(catalog: map<VariantId, VariantInfo>, cs: seq<Command>, id: OrderId)
    requires AllWellFormed(cs) && id in Run(catalog, cs).orders
    ensures var o := Run(catalog, cs).orders[id];
            && IsHistory(o.history) && Last(o.history) == o.status
            && |o.history| - 1 <= 2 * Retries(o.history) + 9
  {
    RunKeepsInv(catalog, cs);
    assert OrderOk(Run(catalog, cs).orders[id]);
    HistoryIsShort(Run(catalog, cs).orders[id].history);
  }

  /** What an order's movements of one variant add up to: by its phase, less the quantity once more for every retry. */
  ghost predicate NetByPhase(o: Order, q: int, onHand: int, reserved: int) {
    && onHand == (if PhaseFor(o.status) == DEDUCTED then -q else 0)
    && reserved == (if PhaseFor(o.status) == RESERVED then q else 0) - Retries(o.history) * q
    && (q > 0 ==> (reserved == (if PhaseFor(o.status) == RESERVED then q else 0) <==> Retries(o.history) == 0))
  }

  lemma HeldQuantity(o: Order, q: int)
    ensures NetByPhase(o, q, -Gone(o) * q, Held(o) * q)
  {
  }

  /** The net stock effect of an order depends only on its phase and its retries: (0, q), (-q, 0) or (0, 0) on
      (onHand, reserved) if and only if it was never retried. */
  lemma NetEffectOfAnOrder(catalog: map<VariantId, VariantInfo>, cs: seq<Command>, id: OrderId, v: VariantId)
    requires AllWellFormed(cs) && id in Run(catalog, cs).orders
    ensures var s := Run(catalog, cs);
            && NetByPhase(s.orders[id], Quantity(LinesOf(s.orders[id].items), v),
                          Sum(s.stock.movements, OrderOnHand(id, v)), Sum(s.stock.movements, OrderReserved(id, v)))
            && (HasLine(LinesOf(s.orders[id].items), v) ==> Quantity(LinesOf(s.orders[id].items), v) > 0)
  {
    RunKeepsInv(catalog, cs);
    NetInState(Run(catalog, cs), id, v);
  }

  /** What an order's movements of one variant add up to, from its history alone: its lines are off the shelf exactly
      when it has been confirmed and neither cancelled nor sent back; they are held exactly while it is open, less once
      more for every time it was made to wait again. */
  ghost predicate NetByHistory(h: seq<Entry>, q: int, onHand: int, reserved: int) {
    && onHand == (if LeftStock(h) then -q else 0)
    && reserved == (if StillOpen(h) then q else 0) - (Times(h, PENDING_PAYMENT) - 1) * q
  }

  lemma NetEffectFromHistory(catalog: map<VariantId, VariantInfo>, cs: seq<Command>, id: OrderId, v: VariantId)
    requires AllWellFormed(cs) && id in Run(catalog, cs).orders
    ensures var s := Run(catalog, cs);
            NetByHistory(s.orders[id].history, Quantity(LinesOf(s.orders[id].items), v),
                         Sum(s.stock.movements, OrderOnHand(id, v)), Sum(s.stock.movements, OrderReserved(id, v)))
  {
    RunKeepsInv(catalog, cs);
    HistoryInState(Run(catalog, cs), id, v);
  }

  lemma HistoryInState(s: Shop, id: OrderId, v: VariantId)
    requires NetOk(s.stock.movements, s.orders) && id in s.orders && OrderOk(s.orders[id])
    ensures NetByHistory(s.orders[id].history, Quantity(LinesOf(s.orders[id].items), v),
                         Sum(s.stock.movements, OrderOnHand(id, v)), Sum(s.stock.movements, OrderReserved(id, v)))
  {
    NetInState(s, id, v);
    TakenByHistory(s.orders[id], Quantity(LinesOf(s.orders[id].items), v),
                   Sum(s.stock.movements, OrderOnHand(id, v)), Sum(s.stock.movements, OrderReserved(id, v)));
  }

  lemma TakenByHistory(o: Order, q: int, onHand: int, reserved: int)
    requires IsHistory(o.history) && Last(o.history) == o.status && NetByPhase(o, q, onHand, reserved)
    ensures NetByHistory(o.history, q, onHand, reserved)
  {
    PhaseFromHistory(o.history);
    HistoryTells(o.history);
  }

  /** For an order never retried: held until it is confirmed, cancelled, or its payment fails. */
  ghost predicate NetUnlessRetried(h: seq<Entry>, q: int, onHand: int, reserved: int) {
    Times(h, PENDING_PAYMENT) == 1 ==>
      && onHand == (if Ever(h, CONFIRMED) && !Ever(h, CANCELLED) && !Ever(h, RETURN_REQUESTED) then -q else 0)
      && reserved == (if Ever(h, CONFIRMED) || Ever(h, PAYMENT_FAILED) || Ever(h, CANCELLED) then 0 else q)
  }

  lemma NetEffectUnlessRetried(catalog: map<VariantId, VariantInfo>, cs: seq<Command>, id: OrderId, v: VariantId)
    requires AllWellFormed(cs) && id in Run(catalog, cs).orders
    ensures var s := Run(catalog, cs);
            NetUnlessRetried(s.orders[id].history, Quantity(LinesOf(s.orders[id].items), v),
                             Sum(s.stock.movements, OrderOnHand(id, v)), Sum(s.stock.movements, OrderReserved(id, v)))
  {
    var s := Run(catalog, cs);
    NetEffectFromHistory(catalog, cs, id, v);
    OnceMadeToWait(s.orders[id].history, Quantity(LinesOf(s.orders[id].items), v),
                   Sum(s.stock.movements, OrderOnHand(id, v)), Sum(s.stock.movements, OrderReserved(id, v)));
  }

  lemma OnceMadeToWait(h: seq<Entry>, q: int, onHand: int, reserved: int)
    requires NetByHistory(h, q, onHand, reserved)
    ensures NetUnlessRetried(h, q, onHand, reserved)
  {
    NeverFailed(h);
  }

  lemma NetInState(s: Shop, id: OrderId, v: VariantId)
    requires NetOk(s.stock.movements, s.orders) && id in s.orders && OrderOk(s.orders[id])
    ensures NetByPhase(s.orders[id], Quantity(LinesOf(s.orders[id].items), v),
                       Sum(s.stock.movements, OrderOnHand(id, v)), Sum(s.stock.movements, OrderReserved(id, v)))
    ensures HasLine(LinesOf(s.orders[id].items), v) ==> Quantity(LinesOf(s.orders[id].items), v) > 0
  {
    assert NetOf(s.stock.movements, s.orders, id, v);
    PositiveQuantity(LinesOf(s.orders[id].items), v);
    HeldQuantity(s.orders[id], Quantity(LinesOf(s.orders[id].items), v));
  }

  /** A coupon's usage count is the number of orders that carry it, and every discount fits its order. */
  lemma CouponsCountTheirOrders(catalog: map<VariantId, VariantInfo>, cs: seq<Command>, code: CouponCode)
    requires AllWellFormed(cs)
    ensures var s := Run(catalog, cs);
            && (code in s.coupons ==>
                 s.coupons[code].usedCount == |set id | id in s.orders && s.orders[id].coupon == Some(code)|)
            && (forall id :: id in s.orders ==>
                  0 <= s.orders[id].discount <= s.orders[id].subtotal
                  && s.orders[id].total == s.orders[id].subtotal - s.orders[id].discount >= 0)
  {
    RunKeepsInv(catalog, cs);
    var s := Run(catalog, cs);
    if code in s.coupons {
      assert CouponOk(s.coupons, s.orders, code);
    }
    forall id | id in s.orders
      ensures 0 <= s.orders[id].discount <= s.orders[id].subtotal
      ensures s.orders[id].total == s.orders[id].subtotal - s.orders[id].discount
    {
      assert OrderOk(s.orders[id]);
    }
  }

  /** Refunds of a payment never add up to more than was paid; REFUNDED means they add up to exactly that. */
  lemma RefundsAreCovered(catalog: map<VariantId, VariantInfo>, cs: seq<Command>, id: PaymentId)
    requires AllWellFormed(cs) && id in Run(catalog, cs).payments
    ensures var s := Run(catalog, cs);
            var sum := RefundedSoFar(s.refunds, id);
            && 0 <= sum <= s.payments[id].amount
            && (s.payments[id].status == PAYMENT_REFUNDED <==> sum > 0 && sum == s.payments[id].amount)
            && (s.payments[id].status == FAILED ==> sum == 0)
  {
    RunKeepsInv(catalog, cs);
    assert RefundsFit(Run(catalog, cs).payments, Run(catalog, cs).refunds, id);
  }

  /** Carts hold one line per variant, and adding or changing an item moves that variant's quantity only. */
  lemma {:induction false} CartsStayTidy(catalog: map<VariantId, VariantInfo>, cs: seq<Command>, user: UserId,
                                         v: VariantId, quantity: int, x: VariantId)
    requires AllWellFormed(cs) && quantity > 0
    ensures var s := Run(catalog, cs);
            var (add, update) := (AddItem(s, user, v, quantity), UpdateItem(s, user, v, quantity));
            && OneLinePerVariant(CartOf(s, user)) && Positive(CartOf(s, user))
            && (add.reply.Ok? ==> Quantity(CartOf(add.shop, user), x) ==
                                  Quantity(CartOf(s, user), x) + (if x == v then quantity else 0))
            && (update.reply.Ok? ==> Quantity(CartOf(update.shop, user), x) ==
                                     if x == v then quantity else Quantity(CartOf(s, user), x))
  {
    RunKeepsInv(catalog, cs);
    var s := Run(catalog, cs);
    QuantitiesAfter(CartOf(s, user), v, Quantity(CartOf(s, user), v) + quantity, x);
    QuantitiesAfter(CartOf(s, user), v, quantity, x);
  }

  lemma {:induction false} QuantitiesAfter(lines: seq<Line>, v: VariantId, quantity: int, x: VariantId)
    requires OneLinePerVariant(lines) && Positive(lines)
    ensures Quantity(WithLine(lines, v, quantity), x) == if x == v then quantity else Quantity(lines, x)
  {
    WithLineMeaning(lines, v, quantity);
  }
}
