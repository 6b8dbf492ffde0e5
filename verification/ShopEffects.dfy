/** Single calls: exactly when each goes through, what it replies otherwise, and which rows it then writes. */
module ShopEffects {
  import opened Common
  import opened OrderRules
  import opened Ledger
  import opened Money
  import opened Commerce
  import opened ShopInvariants
  import opened ReservationBalance
  import opened Checkout
  import opened ShopRecords

  // ---------- Inventory ----------

  /** One movement is new, its row has changed by these amounts, and nothing else has changed. */
  ghost predicate Posted(s: Shop, t: Shop, m: Movement, onHand: int, reserved: int) {
    && t == s.(stock := t.stock)
    && t.stock.movements == s.stock.movements + [m]
    && t.stock.rows.Keys == s.stock.rows.Keys + {m.key}
    && forall k :: At(t.stock, k) ==
         if k == m.key then StockRow(At(s.stock, k).onHand + onHand, At(s.stock, k).reserved + reserved)
         else At(s.stock, k)
  }

  /** A receipt goes to the warehouse named, or else to the default one, and brings the quantity asked for. */
  lemma ReceiveEffect(s: Shop, v: VariantId, at: Option<WarehouseId>, quantity: int)
    ensures var (t, reply) := (Receive(s, v, at, quantity).shop, Receive(s, v, at, quantity).reply);
            && (reply.Ok? <==> v in s.catalog && Whole(s.catalog, v, quantity) && (at.Some? || s.warehouse.Some?))
            && (reply == Err(BadRequest) <==> !Whole(s.catalog, v, quantity))
            && (reply.Err? ==> t == s && reply.error in {BadRequest, NotFound})
            && (reply.Ok? ==>
                  var key := StockKey(v, if at.Some? then at.value else s.warehouse.value);
                  Posted(s, t, Movement(RECEIPT, key, quantity, None), quantity, 0))
  {
  }

  /** An adjustment changes the quantity on hand at that row by the amount asked for, but never below what is
      reserved there. */
  lemma AdjustEffect(s: Shop, v: VariantId, at: Option<WarehouseId>, delta: int)
    ensures var (t, reply) := (Adjust(s, v, at, delta).shop, Adjust(s, v, at, delta).reply);
            var known := v in s.catalog && Whole(s.catalog, v, delta) && (at.Some? || s.warehouse.Some?);
            && (known ==>
                  var key := StockKey(v, if at.Some? then at.value else s.warehouse.value);
                  var room := At(s.stock, key).onHand - At(s.stock, key).reserved;
                  && (reply.Ok? <==> -delta <= room) && (reply == Err(Conflict) <==> -delta > room)
                  && (reply.Ok? ==> Posted(s, t, Movement(ADJUSTMENT, key, delta, None), delta, 0)))
            && (reply == Err(BadRequest) <==> !Whole(s.catalog, v, delta))
            && (!known ==> reply.Err? && reply.error in {BadRequest, NotFound})
            && (reply.Err? ==> t == s)
  {
  }

  // ---------- Status changes ----------

  datatype Change = Change(onHand: int, reserved: int)

  /** What a status change does to a row, for every unit of the order's lines. */
  function ChangeBy(from: Status, to: Status): Change {
    match to
    case CONFIRMED => Change(-1, -1)
    case PAYMENT_FAILED => Change(0, -1)
    case RETURN_REQUESTED => Change(1, 0)
    case CANCELLED =>
      if from in {PENDING_PAYMENT, PAID} then Change(0, -1)
      else if from in {CONFIRMED, PROCESSING} then Change(1, 0)
      else Change(0, 0)
    case _ => Change(0, 0)
  }

  lemma {:induction false} RowAfterLogging(s: Stock, t: Stock, kind: Kind, lines: seq<Line>, w: WarehouseId,
                                           id: OrderId, key: StockKey)
    requires Explained(s) && Explained(t) && t.movements == s.movements + Logged(kind, lines, w, id)
    ensures var q := if key.warehouse == w then Quantity(lines, key.variant) else 0;
            At(t, key) == StockRow(At(s, key).onHand + OnHandSign(kind) * q,
                                   At(s, key).reserved + ReservedSign(kind) * q)
  {
    ReservedAfterLogging(s, t, kind, lines, w, id, key);
    assert At(s, key) == StockRow(Sum(s.movements, OnHandAt(key)), Sum(s.movements, ReservedAt(key)));
    assert At(t, key) == StockRow(Sum(t.movements, OnHandAt(key)), Sum(t.movements, ReservedAt(key)));
    if key.warehouse == w {
      SumLogged(s.movements, kind, lines, w, id, OnHandAt(key), key.variant, OnHandSign(kind));
    } else {
      SumLoggedElsewhere(s.movements, kind, lines, w, id, OnHandAt(key));
    }
  }

  lemma {:induction false} KindOfChange(from: Status, to: Status)
    requires CanTransition(from, to) && from != DRAFT
    ensures var kind := KindFor(PhaseFor(from), PhaseFor(to));
            ChangeBy(from, to) ==
              if kind.Some? then Change(OnHandSign(kind.value), ReservedSign(kind.value)) else Change(0, 0)
  {
  }

  /** A status change moves the order's lines at the default warehouse by the change its two statuses call for, and
      nothing anywhere else. */
  lemma {:induction false} StatusMovesStock(s: Shop, id: OrderId, to: Status, key: StockKey)
    requires Inv(s) && UpdateStatus(s, id, to).reply.Ok?
    ensures var t := UpdateStatus(s, id, to).shop;
            var (o, change) := (s.orders[id], ChangeBy(s.orders[id].status, to));
            var q := if Some(key.warehouse) == s.warehouse then Quantity(LinesOf(o.items), key.variant) else 0;
            && At(t.stock, key) ==
               StockRow(At(s.stock, key).onHand + change.onHand * q, At(s.stock, key).reserved + change.reserved * q)
            && (change == Change(0, 0) ==> t.stock == s.stock)
  {
    var (o, w, t) := (s.orders[id], s.warehouse.value, UpdateStatus(s, id, to).shop);
    assert OrderOk(o);
    HistoryTells(o.history);
    KindOfChange(o.status, to);
    MovedStockLogs(s.stock, LinesOf(o.items), PhaseFor(o.status), PhaseFor(to), w, id);
    var kind := KindFor(PhaseFor(o.status), PhaseFor(to));
    if kind.Some? {
      RowAfterLogging(s.stock, t.stock, kind.value, LinesOf(o.items), w, id, key);
    }
  }

  /** It writes the order's status and its history, and nothing else. */
  lemma {:induction false} StatusWritesOrder(s: Shop, id: OrderId, to: Status)
    requires UpdateStatus(s, id, to).reply.Ok?
    ensures var (t, o) := (UpdateStatus(s, id, to).shop, s.orders[id]);
            && t == s.(stock := t.stock, orders := t.orders)
            && t.orders == s.orders[id := o.(status := to, history := o.history + [Entry(Some(o.status), to)])]
  {
  }

  /** Which status changes go through, and what refuses the others. Taking stock out of a row needs that row. */
  lemma {:induction false} StatusReplies(s: Shop, id: OrderId, to: Status)
    requires Inv(s)
    ensures var (t, reply) := (UpdateStatus(s, id, to).shop, UpdateStatus(s, id, to).reply);
            && (id !in s.orders ==> reply == Err(NotFound))
            && (id in s.orders ==>
                  var o := s.orders[id];
                  && (reply == Err(Conflict) <==> !CanTransition(o.status, to))
                  && (reply == Err(NotFound) <==> CanTransition(o.status, to) && s.warehouse.None?)
                  && (reply == Err(DatabaseError) <==>
                        && CanTransition(o.status, to) && s.warehouse.Some? && ChangeBy(o.status, to).reserved < 0
                        && RowMissing(s.stock, LinesOf(o.items), s.warehouse.value))
                  && (reply.Ok? || reply.error in {Conflict, NotFound, DatabaseError}))
            && (reply.Err? ==> t == s)
  {
    if id in s.orders && CanTransition(s.orders[id].status, to) && s.warehouse.Some? {
      var (o, w) := (s.orders[id], s.warehouse.value);
      assert OrderOk(o);
      HistoryTells(o.history);
      KindOfChange(o.status, to);
      var kind := KindFor(PhaseFor(o.status), PhaseFor(to));
      if kind.Some? {
        MoveFailsIff(s.stock, kind.value, LinesOf(o.items), w, id);
      }
    }
  }

  /** The stock-release job cancels the order exactly when it still waits for its payment, and then gives back what
      the order held; it leaves every other order alone. */
  lemma {:induction false} TimeoutEffect(s: Shop, id: OrderId, key: StockKey)
    requires Inv(s)
    ensures id !in s.orders ==> Timeout(s, id) == Outcome(s, Err(NotFound))
    ensures id in s.orders ==>
            var (t, reply) := (Timeout(s, id).shop, Timeout(s, id).reply);
            var (o, w) := (s.orders[id], s.warehouse);
            && (o.status != PENDING_PAYMENT ==> t == s && reply.Ok?)
            && (o.status == PENDING_PAYMENT ==>
                  (reply.Ok? <==> w.Some? && !RowMissing(s.stock, LinesOf(o.items), w.value)))
            && (o.status == PENDING_PAYMENT && reply.Ok? ==>
                  && t.orders[id].status == CANCELLED && At(t.stock, key).onHand == At(s.stock, key).onHand
                  && At(t.stock, key).reserved == At(s.stock, key).reserved -
                     (if Some(key.warehouse) == w then Quantity(LinesOf(o.items), key.variant) else 0))
            && (reply.Err? ==> t == s)
            && (forall k :: k in s.orders && k != id ==> t.orders[k] == s.orders[k])
  {
    if id in s.orders {
      EnteredFrom(s.orders[id].status, CANCELLED);
      StatusReplies(s, id, CANCELLED);
      if UpdateStatus(s, id, CANCELLED).reply.Ok? {
        StatusMovesStock(s, id, CANCELLED, key);
        StatusWritesOrder(s, id, CANCELLED);
      }
    }
  }

  // ---------- Carts ----------

  /** Only this user's cart has changed. */
  ghost predicate OnlyCart(s: Shop, t: Shop, user: UserId) {
    t == s.(carts := t.carts) && t.carts == s.carts[user := CartOf(t, user)]
  }

  /** In a cart whose lines have been checked, the sum of the quantities passes whenever the added one does. */
  lemma {:induction false} AddItemEffect(s: Shop, user: UserId, v: VariantId, quantity: int)
    requires Inv(s) && RecordsOk(s) && quantity > 0
    ensures var (t, reply) := (AddItem(s, user, v, quantity).shop, AddItem(s, user, v, quantity).reply);
            && (reply.Ok? <==> v in s.catalog && s.catalog[v].available && Orderable(s.catalog, Line(v, quantity)))
            && (reply == Err(NotFound) <==> v !in s.catalog)
            && (reply.Err? ==> t == s && reply.error in {NotFound, BadRequest})
            && (reply.Ok? ==>
                  && OnlyCart(s, t, user)
                  && forall x :: Quantity(CartOf(t, user), x) ==
                                 Quantity(CartOf(s, user), x) + (if x == v then quantity else 0))
  {
    var lines := CartOf(s, user);
    assert OneLinePerVariant(lines) && Positive(lines) && AllOrderable(s.catalog, lines);
    PositiveQuantity(lines, v);
    QuantityIsWhole(s.catalog, lines, v);
    WithLineMeaning(lines, v, Quantity(lines, v) + quantity);
  }

  lemma {:induction false} QuantityIsWhole(catalog: Catalog, lines: seq<Line>, v: VariantId)
    requires AllOrderable(catalog, lines)
    ensures Whole(catalog, v, Quantity(lines, v))
  {
    if lines == [] {
    } else {
      assert Orderable(catalog, lines[0]);
      assert forall i :: 0 <= i < |lines| - 1 ==> lines[1..][i] == lines[i + 1];
      QuantityIsWhole(catalog, lines[1..], v);
    }
  }

  lemma {:induction false} UpdateItemEffect(s: Shop, user: UserId, v: VariantId, quantity: int)
    requires Inv(s) && RecordsOk(s) && quantity >= 0
    ensures var (t, reply) := (UpdateItem(s, user, v, quantity).shop, UpdateItem(s, user, v, quantity).reply);
            && (reply == Err(NotFound) <==> !HasLine(CartOf(s, user), v))
            && (reply.Ok? <==>
                  && HasLine(CartOf(s, user), v)
                  && (quantity == 0 || (s.catalog[v].available && Orderable(s.catalog, Line(v, quantity)))))
            && (reply.Err? ==> t == s && reply.error in {NotFound, BadRequest})
            && (reply.Ok? ==>
                  && OnlyCart(s, t, user) && (HasLine(CartOf(t, user), v) <==> quantity > 0)
                  && forall x :: Quantity(CartOf(t, user), x) ==
                                 if x == v then quantity else Quantity(CartOf(s, user), x))
  {
    var lines := CartOf(s, user);
    assert OneLinePerVariant(lines) && Positive(lines) && AllOrderable(s.catalog, lines);
    WithoutLineMeaning(lines, v);
    WithLineMeaning(lines, v, quantity);
    if i :| 0 <= i < |lines| && lines[i].variant == v {
      assert Orderable(s.catalog, lines[i]);
    }
  }

  // ---------- Order creation ----------

  /** Rounded to the nearest multiple of `unit`, halves up. */
  predicate Nearest(rounded: int, exact: int, unit: int) {
    -unit < 2 * (unit * rounded - exact) <= unit
  }

  /** A line of the order: the line of the cart at the price of the request, and its rounded total. */
  ghost predicate ItemFor(item: OrderItem, line: Line, prices: map<VariantId, int>) {
    && item.variant == line.variant && item.quantity == line.quantity
    && line.variant in prices && item.unitPrice == prices[line.variant]
    && Nearest(item.lineTotal, item.unitPrice * item.quantity, 1000)
  }

  /** What createFromCart writes into the new order. */
  lemma {:induction false} CheckoutEffect(s: Shop, r: CreateRequest, id: OrderId)
    requires Inv(s) && !KeyUsed(s, r.key) && CreateFromCart(s, r, id).reply.Ok?
    ensures var (t, lines) := (CreateFromCart(s, r, id).shop, CartOf(s, r.user));
            && id !in s.orders && t.orders == s.orders[id := t.orders[id]]
            && var o := t.orders[id];
               && o.user == r.user && o.coupon == r.coupon && o.key == r.key
               && o.status == PENDING_PAYMENT && o.history == [Entry(None, PENDING_PAYMENT)]
               && |o.items| == |lines| && (forall i :: 0 <= i < |lines| ==> ItemFor(o.items[i], lines[i], r.prices))
               && AllPriced(lines, r.prices) && Nearest(o.subtotal, Exact(Pricing(lines, r.prices)), 1000)
               && o.total == o.subtotal - o.discount
               && s.warehouse.Some? && t.homes == s.homes[id := s.warehouse.value]
  {
    var lines := CartOf(s, r.user);
    var o := CreateFromCart(s, r, id).shop.orders[id];
    forall i | 0 <= i < |lines|
      ensures ItemFor(o.items[i], lines[i], r.prices)
    {
      RoundsToNearest(o.items[i].unitPrice * o.items[i].quantity);
    }
    RoundsToNearest(Exact(Pricing(lines, r.prices)));
  }

  lemma RoundsToNearest(n: int)
    ensures Nearest(Round(n, 1000), n, 1000)
  {
  }

  // ---------- Coupons ----------

  lemma CreateCouponEffect(s: Shop, code: CouponCode, coupon: Coupon)
    ensures var (t, reply) := (CreateCoupon(s, code, coupon).shop, CreateCoupon(s, code, coupon).reply);
            && (reply == Err(BadRequest) <==> coupon.kind == PERCENTAGE && coupon.value > 10000)
            && (reply.Ok? <==> reply != Err(BadRequest) && code !in s.coupons)
            && (reply.Err? ==> t == s && reply.error in {BadRequest, Conflict})
            && (reply.Ok? ==> t == s.(coupons := s.coupons[code := coupon.(usedCount := 0)]))
  {
  }

  /** The field takes the value given for it, if one is given. */
  predicate Takes<T(==)>(after: Option<T>, before: Option<T>, given: Option<T>) {
    (given.Some? ==> after == given) && (given.None? ==> after == before)
  }

  lemma UpdateCouponEffect(s: Shop, code: CouponCode, p: CouponPatch)
    ensures var (t, reply) := (UpdateCoupon(s, code, p).shop, UpdateCoupon(s, code, p).reply);
            && (code !in s.coupons ==> reply == Err(NotFound) && t == s)
            && (code in s.coupons ==>
                  var (c, u) := (s.coupons[code], t.coupons[code]);
                  && reply.Ok? && t == s.(coupons := s.coupons[code := u])
                  && u.kind == c.kind && u.value == c.value && u.usedCount == c.usedCount
                  && Takes(u.maxUses, c.maxUses, p.maxUses)
                  && Takes(u.minOrderTotal, c.minOrderTotal, p.minOrderTotal)
                  && Takes(u.startsAt, c.startsAt, p.startsAt) && Takes(u.expiresAt, c.expiresAt, p.expiresAt)
                  && Takes(Some(u.isActive), Some(c.isActive), p.isActive))
  {
  }

  // ---------- Payments ----------

  /** A payment is for the order's total; it is written, failed or not, exactly for an order that waits to be paid. */
  lemma {:induction false} PayEffect(s: Shop, order: OrderId, simulateFailure: bool, key: Option<string>, id: PaymentId)
    requires Inv(s) && !PaymentKeyUsed(s, key) && id !in s.payments
    ensures var (t, reply) := (Pay(s, order, simulateFailure, key, id).shop,
                               Pay(s, order, simulateFailure, key, id).reply);
            && (order !in s.orders ==> reply == Err(NotFound) && t == s)
            && (order in s.orders ==>
                  var o := s.orders[order];
                  && (o.status !in {PENDING_PAYMENT, PAYMENT_FAILED} ==> reply == Err(Conflict) && t == s)
                  && (o.status in {PENDING_PAYMENT, PAYMENT_FAILED} ==>
                        var p := Payment(order, o.total, if simulateFailure then FAILED else SUCCEEDED, key);
                        t.payments == s.payments[id := p])
                  && t == s.(payments := t.payments, stock := t.stock, orders := t.orders)
                  && (reply.Ok? ==>
                        && reply == Ok(id)
                        && t.orders[order].status == (if simulateFailure then PAYMENT_FAILED else PAID)
                        && t.orders == s.orders[order := t.orders[order]]))
  {
  }

  /** A refund is entered with the amount asked for, exactly when the payment still covers it; the payment reads
      REFUNDED exactly when nothing of it is left. */
  lemma {:induction false} RefundEffect(s: Shop, id: PaymentId, amount: int, k: PaymentId)
    requires Inv(s) && amount > 0
    ensures var (t, reply) := (MakeRefund(s, id, amount).shop, MakeRefund(s, id, amount).reply);
            && (reply == Err(NotFound) <==> id !in s.payments)
            && (reply.Ok? <==>
                  && id in s.payments && s.payments[id].status == SUCCEEDED
                  && RefundedSoFar(s.refunds, id) + amount <= s.payments[id].amount)
            && (reply.Err? ==> t == s && reply.error in {NotFound, BadRequest})
            && (reply.Ok? ==>
                  && t == s.(refunds := t.refunds, payments := t.payments)
                  && t.refunds == s.refunds + [Refund(id, amount)]
                  && RefundedSoFar(t.refunds, k) == RefundedSoFar(s.refunds, k) + (if k == id then amount else 0)
                  && t.payments == s.payments[id := s.payments[id].(status := t.payments[id].status)]
                  && t.payments[id].status in {SUCCEEDED, PAYMENT_REFUNDED}
                  && (t.payments[id].status == PAYMENT_REFUNDED <==>
                        RefundedSoFar(t.refunds, id) == s.payments[id].amount))
  {
    if MakeRefund(s, id, amount).reply.Ok? {
      var longer := MakeRefund(s, id, amount).shop.refunds;
      assert longer[..|s.refunds|] == s.refunds;
    }
  }
}
