/** Table invariants of the shop, one predicate a group of tables, and how the operations keep them. */
module ShopInvariants {
  import opened Common
  import opened OrderRules
  import opened Ledger
  import opened Money
  import opened Commerce

  // ---------- Stock ----------

  ghost predicate StockOk(s: Stock) {
    Explained(s) && Covered(s)
  }

  lemma PostKeepsStockOk(s: Stock, key: StockKey, onHand: int, reserved: int, m: Movement)
    requires StockOk(s) && Available(s, key) + onHand - reserved >= 0
    requires m.key == key && OnHandEffect(m) == onHand && ReservedEffect(m) == reserved
    ensures StockOk(Post(s, key, onHand, reserved, m))
  {
    PostKeepsExplained(s, key, onHand, reserved, m);
    PostKeepsCovered(s, key, onHand, reserved, m);
  }

  /** The kind of movement a change of phase logs, when it moves stock. */
  function KindFor(from: Phase, to: Phase): Option<Kind> {
    if from == RESERVED && to == NONE then Some(RELEASE)
    else if from == RESERVED && to == DEDUCTED then Some(DEDUCT)
    else if from == DEDUCTED && to == NONE then Some(RETURN)
    else None
  }

  lemma MovedStockLogs(s: Stock, lines: seq<Line>, from: Phase, to: Phase, w: WarehouseId, id: OrderId)
    requires StockOk(s) && Positive(lines)
    requires MovedStock(s, lines, from, to, w, id).Some?
    ensures var t := MovedStock(s, lines, from, to, w, id).value;
            && StockOk(t)
            && (KindFor(from, to).None? ==> t == s)
            && (KindFor(from, to).Some? ==> t.movements == s.movements + Logged(KindFor(from, to).value, lines, w, id))
  {
    if KindFor(from, to).Some? {
      MoveLinesLogs(s, KindFor(from, to).value, lines, w, id);
    }
  }

  // ---------- Orders ----------

  ghost predicate OrderOk(o: Order) {
    && o.items != [] && Positive(LinesOf(o.items))
    && IsHistory(o.history) && Last(o.history) == o.status
    && 0 <= o.discount <= o.subtotal && o.total == o.subtotal - o.discount
  }

  ghost predicate OrdersOk(orders: map<OrderId, Order>, homes: map<OrderId, WarehouseId>) {
    && homes.Keys == orders.Keys
    && forall id {:trigger OrderOk(orders[id])} :: id in orders ==> OrderOk(orders[id])
  }

  lemma OneOrderChanged(orders: map<OrderId, Order>, homes: map<OrderId, WarehouseId>, id: OrderId, o: Order,
                        w: WarehouseId)
    requires OrdersOk(orders, homes) && OrderOk(o)
    ensures OrdersOk(orders[id := o], homes[id := w])
  {
  }

  lemma WithStatusOk(o: Order, to: Status)
    requires OrderOk(o) && CanTransition(o.status, to)
    ensures OrderOk(WithStatus(o, to))
    ensures Retries(WithStatus(o, to).history) == Retries(o.history) + (if IsRetry(o.status, to) then 1 else 0)
  {
    Extend(o.history, to);
  }

  // ---------- Net stock effect of one order ----------

  function OrderReserved(id: OrderId, v: VariantId): Movement -> int {
    (m: Movement) => if m.order == Some(id) && m.key.variant == v then ReservedEffect(m) else 0
  }

  function OrderOnHand(id: OrderId, v: VariantId): Movement -> int {
    (m: Movement) => if m.order == Some(id) && m.key.variant == v then OnHandEffect(m) else 0
  }

  /** How often over an order's lines are held: once in the RESERVED phase, less one for every retry. */
  function Held(o: Order): int {
    (if PhaseFor(o.status) == RESERVED then 1 else 0) - Retries(o.history)
  }

  function Gone(o: Order): int {
    if PhaseFor(o.status) == DEDUCTED then 1 else 0
  }

  /** The movements of one order of one variant, over all warehouses, add up to what its status says. */
  ghost predicate NetOf(ms: seq<Movement>, orders: map<OrderId, Order>, id: OrderId, v: VariantId) {
    if id in orders then
      var q := Quantity(LinesOf(orders[id].items), v);
      Sum(ms, OrderReserved(id, v)) == Held(orders[id]) * q && Sum(ms, OrderOnHand(id, v)) == -Gone(orders[id]) * q
    else
      Sum(ms, OrderReserved(id, v)) == 0 && Sum(ms, OrderOnHand(id, v)) == 0
  }

  ghost predicate NetOk(ms: seq<Movement>, orders: map<OrderId, Order>) {
    forall id, v :: NetOf(ms, orders, id, v)
  }

  lemma NoOrderNetOk(ms: seq<Movement>, m: Movement, orders: map<OrderId, Order>)
    requires NetOk(ms, orders) && m.order.None?
    ensures NetOk(ms + [m], orders)
  {
    forall id, v
      ensures NetOf(ms + [m], orders, id, v)
    {
      assert NetOf(ms, orders, id, v);
      SumSnoc(ms, m, OrderReserved(id, v));
      SumSnoc(ms, m, OrderOnHand(id, v));
    }
  }

  /** What logging an order's lines adds to its own sums, and that it adds nothing to anybody else's. */
  lemma LoggedNet(ms: seq<Movement>, kind: Kind, lines: seq<Line>, w: WarehouseId, id: OrderId, k: OrderId,
                  v: VariantId)
    ensures var us := ms + Logged(kind, lines, w, id);
            && (k == id ==> Sum(us, OrderReserved(k, v)) ==
                            Sum(ms, OrderReserved(k, v)) + ReservedSign(kind) * Quantity(lines, v))
            && (k == id ==> Sum(us, OrderOnHand(k, v)) == Sum(ms, OrderOnHand(k, v)) +
                            OnHandSign(kind) * Quantity(lines, v))
            && (k != id ==> Sum(us, OrderReserved(k, v)) == Sum(ms, OrderReserved(k, v)))
            && (k != id ==> Sum(us, OrderOnHand(k, v)) == Sum(ms, OrderOnHand(k, v)))
  {
    if k == id {
      SumLogged(ms, kind, lines, w, id, OrderReserved(k, v), v, ReservedSign(kind));
      SumLogged(ms, kind, lines, w, id, OrderOnHand(k, v), v, OnHandSign(kind));
    } else {
      SumLoggedElsewhere(ms, kind, lines, w, id, OrderReserved(k, v));
      SumLoggedElsewhere(ms, kind, lines, w, id, OrderOnHand(k, v));
    }
  }

  function ReservedSign(kind: Kind): int {
    match kind
    case RESERVE => 1
    case RELEASE | DEDUCT => -1
    case _ => 0
  }

  function OnHandSign(kind: Kind): int {
    match kind
    case RECEIPT | ADJUSTMENT | RETURN => 1
    case DEDUCT => -1
    case _ => 0
  }

  lemma NewOrderNetOk(ms: seq<Movement>, orders: map<OrderId, Order>, id: OrderId, o: Order, w: WarehouseId)
    requires NetOk(ms, orders) && id !in orders && o.status == PENDING_PAYMENT && Retries(o.history) == 0
    ensures NetOk(ms + Logged(RESERVE, LinesOf(o.items), w, id), orders[id := o])
  {
    var us, after := ms + Logged(RESERVE, LinesOf(o.items), w, id), orders[id := o];
    forall k, v
      ensures NetOf(us, after, k, v)
    {
      assert NetOf(ms, orders, k, v);
      LoggedNet(ms, RESERVE, LinesOf(o.items), w, id, k, v);
    }
  }

  lemma StatusNetOf(ms: seq<Movement>, orders: map<OrderId, Order>, id: OrderId, to: Status, kind: Kind, w: WarehouseId,
                    k: OrderId, v: VariantId)
    requires NetOk(ms, orders) && id in orders && OrderOk(orders[id]) && CanTransition(orders[id].status, to)
    requires KindFor(PhaseFor(orders[id].status), PhaseFor(to)) == Some(kind)
    ensures NetOf(ms + Logged(kind, LinesOf(orders[id].items), w, id), orders[id := WithStatus(orders[id], to)], k, v)
  {
    var o := orders[id];
    var q := Quantity(LinesOf(o.items), v);
    assert NetOf(ms, orders, k, v);
    LoggedNet(ms, kind, LinesOf(o.items), w, id, k, v);
    if k == id {
      StatusDeltas(o, to, kind);
      Shift(q, Held(o), ReservedSign(kind), Held(WithStatus(o, to)));
      Shift(q, -Gone(o), OnHandSign(kind), -Gone(WithStatus(o, to)));
    }
  }

  lemma StatusDeltas(o: Order, to: Status, kind: Kind)
    requires OrderOk(o) && CanTransition(o.status, to) && KindFor(PhaseFor(o.status), PhaseFor(to)) == Some(kind)
    ensures Held(WithStatus(o, to)) == Held(o) + ReservedSign(kind)
    ensures -Gone(WithStatus(o, to)) == -Gone(o) + OnHandSign(kind)
  {
    WithStatusOk(o, to);
    PhaseMoves(o.status, to);
  }

  lemma Shift(q: int, a: int, d: int, b: int)
    requires b == a + d
    ensures b * q == a * q + d * q
  {
  }

  /** The stock movements of a status change are exactly what keeps the order's net effect in step with its status. */
  lemma StatusNetOk(ms: seq<Movement>, orders: map<OrderId, Order>, id: OrderId, to: Status, w: WarehouseId)
    requires NetOk(ms, orders) && id in orders && OrderOk(orders[id]) && CanTransition(orders[id].status, to)
    ensures var kind := KindFor(PhaseFor(orders[id].status), PhaseFor(to));
            NetOk(if kind.Some? then ms + Logged(kind.value, LinesOf(orders[id].items), w, id) else ms,
                  orders[id := WithStatus(orders[id], to)])
  {
    var o, after := orders[id], orders[id := WithStatus(orders[id], to)];
    var kind := KindFor(PhaseFor(o.status), PhaseFor(to));
    if kind.Some? {
      var us := ms + Logged(kind.value, LinesOf(o.items), w, id);
      forall k, v
        ensures NetOf(us, after, k, v)
      {
        StatusNetOf(ms, orders, id, to, kind.value, w, k, v);
      }
    } else {
      WithStatusOk(o, to);
      PhaseMoves(o.status, to);
      forall k, v
        ensures NetOf(ms, after, k, v)
      {
        assert NetOf(ms, orders, k, v);
      }
    }
  }

  // ---------- Carts ----------

  ghost predicate CartsOk(carts: map<UserId, seq<Line>>) {
    forall user {:trigger carts[user]} :: user in carts ==> OneLinePerVariant(carts[user]) && Positive(carts[user])
  }

  lemma {:induction false} WithLineMeaning(lines: seq<Line>, v: VariantId, quantity: int)
    requires OneLinePerVariant(lines) && Positive(lines)
    ensures var u := WithLine(lines, v, quantity);
            && OneLinePerVariant(u) && (quantity > 0 ==> Positive(u))
            && (forall x :: HasLine(u, x) <==> x == v || HasLine(lines, x))
            && (forall x :: Quantity(u, x) == if x == v then quantity else Quantity(lines, x))
  {
    var u := WithLine(lines, v, quantity);
    if lines == [] {
      assert u == [Line(v, quantity)] && u[1..] == [];
    } else {
      var first, rest := lines[0], lines[1..];
      OnlyLineOf(lines);
      assert forall x :: HasLine(lines, x) <==> first.variant == x || HasLine(rest, x) by {
        HasLineUnfolds(lines);
      }
      if first.variant == v {
        assert u[0] == Line(v, quantity) && u[1..] == rest;
      } else {
        WithLineMeaning(rest, v, quantity);
        assert u[0] == first && u[1..] == WithLine(rest, v, quantity);
        assert !HasLine(u[1..], first.variant);
        assert forall i :: 0 < i < |u| ==> u[i] == u[1..][i - 1];
      }
      HasLineUnfolds(u);
    }
  }

  lemma HasLineUnfolds(lines: seq<Line>)
    requires lines != []
    ensures forall x :: HasLine(lines, x) <==> lines[0].variant == x || HasLine(lines[1..], x)
  {
  }

  /** In a cart with one line per variant, the first line is the only one of its variant. */
  lemma OnlyLineOf(lines: seq<Line>)
    requires OneLinePerVariant(lines) && lines != []
    ensures !HasLine(lines[1..], lines[0].variant) && Quantity(lines[1..], lines[0].variant) == 0
  {
    assert !HasLine(lines[1..], lines[0].variant);
    NoLineNoQuantity(lines[1..], lines[0].variant);
  }

  lemma {:induction false} NoLineNoQuantity(lines: seq<Line>, v: VariantId)
    requires !HasLine(lines, v)
    ensures Quantity(lines, v) == 0
  {
    if lines == [] {
    } else {
      HasLineUnfolds(lines);
      NoLineNoQuantity(lines[1..], v);
      assert lines[0].variant == lines[0].variant;
    }
  }

  lemma {:induction false} PositiveQuantity(lines: seq<Line>, v: VariantId)
    requires Positive(lines)
    ensures Quantity(lines, v) >= 0
    ensures HasLine(lines, v) ==> Quantity(lines, v) > 0
  {
    if lines == [] {
    } else {
      HasLineUnfolds(lines);
      PositiveQuantity(lines[1..], v);
    }
  }

  lemma {:induction false} WithoutLineMeaning(lines: seq<Line>, v: VariantId)
    requires OneLinePerVariant(lines) && Positive(lines)
    ensures var u := WithoutLine(lines, v);
            && OneLinePerVariant(u) && Positive(u)
            && (forall x :: HasLine(u, x) <==> x != v && HasLine(lines, x))
            && (forall x :: Quantity(u, x) == if x == v then 0 else Quantity(lines, x))
  {
    if lines == [] {
    } else {
      var u, first, rest := WithoutLine(lines, v), lines[0], lines[1..];
      OnlyLineOf(lines);
      HasLineUnfolds(lines);
      if first.variant != v {
        WithoutLineMeaning(rest, v);
        assert u[0] == first && u[1..] == WithoutLine(rest, v);
        assert !HasLine(u[1..], first.variant);
        assert forall i :: 0 < i < |u| ==> u[i] == u[1..][i - 1];
        HasLineUnfolds(u);
      }
    }
  }


  // ---------- Coupons ----------

  ghost function OrdersWith(orders: map<OrderId, Order>, code: CouponCode): set<OrderId> {
    set id | id in orders && orders[id].coupon == Some(code)
  }

  ghost predicate CouponOk(coupons: map<CouponCode, Coupon>, orders: map<OrderId, Order>, code: CouponCode)
    requires code in coupons
  {
    var c := coupons[code];
    ValueAllowed(c.kind, c.value) && c.usedCount == |OrdersWith(orders, code)|
  }

  ghost predicate CouponKnown(coupons: map<CouponCode, Coupon>, o: Order) {
    o.coupon.Some? ==> o.coupon.value in coupons
  }

  /** Every coupon's usedCount is the number of orders that carry it. */
  ghost predicate CouponsOk(coupons: map<CouponCode, Coupon>, orders: map<OrderId, Order>) {
    && (forall code {:trigger CouponOk(coupons, orders, code)} :: code in coupons ==> CouponOk(coupons, orders, code))
    && (forall id {:trigger CouponKnown(coupons, orders[id])} :: id in orders ==> CouponKnown(coupons, orders[id]))
  }

  lemma StatusKeepsCouponsOk(coupons: map<CouponCode, Coupon>, orders: map<OrderId, Order>, id: OrderId, o: Order)
    requires CouponsOk(coupons, orders) && id in orders && o.coupon == orders[id].coupon
    ensures CouponsOk(coupons, orders[id := o])
  {
    var after := orders[id := o];
    forall code | code in coupons
      ensures CouponOk(coupons, after, code)
    {
      assert CouponOk(coupons, orders, code);
      assert OrdersWith(after, code) == OrdersWith(orders, code);
    }
    forall k | k in after
      ensures CouponKnown(coupons, after[k])
    {
      assert CouponKnown(coupons, orders[k]);
    }
  }

  lemma CouponWrittenOk(coupons: map<CouponCode, Coupon>, orders: map<OrderId, Order>, code: CouponCode, c: Coupon)
    requires CouponsOk(coupons, orders) && ValueAllowed(c.kind, c.value)
    requires c.usedCount == if code in coupons then coupons[code].usedCount else 0
    ensures CouponsOk(coupons[code := c], orders)
  {
    var after := coupons[code := c];
    forall id | id in orders
      ensures CouponKnown(after, orders[id])
      ensures CouponKnown(coupons, orders[id])
    {
      assert CouponKnown(coupons, orders[id]);
    }
    forall k | k in after
      ensures CouponOk(after, orders, k)
    {
      if k in coupons {
        assert CouponOk(coupons, orders, k);
      } else {
        assert OrdersWith(orders, k) == {};
      }
    }
  }

  lemma NewOrderKeepsCouponsOk(coupons: map<CouponCode, Coupon>, orders: map<OrderId, Order>, id: OrderId, o: Order)
    requires CouponsOk(coupons, orders) && id !in orders && CouponKnown(coupons, o)
    ensures CouponsOk(Redeemed(coupons, o.coupon), orders[id := o])
  {
    var redeemed, after := Redeemed(coupons, o.coupon), orders[id := o];
    forall code | code in redeemed
      ensures CouponOk(redeemed, after, code)
    {
      assert CouponOk(coupons, orders, code);
      assert OrdersWith(after, code) == OrdersWith(orders, code) + (if o.coupon == Some(code) then {id} else {});
    }
    forall k | k in after
      ensures CouponKnown(redeemed, after[k])
    {
      assert k != id ==> CouponKnown(coupons, orders[k]);
    }
  }

  // ---------- Payments and refunds ----------

  /** Refunds never exceed the payment; it reads REFUNDED exactly when they have used it up. */
  ghost predicate PaymentOk(p: Payment, refunded: int) {
    && 0 <= refunded <= p.amount
    && (p.status == PAYMENT_REFUNDED <==> refunded > 0 && refunded == p.amount)
    && (p.status == FAILED ==> refunded == 0)
  }

  ghost predicate RefundsFit(payments: map<PaymentId, Payment>, refunds: seq<Refund>, id: PaymentId) {
    if id in payments then PaymentOk(payments[id], RefundedSoFar(refunds, id)) else RefundedSoFar(refunds, id) == 0
  }

  ghost predicate PaymentsOk(payments: map<PaymentId, Payment>, refunds: seq<Refund>) {
    forall id :: RefundsFit(payments, refunds, id)
  }

  lemma NewPaymentOk(payments: map<PaymentId, Payment>, refunds: seq<Refund>, id: PaymentId, p: Payment)
    requires PaymentsOk(payments, refunds) && id !in payments && p.amount >= 0 && p.status != PAYMENT_REFUNDED
    ensures PaymentsOk(payments[id := p], refunds)
  {
    var after := payments[id := p];
    forall k
      ensures RefundsFit(after, refunds, k)
    {
      assert RefundsFit(payments, refunds, k);
    }
  }

  lemma RefundOk(payments: map<PaymentId, Payment>, refunds: seq<Refund>, id: PaymentId, amount: int, p: Payment)
    requires PaymentsOk(payments, refunds) && id in payments && amount > 0
    requires RefundedSoFar(refunds, id) + amount <= p.amount && p.amount == payments[id].amount
    requires p.status == if RefundedSoFar(refunds, id) + amount >= p.amount then PAYMENT_REFUNDED else SUCCEEDED
    ensures PaymentsOk(payments[id := p], refunds + [Refund(id, amount)])
  {
    var after, longer := payments[id := p], refunds + [Refund(id, amount)];
    forall k
      ensures RefundsFit(after, longer, k)
    {
      assert RefundsFit(payments, refunds, k);
      assert longer[..|refunds|] == refunds;
    }
  }

  // ---------- Idempotency keys ----------

  ghost predicate OrderKeysUnique(orders: map<OrderId, Order>) {
    forall a, b {:trigger orders[a].key, orders[b].key} ::
      a in orders && b in orders && orders[a].key.Some? && orders[a].key == orders[b].key ==> a == b
  }

  ghost predicate PaymentKeysUnique(payments: map<PaymentId, Payment>) {
    forall a, b {:trigger payments[a].key, payments[b].key} ::
      a in payments && b in payments && payments[a].key.Some? && payments[a].key == payments[b].key ==> a == b
  }

  // ---------- All of them ----------

  ghost predicate Inv(s: Shop) {
    && StockOk(s.stock)
    && OrdersOk(s.orders, s.homes)
    && NetOk(s.stock.movements, s.orders)
    && CartsOk(s.carts)
    && CouponsOk(s.coupons, s.orders)
    && PaymentsOk(s.payments, s.refunds)
    && OrderKeysUnique(s.orders)
    && PaymentKeysUnique(s.payments)
  }
}
