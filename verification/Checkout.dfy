/** Order creation: when it commits, what it changes, and what it leaves alone. */
module Checkout {
  import opened Common
  import opened OrderRules
  import opened Ledger
  import opened Money
  import opened Commerce
  import opened ShopInvariants
  import opened ShopRuns
  import opened ReservationBalance

  ghost predicate InStock(s: Stock, lines: seq<Line>, w: WarehouseId) {
    forall i :: 0 <= i < |lines| ==> Available(s, StockKey(lines[i].variant, w)) >= lines[i].quantity
  }

  /** The transaction commits exactly when the coupon, if any, is still redeemable and every line is in stock. */
  lemma PlacementCommitsIff(s: Shop, d: Draft, id: OrderId)
    requires AllPriced(d.lines, d.prices) && OneLinePerVariant(d.lines) && id !in s.orders
    ensures PlaceOrder(s, d, id).reply.Ok? <==>
            && (d.coupon.Some? ==> Redeemable(s.coupons, d.coupon.value))
            && InStock(s.stock, d.lines, d.warehouse)
    ensures PlaceOrder(s, d, id).reply.Err? ==> PlaceOrder(s, d, id) == Outcome(s, Err(Conflict))
  {
    ReserveLinesSucceedsIff(s.stock, d.lines, d.warehouse, id);
  }

  /** A committed order holds its lines in stock once, empties the cart, and counts once against its coupon. */
  lemma PlacementEffect(s: Shop, d: Draft, id: OrderId, key: StockKey, code: CouponCode)
    requires Inv(s) && AllPriced(d.lines, d.prices) && PlaceOrder(s, d, id).reply.Ok?
    ensures var t := PlaceOrder(s, d, id).shop;
            && At(t.stock, key).onHand == At(s.stock, key).onHand
            && At(t.stock, key).reserved == At(s.stock, key).reserved +
               (if key.warehouse == d.warehouse then Quantity(d.lines, key.variant) else 0)
            && CartOf(t, d.user) == []
            && (forall user :: user != d.user ==> CartOf(t, user) == CartOf(s, user))
            && t.orders.Keys == s.orders.Keys + {id} && id !in s.orders
            && LinesOf(t.orders[id].items) == d.lines && t.orders[id].status == PENDING_PAYMENT
            && (forall k :: k in s.orders ==> t.orders[k] == s.orders[k])
            && t.coupons.Keys == s.coupons.Keys
            && (code in s.coupons ==>
                  t.coupons[code] == s.coupons[code].(usedCount := t.coupons[code].usedCount)
                  && t.coupons[code].usedCount == s.coupons[code].usedCount + (if d.coupon == Some(code) then 1 else 0))
            && t.payments == s.payments && t.refunds == s.refunds
  {
    var t := PlaceOrder(s, d, id).shop;
    StockReservedOnce(s.stock, d.lines, d.warehouse, id, key);
    assert LinesOf(NewOrder(d).items) == d.lines;
  }

  lemma {:induction false} StockReservedOnce(s: Stock, lines: seq<Line>, w: WarehouseId, id: OrderId, key: StockKey)
    requires StockOk(s) && ReserveLines(s, lines, w, id).Some?
    ensures var t := ReserveLines(s, lines, w, id).value;
            && At(t, key).onHand == At(s, key).onHand
            && At(t, key).reserved == At(s, key).reserved +
               (if key.warehouse == w then Quantity(lines, key.variant) else 0)
  {
    ReserveLinesLogs(s, lines, w, id);
    ReservedAfterLogging(s, ReserveLines(s, lines, w, id).value, RESERVE, lines, w, id, key);
    OnHandUntouched(s, lines, w, id, key);
  }

  lemma {:induction false} OnHandUntouched(s: Stock, lines: seq<Line>, w: WarehouseId, id: OrderId, key: StockKey)
    requires ReserveLines(s, lines, w, id).Some?
    ensures At(ReserveLines(s, lines, w, id).value, key).onHand == At(s, key).onHand
    decreases |lines|
  {
    if lines == [] {
    } else {
      var k := StockKey(lines[0].variant, w);
      OnHandUntouched(Reserved(s, k, lines[0].quantity, id), lines[1..], w, id, key);
    }
  }

  /** Nothing about the coupon speaks against it, at this time and for this subtotal. */
  predicate CouponOpen(coupons: map<CouponCode, Coupon>, code: CouponCode, subtotal: int, now: int) {
    && code in coupons
    && var c := coupons[code];
       && c.isActive
       && !(c.startsAt.Some? && now < c.startsAt.value) && !(c.expiresAt.Some? && now > c.expiresAt.value)
       && !(c.maxUses.Some? && c.usedCount >= c.maxUses.value)
       && !(c.minOrderTotal.Some? && subtotal < c.minOrderTotal.value)
  }

  /** What createFromCart asks for, all told, when the idempotency key is new. */
  ghost predicate CanCheckOut(s: Shop, r: CreateRequest) {
    var lines := CartOf(s, r.user);
    && lines != [] && AllPriced(lines, r.prices) && s.warehouse.Some?
    && (r.coupon.Some? ==> CouponOpen(s.coupons, r.coupon.value, Subtotal(Pricing(lines, r.prices)), r.now))
    && InStock(s.stock, lines, s.warehouse.value)
  }

  /** In every reachable state, checking out with a new key succeeds exactly under these conditions, and otherwise
      changes nothing at all and names the first one that fails. */
  lemma CheckoutSucceedsIff(s: Shop, r: CreateRequest, id: OrderId)
    requires Inv(s) && !KeyUsed(s, r.key) && id !in s.orders
    ensures var (t, reply) := (CreateFromCart(s, r, id).shop, CreateFromCart(s, r, id).reply);
            var lines := CartOf(s, r.user);
            && (reply.Ok? <==> CanCheckOut(s, r))
            && (reply.Ok? ==> reply.value == id) && (reply.Err? ==> t == s)
            && (lines == [] ==> reply == Err(BadRequest))
            && (lines != [] && !AllPriced(lines, r.prices) ==> reply == Err(Conflict))
            && (lines != [] && AllPriced(lines, r.prices) ==>
                  && (reply == Err(NotFound) <==> s.warehouse.None?)
                  && (reply == Err(BadRequest) <==>
                        && s.warehouse.Some? && r.coupon.Some?
                        && !CouponOpen(s.coupons, r.coupon.value, Subtotal(Pricing(lines, r.prices)), r.now))
                  && (reply.Ok? || reply.error in {NotFound, BadRequest, Conflict}))
  {
    var lines := CartOf(s, r.user);
    assert r.user in s.carts ==> OneLinePerVariant(s.carts[r.user]);
    if AllPriced(lines, r.prices) && s.warehouse.Some? && (r.coupon.Some? ==> r.coupon.value in s.coupons) {
      PlacementCommitsIff(s, DraftFor(s, r, lines, Subtotal(Pricing(lines, r.prices))), id);
    }
  }

  /** Sending the same request again with the same key returns the first order and changes nothing. */
  lemma CheckoutIsIdempotent(s: Shop, r: CreateRequest, id: OrderId, again: CreateRequest, id2: OrderId)
    requires Inv(s) && WellFormed(DoCreateOrder(r, id))
    requires r.key.Some? && again.key == r.key && CreateFromCart(s, r, id).reply.Ok?
    ensures var first := CreateFromCart(s, r, id);
            CreateFromCart(first.shop, again, id2) == first
  {
    var first := CreateFromCart(s, r, id);
    CreateFromCartKeepsInv(s, r, id);
    var placed := first.reply.value;
    assert placed in first.shop.orders && first.shop.orders[placed].key == r.key;
    var found := OrderWithKey(first.shop, again.key);
    assert first.shop.orders[found].key == first.shop.orders[placed].key;
  }

  // ---------- Payments ----------

  /** pay marks a waiting order paid exactly when it is PENDING_PAYMENT and a default warehouse exists. */
  lemma PayGoesThroughIff(s: Shop, order: OrderId, key: Option<string>, id: PaymentId)
    requires Inv(s) && !PaymentKeyUsed(s, key) && id !in s.payments && order in s.orders
    ensures var t := Pay(s, order, false, key, id);
            && (t.reply.Ok? <==> s.orders[order].status == PENDING_PAYMENT && s.warehouse.Some?)
            && (t.reply.Ok? ==> t.shop.orders[order].status == PAID && t.shop.stock == s.stock)
  {
  }

  /** A failed call changes nothing exactly when the order is unknown or not waiting for a payment. In every other
      failure, whatever refused the new status, the payment row stays, and the same key then reports success. */
  lemma FailedPayLeavesRowIff(s: Shop, order: OrderId, simulateFailure: bool, key: Option<string>, id: PaymentId)
    requires Inv(s) && !PaymentKeyUsed(s, key) && id !in s.payments
    requires Pay(s, order, simulateFailure, key, id).reply.Err?
    ensures var t := Pay(s, order, simulateFailure, key, id).shop;
            && (t == s <==> order !in s.orders || s.orders[order].status !in {PENDING_PAYMENT, PAYMENT_FAILED})
            && (t != s ==>
                  && LeavesPayment(s, t, order, simulateFailure, id)
                  && (key.Some? ==> Pay(t, order, simulateFailure, key, id) == Outcome(t, Ok(id))))
  {
    var t := Pay(s, order, simulateFailure, key, id).shop;
    PayKeepsInv(s, order, simulateFailure, key, id);
    if t != s {
      assert id in t.payments && id !in s.payments;
      if key.Some? {
        assert t.payments[id].key == key;
        var found := PaymentWithKey(t, key);
        assert t.payments[found].key == t.payments[id].key;
      }
    }
  }

  /** One payment row is new, and nothing else has changed. */
  ghost predicate LeavesPayment(s: Shop, t: Shop, order: OrderId, simulateFailure: bool, id: PaymentId) {
    && id in t.payments && t.payments[id].order == order
    && t.payments[id].status == (if simulateFailure then FAILED else SUCCEEDED)
    && t == s.(payments := t.payments) && t.payments == s.payments[id := t.payments[id]]
  }

  /** What refuses the new status of a waiting order: its old one, a missing default warehouse, or, when a failed
      payment releases the stock, a row that is not there. */
  lemma PayFailsIff(s: Shop, order: OrderId, simulateFailure: bool, key: Option<string>, id: PaymentId)
    requires Inv(s) && !PaymentKeyUsed(s, key) && id !in s.payments
    requires order in s.orders && s.orders[order].status in {PENDING_PAYMENT, PAYMENT_FAILED}
    ensures var reply := Pay(s, order, simulateFailure, key, id).reply;
            && (reply == Err(Conflict) <==> s.orders[order].status == PAYMENT_FAILED)
            && (reply == Err(NotFound) <==> s.orders[order].status == PENDING_PAYMENT && s.warehouse.None?)
            && (reply == Err(DatabaseError) <==>
                  && s.orders[order].status == PENDING_PAYMENT && s.warehouse.Some? && simulateFailure
                  && RowMissing(s.stock, LinesOf(s.orders[order].items), s.warehouse.value))
            && (reply.Ok? || reply.error in {Conflict, NotFound, DatabaseError})
  {
    if s.warehouse.Some? {
      MoveFailsIff(s.stock, RELEASE, LinesOf(s.orders[order].items), s.warehouse.value, order);
    }
  }

  /** On a PAYMENT_FAILED order pay always reports an error, yet leaves its payment row behind and nothing else. */
  lemma PayAfterFailureLeavesRow(s: Shop, order: OrderId, simulateFailure: bool, key: Option<string>, id: PaymentId)
    requires Inv(s) && !PaymentKeyUsed(s, key) && id !in s.payments
    requires order in s.orders && s.orders[order].status == PAYMENT_FAILED
    ensures var t := Pay(s, order, simulateFailure, key, id);
            && t.reply == Err(Conflict) && LeavesPayment(s, t.shop, order, simulateFailure, id)
            && (key.Some? ==> Pay(t.shop, order, simulateFailure, key, id) == Outcome(t.shop, Ok(id)))
  {
    FailedPayLeavesRowIff(s, order, simulateFailure, key, id);
  }

  /** So it does on a PENDING_PAYMENT order while no warehouse is the default one: the order keeps waiting, and a
      repeated key reports success. */
  lemma PayWithoutWarehouseLeavesRow(s: Shop, order: OrderId, simulateFailure: bool, key: Option<string>, id: PaymentId)
    requires Inv(s) && !PaymentKeyUsed(s, key) && id !in s.payments
    requires order in s.orders && s.orders[order].status == PENDING_PAYMENT && s.warehouse.None?
    ensures var t := Pay(s, order, simulateFailure, key, id);
            && t.reply == Err(NotFound) && LeavesPayment(s, t.shop, order, simulateFailure, id)
            && t.shop.orders[order].status == PENDING_PAYMENT
            && (key.Some? ==> Pay(t.shop, order, simulateFailure, key, id) == Outcome(t.shop, Ok(id)))
  {
    FailedPayLeavesRowIff(s, order, simulateFailure, key, id);
  }

  ghost predicate RowMissing(s: Stock, lines: seq<Line>, w: WarehouseId) {
    exists i :: 0 <= i < |lines| && StockKey(lines[i].variant, w) !in s.rows
  }

  /** Releasing and deducting need every row; returning needs none. */
  lemma {:induction false} MoveFailsIff(s: Stock, kind: Kind, lines: seq<Line>, w: WarehouseId, id: OrderId)
    requires kind in {RELEASE, DEDUCT, RETURN}
    ensures MoveLines(s, kind, lines, w, id).None? <==> kind != RETURN && RowMissing(s, lines, w)
    decreases |lines|
  {
    if lines == [] {
    } else {
      var moved := MoveLine(s, kind, StockKey(lines[0].variant, w), lines[0].quantity, id);
      if moved.Some? {
        MoveFailsIff(moved.value, kind, lines[1..], w, id);
        if kind != RETURN {
          assert moved.value.rows.Keys == s.rows.Keys;
          SkipFirst(s, moved.value, lines, w);
        }
      }
    }
  }

  lemma SkipFirst(s: Stock, t: Stock, lines: seq<Line>, w: WarehouseId)
    requires lines != [] && t.rows.Keys == s.rows.Keys && StockKey(lines[0].variant, w) in s.rows
    ensures RowMissing(t, lines[1..], w) <==> RowMissing(s, lines, w)
  {
    if i :| 0 <= i < |lines| && StockKey(lines[i].variant, w) !in s.rows {
      assert lines[1..][i - 1] == lines[i];
    }
    if i :| 0 <= i < |lines[1..]| && StockKey(lines[1..][i].variant, w) !in t.rows {
      assert lines[i + 1] == lines[1..][i];
    }
  }
}
