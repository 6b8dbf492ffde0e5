/** CartService, CouponsService, OrdersService, PaymentsService and the stock-release job, over the tables. */
module OrdersService {
  import opened Common
  import opened OrderRules
  import opened Ledger
  import opened Money
  import opened Commerce
  import opened ShopInvariants
  import opened Database
  import opened InventoryService

  class Carts {
    const db: Tables

    constructor (db: Tables)
      ensures this.db == db
    {
      this.db := db;
    }

    method ValidateQuantity(v: VariantId, quantity: int) returns (error: Option<Error>)
      ensures error == CartError(db.Snapshot(), v, quantity)
    {
      if v !in db.catalog {
        return Some(NotFound);
      }
      var variant := db.catalog[v];
      if !variant.available {
        return Some(BadRequest);
      }
      if !variant.fractional && quantity % 1000 != 0 {
        return Some(BadRequest);
      }
      if quantity < variant.minOrder {
        return Some(BadRequest);
      }
      return None;
    }

    /** The position of a variant's line, or the number of lines when there is none. */
    method Find(lines: seq<Line>, v: VariantId) returns (k: nat)
      ensures k <= |lines| && (k < |lines| ==> lines[k].variant == v)
      ensures forall i :: 0 <= i < k ==> lines[i].variant != v
    {
      k := 0;
      while k < |lines| && lines[k].variant != v
        invariant k <= |lines| && forall i :: 0 <= i < k ==> lines[i].variant != v
      {
        k := k + 1;
      }
    }

    method AddItem(user: UserId, v: VariantId, quantity: int) returns (r: Result<()>)
      requires CartsOk(db.carts)
      modifies db`carts
      ensures Outcome(db.Snapshot(), r) == Commerce.AddItem(old(db.Snapshot()), user, v, quantity)
    {
      var error := ValidateQuantity(v, quantity);
      if error.Some? {
        return Err(error.value);
      }
      var lines := if user in db.carts then db.carts[user] else [];
      assert OneLinePerVariant(lines);
      var k := Find(lines, v);
      LineAt(lines, v, k);
      var newQuantity := (if k < |lines| then lines[k].quantity else 0) + quantity;
      error := ValidateQuantity(v, newQuantity);
      if error.Some? {
        return Err(error.value);
      }
      db.carts := db.carts[user := lines[..k] + [Line(v, newQuantity)] + (if k < |lines| then lines[k + 1..] else [])];
      WithLineAt(lines, v, newQuantity, k);
      r := Ok(());
    }

    method UpdateItem(user: UserId, v: VariantId, quantity: int) returns (r: Result<()>)
      requires CartsOk(db.carts)
      modifies db`carts
      ensures Outcome(db.Snapshot(), r) == Commerce.UpdateItem(old(db.Snapshot()), user, v, quantity)
    {
      var lines := if user in db.carts then db.carts[user] else [];
      var k := Find(lines, v);
      LineAt(lines, v, k);
      if k == |lines| {
        return Err(NotFound);
      }
      if quantity == 0 {
        WithoutLineAt(lines, v, k);
        db.carts := db.carts[user := lines[..k] + lines[k + 1..]];
        return Ok(());
      }
      var error := ValidateQuantity(v, quantity);
      if error.Some? {
        return Err(error.value);
      }
      WithLineAt(lines, v, quantity, k);
      db.carts := db.carts[user := lines[..k] + [Line(v, quantity)] + lines[k + 1..]];
      r := Ok(());
    }
  }

  lemma {:induction false} LineAt(lines: seq<Line>, v: VariantId, k: nat)
    requires k <= |lines| && (k < |lines| ==> lines[k].variant == v)
    requires forall i :: 0 <= i < k ==> lines[i].variant != v
    ensures HasLine(lines, v) <==> k < |lines|
    ensures OneLinePerVariant(lines) ==> Quantity(lines, v) == if k < |lines| then lines[k].quantity else 0
  {
    if k == |lines| {
      NoLineNoQuantity(lines, v);
    } else if k == 0 {
      if OneLinePerVariant(lines) {
        OnlyLineOf(lines);
      }
    } else {
      LineAt(lines[1..], v, k - 1);
    }
  }

  lemma {:induction false} WithLineAt(lines: seq<Line>, v: VariantId, quantity: int, k: nat)
    requires k <= |lines| && (k < |lines| ==> lines[k].variant == v)
    requires forall i :: 0 <= i < k ==> lines[i].variant != v
    ensures WithLine(lines, v, quantity) == lines[..k] + [Line(v, quantity)]
      + (if k < |lines| then lines[k + 1..] else [])
  {
    if k == 0 {
    } else {
      WithLineAt(lines[1..], v, quantity, k - 1);
      assert lines[..k] == [lines[0]] + lines[1..][..k - 1];
    }
  }

  lemma {:induction false} WithoutLineAt(lines: seq<Line>, v: VariantId, k: nat)
    requires k < |lines| && lines[k].variant == v
    requires forall i :: 0 <= i < k ==> lines[i].variant != v
    ensures WithoutLine(lines, v) == lines[..k] + lines[k + 1..]
  {
    if k == 0 {
    } else {
      WithoutLineAt(lines[1..], v, k - 1);
      assert lines[..k] == [lines[0]] + lines[1..][..k - 1];
    }
  }

  class Coupons {
    const db: Tables

    constructor (db: Tables)
      ensures this.db == db
    {
      this.db := db;
    }

    method Create(code: CouponCode, coupon: Coupon) returns (r: Result<()>)
      modifies db`coupons
      ensures Outcome(db.Snapshot(), r) == CreateCoupon(old(db.Snapshot()), code, coupon)
    {
      if coupon.kind == PERCENTAGE && coupon.value > 10000 {
        return Err(BadRequest);
      }
      if code in db.coupons {
        return Err(Conflict);
      }
      db.coupons := db.coupons[code := coupon.(usedCount := 0)];
      r := Ok(());
    }

    method Update(code: CouponCode, patch: CouponPatch) returns (r: Result<()>)
      modifies db`coupons
      ensures Outcome(db.Snapshot(), r) == UpdateCoupon(old(db.Snapshot()), code, patch)
    {
      if code !in db.coupons {
        return Err(NotFound);
      }
      var c := db.coupons[code];
      if patch.maxUses.Some? {
        c := c.(maxUses := patch.maxUses);
      }
      if patch.minOrderTotal.Some? {
        c := c.(minOrderTotal := patch.minOrderTotal);
      }
      if patch.startsAt.Some? {
        c := c.(startsAt := patch.startsAt);
      }
      if patch.expiresAt.Some? {
        c := c.(expiresAt := patch.expiresAt);
      }
      if patch.isActive.Some? {
        c := c.(isActive := patch.isActive.value);
      }
      db.coupons := db.coupons[code := c];
      r := Ok(());
    }

    /** Checks the coupon and computes the discount, without redeeming it yet. */
    method Validate(code: CouponCode, subtotal: int, now: int) returns (r: Result<int>)
      ensures r.Ok? <==> CouponAccepted(db.coupons, code, subtotal, now)
      ensures r.Ok? ==> r.value == DiscountFor(db.coupons, Some(code), subtotal)
      ensures r.Ok? ==> Deducts(db.coupons[code].kind, db.coupons[code].value, subtotal, r.value)
      ensures r.Err? ==> r.error == BadRequest
    {
      if code !in db.coupons || !db.coupons[code].isActive {
        return Err(BadRequest);
      }
      var coupon := db.coupons[code];
      if coupon.startsAt.Some? && now < coupon.startsAt.value {
        return Err(BadRequest);
      }
      if coupon.expiresAt.Some? && now > coupon.expiresAt.value {
        return Err(BadRequest);
      }
      if coupon.maxUses.Some? && coupon.usedCount >= coupon.maxUses.value {
        return Err(BadRequest);
      }
      if coupon.minOrderTotal.Some? && subtotal < coupon.minOrderTotal.value {
        return Err(BadRequest);
      }
      DiscountDeducts(coupon.kind, coupon.value, subtotal);
      match coupon.kind
      case PERCENTAGE => r := Ok(Round(subtotal * coupon.value, 10000));
      case FIXED_AMOUNT => r := Ok(if coupon.value < subtotal then coupon.value else subtotal);
    }

    /** One guarded UPDATE: false when the usage limit has been reached. */
    method Redeem(code: CouponCode) returns (redeemed: bool)
      modifies db`coupons
      ensures redeemed == Redeemable(old(db.coupons), code)
      ensures db.coupons == if redeemed then Redeemed(old(db.coupons), Some(code)) else old(db.coupons)
    {
      if code !in db.coupons {
        return false;
      }
      var c := db.coupons[code];
      if c.maxUses.Some? && c.usedCount >= c.maxUses.value {
        return false;
      }
      db.coupons := db.coupons[code := c.(usedCount := c.usedCount + 1)];
      redeemed := true;
    }
  }

  class Orders {
    const db: Tables
    const inventory: Inventory
    const coupons: Coupons

    constructor (db: Tables)
      ensures this.db == db && Wired()
    {
      this.db := db;
      inventory := new Inventory(db);
      coupons := new Coupons(db);
    }

    ghost predicate Wired() {
      inventory.db == db && coupons.db == db
    }

    /** The loop of the order transaction: reserve each line and write its order item. */
    method ReserveAll(d: Draft, id: OrderId) returns (ok: bool)
      requires Wired() && AllPriced(d.lines, d.prices) && id in db.orders && db.orders[id].items == []
      modifies db`rows, db`movements, db`orders
      ensures ok == ReserveLines(old(Stock(db.rows, db.movements)), d.lines, d.warehouse, id).Some?
      ensures ok ==> Some(Stock(db.rows, db.movements)) ==
                     ReserveLines(old(Stock(db.rows, db.movements)), d.lines, d.warehouse, id)
      ensures ok ==> db.orders == old(db.orders)[id := old(db.orders[id]).(items := ItemsFor(d.lines, d.prices))]
    {
      ghost var all := ReserveLines(Stock(db.rows, db.movements), d.lines, d.warehouse, id);
      for i := 0 to |d.lines|
        invariant ReserveLines(Stock(db.rows, db.movements), d.lines[i..], d.warehouse, id) == all
        invariant id in db.orders
        invariant db.orders == old(db.orders)[id := old(db.orders[id]).(items := ItemsFor(d.lines, d.prices)[..i])]
      {
        var item := d.lines[i];
        var price := d.prices[item.variant];
        assert d.lines[i..][1..] == d.lines[i + 1..];
        var reserved := inventory.Reserve(StockKey(item.variant, d.warehouse), item.quantity, id);
        if !reserved {
          return false;
        }
        var o := db.orders[id];
        db.orders := db.orders[id := o.(
          items := o.items + [OrderItem(item.variant, item.quantity, price, LineTotal(price, item.quantity))])];
        assert ItemsFor(d.lines, d.prices)[..i + 1] == o.items + [ItemsFor(d.lines, d.prices)[i]];
      }
      assert ItemsFor(d.lines, d.prices)[..|d.lines|] == ItemsFor(d.lines, d.prices);
      ok := true;
    }

    /** The order row, its reserved lines, and its first history entry. */
    method WriteOrder(d: Draft, id: OrderId) returns (ok: bool)
      requires Wired() && AllPriced(d.lines, d.prices) && id !in db.orders
      modifies db`rows, db`movements, db`orders
      ensures ok == ReserveLines(old(Stock(db.rows, db.movements)), d.lines, d.warehouse, id).Some?
      ensures ok ==> Some(Stock(db.rows, db.movements)) ==
                     ReserveLines(old(Stock(db.rows, db.movements)), d.lines, d.warehouse, id)
      ensures ok ==> db.orders == old(db.orders)[id := NewOrder(d)]
    {
      db.orders := db.orders[id := Order(d.user, PENDING_PAYMENT, [], d.subtotal, d.discount,
                                         d.subtotal - d.discount, d.coupon, d.key, [])];
      ok := ReserveAll(d, id);
      if ok {
        db.orders := db.orders[id := db.orders[id].(history := [Entry(None, PENDING_PAYMENT)])];
      }
    }

    /** The callback of the order transaction; on an error it leaves its partial work behind. */
    method Placement(d: Draft, id: OrderId) returns (r: Result<OrderId>)
      requires Wired() && AllPriced(d.lines, d.prices)
      modifies db`rows, db`movements, db`carts, db`coupons, db`orders, db`homes
      ensures r == Commerce.PlaceOrder(old(db.Snapshot()), d, id).reply
      ensures r.Ok? ==> db.Snapshot() == Commerce.PlaceOrder(old(db.Snapshot()), d, id).shop
      ensures r.Err? ==> db.homes == old(db.homes)
    {
      if d.coupon.Some? {
        var redeemed := coupons.Redeem(d.coupon.value);
        if !redeemed {
          return Err(Conflict);
        }
      }
      if id in db.orders {
        return Err(DatabaseError);
      }
      var reserved := WriteOrder(d, id);
      if !reserved {
        return Err(Conflict);
      }
      db.carts := db.carts[d.user := []];
      db.homes := db.homes[id := d.warehouse];
      r := Ok(id);
    }

    /** The order transaction: the callback's effect, or none. */
    method PlaceOrder(d: Draft, id: OrderId) returns (r: Result<OrderId>)
      requires Wired() && AllPriced(d.lines, d.prices)
      modifies db
      ensures Outcome(db.Snapshot(), r) == Commerce.PlaceOrder(old(db.Snapshot()), d, id)
    {
      var backup := db.Begin();
      r := Placement(d, id);
      if r.Err? {
        db.Rollback(backup);
      }
    }

    method CreateFromCart(q: CreateRequest, id: OrderId) returns (r: Result<OrderId>)
      requires Wired() && OrderKeysUnique(db.orders)
      modifies db
      ensures Outcome(db.Snapshot(), r) == Commerce.CreateFromCart(old(db.Snapshot()), q, id)
    {
      if q.key.Some? {
        if existing :| existing in db.orders && db.orders[existing].key == q.key {
          ghost var found := OrderWithKey(db.Snapshot(), q.key);
          assert db.orders[found].key == db.orders[existing].key;
          return Ok(existing);
        }
      }
      var lines := if q.user in db.carts then db.carts[q.user] else [];
      var total := WithTotal(lines, q.prices);
      if lines == [] {
        return Err(BadRequest);
      }
      if total.None? {
        return Err(Conflict);
      }
      if db.warehouse.None? {
        return Err(NotFound);
      }
      var discount := 0;
      if q.coupon.Some? {
        var validated := coupons.Validate(q.coupon.value, total.value, q.now);
        if validated.Err? {
          return Err(BadRequest);
        }
        discount := validated.value;
      }
      var d := Draft(q.user, lines, q.prices, db.warehouse.value, total.value, discount, q.coupon, q.key);
      r := PlaceOrder(d, id);
    }

    /** The loops of updateStatus: release, deduct or return every line; false when a row is missing. */
    method MoveAll(kind: Kind, items: seq<OrderItem>, w: WarehouseId, id: OrderId) returns (ok: bool)
      requires Wired() && kind in {RELEASE, DEDUCT, RETURN}
      modifies db`rows, db`movements
      ensures ok == MoveLines(old(Stock(db.rows, db.movements)), kind, LinesOf(items), w, id).Some?
      ensures ok ==> Some(Stock(db.rows, db.movements)) ==
                     MoveLines(old(Stock(db.rows, db.movements)), kind, LinesOf(items), w, id)
    {
      ghost var lines := LinesOf(items);
      ghost var all := MoveLines(Stock(db.rows, db.movements), kind, lines, w, id);
      for i := 0 to |items|
        invariant MoveLines(Stock(db.rows, db.movements), kind, lines[i..], w, id) == all
      {
        assert lines[i..][1..] == lines[i + 1..];
        var key := StockKey(items[i].variant, w);
        ok := true;
        if kind == RELEASE {
          ok := inventory.Release(key, items[i].quantity, id);
        } else if kind == DEDUCT {
          ok := inventory.Deduct(key, items[i].quantity, id);
        } else {
          inventory.ReturnStock(key, items[i].quantity, id);
        }
        if !ok {
          return false;
        }
      }
      ok := true;
    }

    /** The stock branches of updateStatus; the other pairs of phases, NONE to RESERVED among them, move nothing. */
    method MoveStock(items: seq<OrderItem>, fromPhase: Phase, toPhase: Phase, w: WarehouseId,
                     id: OrderId) returns (ok: bool)
      requires Wired()
      modifies db`rows, db`movements
      ensures ok == MovedStock(old(Stock(db.rows, db.movements)), LinesOf(items), fromPhase, toPhase, w, id).Some?
      ensures ok ==> Some(Stock(db.rows, db.movements)) ==
                     MovedStock(old(Stock(db.rows, db.movements)), LinesOf(items), fromPhase, toPhase, w, id)
    {
      ok := true;
      if fromPhase == RESERVED && toPhase == NONE {
        ok := MoveAll(RELEASE, items, w, id);
      } else if fromPhase == RESERVED && toPhase == DEDUCTED {
        ok := MoveAll(DEDUCT, items, w, id);
      } else if fromPhase == DEDUCTED && toPhase == NONE {
        ok := MoveAll(RETURN, items, w, id);
      }
    }

    method UpdateStatus(id: OrderId, to: Status) returns (r: Result<()>)
      requires Wired()
      modifies db
      ensures Outcome(db.Snapshot(), r) == Commerce.UpdateStatus(old(db.Snapshot()), id, to)
    {
      if id !in db.orders {
        return Err(NotFound);
      }
      var order := db.orders[id];
      if !CanTransition(order.status, to) {
        return Err(Conflict);
      }
      if db.warehouse.None? {
        return Err(NotFound);
      }
      var w := db.warehouse.value;
      var fromPhase, toPhase := PhaseFor(order.status), PhaseFor(to);
      var backup := db.Begin();
      var ok := MoveStock(order.items, fromPhase, toPhase, w, id);
      if !ok {
        db.Rollback(backup);
        return Err(DatabaseError);
      }
      db.orders := db.orders[id := order.(status := to, history := order.history + [Entry(Some(order.status), to)])];
      r := Ok(());
    }

    /** StockReleaseProcessor.process */
    method ProcessStockRelease(id: OrderId) returns (r: Result<()>)
      requires Wired()
      modifies db
      ensures Outcome(db.Snapshot(), r) == Timeout(old(db.Snapshot()), id)
    {
      if id !in db.orders {
        return Err(NotFound);
      }
      if db.orders[id].status != PENDING_PAYMENT {
        return Ok(());
      }
      r := UpdateStatus(id, CANCELLED);
    }
  }

  class Payments {
    const db: Tables
    const orders: Orders

    constructor (db: Tables)
      ensures this.db == db && Wired()
    {
      this.db := db;
      orders := new Orders(db);
    }

    ghost predicate Wired() {
      orders.db == db && orders.Wired()
    }

    method Pay(order: OrderId, simulateFailure: bool, key: Option<string>, id: PaymentId) returns (r: Result<PaymentId>)
      requires Wired() && PaymentKeysUnique(db.payments)
      modifies db
      ensures Outcome(db.Snapshot(), r) == Commerce.Pay(old(db.Snapshot()), order, simulateFailure, key, id)
    {
      if key.Some? {
        if existing :| existing in db.payments && db.payments[existing].key == key {
          ghost var found := PaymentWithKey(db.Snapshot(), key);
          assert db.payments[found].key == db.payments[existing].key;
          return Ok(existing);
        }
      }
      if order !in db.orders {
        return Err(NotFound);
      }
      var status := db.orders[order].status;
      if status != PENDING_PAYMENT && status != PAYMENT_FAILED {
        return Err(Conflict);
      }
      if id in db.payments {
        return Err(DatabaseError);
      }
      var succeeded := !simulateFailure;
      db.payments := db.payments[
        id := Payment(order, db.orders[order].total, if succeeded then SUCCEEDED else FAILED, key)];
      var next := orders.UpdateStatus(order, if succeeded then PAID else PAYMENT_FAILED);
      r := if next.Ok? then Ok(id) else Err(next.error);
    }

    method Refunded(id: PaymentId) returns (sum: int)
      ensures sum == RefundedSoFar(db.refunds, id)
    {
      sum := 0;
      for i := 0 to |db.refunds|
        invariant sum == RefundedSoFar(db.refunds[..i], id)
      {
        assert db.refunds[..i + 1][..i] == db.refunds[..i];
        if db.refunds[i].payment == id {
          sum := sum + db.refunds[i].amount;
        }
      }
      assert db.refunds[..|db.refunds|] == db.refunds;
    }

    method MakeRefund(id: PaymentId, amount: int) returns (r: Result<()>)
      modifies db
      ensures Outcome(db.Snapshot(), r) == Commerce.MakeRefund(old(db.Snapshot()), id, amount)
    {
      if id !in db.payments {
        return Err(NotFound);
      }
      var payment := db.payments[id];
      if payment.status != SUCCEEDED {
        return Err(BadRequest);
      }
      var refundedSoFar := Refunded(id);
      if refundedSoFar + amount > payment.amount {
        return Err(BadRequest);
      }
      db.refunds := db.refunds + [Refund(id, amount)];
      if refundedSoFar + amount >= payment.amount {
        db.payments := db.payments[id := payment.(status := PAYMENT_REFUNDED)];
      }
      r := Ok(());
    }
  }
}
