/**
 The commerce tables (stock, carts, coupons, orders, payments, refunds) as one value, and what each
 service call does to them. The calls that run in a transaction either take full effect or none.
 */
module Commerce {
  import opened Common
  import opened OrderRules
  import opened Ledger
  import opened Money

  type UserId = string
  type CouponCode = string
  type PaymentId = string

  datatype VariantInfo = VariantInfo(available: bool, fractional: bool, minOrder: int)

  datatype Coupon = Coupon(
    kind: CouponKind, value: int, maxUses: Option<nat>, usedCount: nat, minOrderTotal: Option<int>,
    startsAt: Option<int>, expiresAt: Option<int>, isActive: bool)

  datatype OrderItem = OrderItem(variant: VariantId, quantity: int, unitPrice: int, lineTotal: int)

  datatype Order = Order(
    user: UserId, status: Status, items: seq<OrderItem>, subtotal: int, discount: int, total: int,
    coupon: Option<CouponCode>, key: Option<string>, history: seq<Entry>)

  datatype PaymentStatus = SUCCEEDED | FAILED | PAYMENT_REFUNDED
  datatype Payment = Payment(order: OrderId, amount: int, status: PaymentStatus, key: Option<string>)
  datatype Refund = Refund(payment: PaymentId, amount: int)

  datatype Shop = Shop(
    catalog: map<VariantId, VariantInfo>,
    warehouse: Option<WarehouseId>,       // what findDefault returns now
    stock: Stock,
    carts: map<UserId, seq<Line>>,
    coupons: map<CouponCode, Coupon>,
    orders: map<OrderId, Order>,
    homes: map<OrderId, WarehouseId>,     // history variable: the warehouse an order was placed against
    payments: map<PaymentId, Payment>,
    refunds: seq<Refund>)

  datatype Outcome<+T> = Outcome(shop: Shop, reply: Result<T>)

  function LinesOf(items: seq<OrderItem>): (lines: seq<Line>)
    ensures |lines| == |items|
  {
    seq(|items|, i requires 0 <= i < |items| => Line(items[i].variant, items[i].quantity))
  }

  // ---------- Inventory ----------

  /** assertWholeNumberIfRequired */
  function QuantityError(s: Shop, v: VariantId, quantity: int): Option<Error> {
    if v !in s.catalog then Some(NotFound)
    else if !s.catalog[v].fractional && quantity % 1000 != 0 then Some(BadRequest)
    else None
  }

  /** receive and adjust take an explicit warehouse or fall back to the default one. */
  function Target(s: Shop, warehouse: Option<WarehouseId>): Option<WarehouseId> {
    if warehouse.Some? then warehouse else s.warehouse
  }

  function Receive(s: Shop, v: VariantId, warehouse: Option<WarehouseId>, quantity: int): Outcome<()> {
    var error := QuantityError(s, v, quantity);
    if error.Some? then Outcome(s, Err(error.value))
    else if Target(s, warehouse).None? then Outcome(s, Err(NotFound))
    else Outcome(s.(stock := Received(s.stock, StockKey(v, Target(s, warehouse).value), quantity)), Ok(()))
  }

  function Adjust(s: Shop, v: VariantId, warehouse: Option<WarehouseId>, delta: int): Outcome<()> {
    var error := QuantityError(s, v, delta);
    if error.Some? then Outcome(s, Err(error.value))
    else if Target(s, warehouse).None? then Outcome(s, Err(NotFound))
    else
      var key := StockKey(v, Target(s, warehouse).value);
      if At(s.stock, key).onHand + delta < At(s.stock, key).reserved then Outcome(s, Err(Conflict))
      else Outcome(s.(stock := Adjusted(s.stock, key, delta)), Ok(()))
  }

  // ---------- Cart ----------

  function CartOf(s: Shop, user: UserId): seq<Line> {
    if user in s.carts then s.carts[user] else []
  }

  /** validateQuantity */
  function CartError(s: Shop, v: VariantId, quantity: int): Option<Error> {
    if v !in s.catalog then Some(NotFound)
    else if !s.catalog[v].available then Some(BadRequest)
    else if !s.catalog[v].fractional && quantity % 1000 != 0 then Some(BadRequest)
    else if quantity < s.catalog[v].minOrder then Some(BadRequest)
    else None
  }

  function WithLine(lines: seq<Line>, v: VariantId, quantity: int): seq<Line> {
    if lines == [] then [Line(v, quantity)]
    else if lines[0].variant == v then [Line(v, quantity)] + lines[1..]
    else [lines[0]] + WithLine(lines[1..], v, quantity)
  }

  function WithoutLine(lines: seq<Line>, v: VariantId): seq<Line> {
    if lines == [] then []
    else if lines[0].variant == v then lines[1..]
    else [lines[0]] + WithoutLine(lines[1..], v)
  }

  predicate HasLine(lines: seq<Line>, v: VariantId) {
    exists i :: 0 <= i < |lines| && lines[i].variant == v
  }

  function AddItem(s: Shop, user: UserId, v: VariantId, quantity: int): Outcome<()> {
    var lines := CartOf(s, user);
    var newQuantity := Quantity(lines, v) + quantity;
    if CartError(s, v, quantity).Some? then Outcome(s, Err(CartError(s, v, quantity).value))
    else if CartError(s, v, newQuantity).Some? then Outcome(s, Err(CartError(s, v, newQuantity).value))
    else Outcome(s.(carts := s.carts[user := WithLine(lines, v, newQuantity)]), Ok(()))
  }

  /** Cart lines are addressed by variant: a cart holds at most one line per variant. */
  function UpdateItem(s: Shop, user: UserId, v: VariantId, quantity: int): Outcome<()> {
    var lines := CartOf(s, user);
    if !HasLine(lines, v) then Outcome(s, Err(NotFound))
    else if quantity == 0 then Outcome(s.(carts := s.carts[user := WithoutLine(lines, v)]), Ok(()))
    else if CartError(s, v, quantity).Some? then Outcome(s, Err(CartError(s, v, quantity).value))
    else Outcome(s.(carts := s.carts[user := WithLine(lines, v, quantity)]), Ok(()))
  }

  // ---------- Coupons ----------

  function CreateCoupon(s: Shop, code: CouponCode, coupon: Coupon): Outcome<()> {
    if coupon.kind == PERCENTAGE && coupon.value > 10000 then Outcome(s, Err(BadRequest))
    else if code in s.coupons then Outcome(s, Err(Conflict))
    else Outcome(s.(coupons := s.coupons[code := coupon.(usedCount := 0)]), Ok(()))
  }

  /** Absent fields of an update leave the row as it is; kind, value and usedCount cannot be updated. */
  datatype CouponPatch = CouponPatch(
    maxUses: Option<nat>, minOrderTotal: Option<int>, startsAt: Option<int>, expiresAt: Option<int>,
    isActive: Option<bool>)

  function Patched(c: Coupon, p: CouponPatch): Coupon {
    c.(maxUses := if p.maxUses.Some? then p.maxUses else c.maxUses,
    minOrderTotal := if p.minOrderTotal.Some? then p.minOrderTotal else c.minOrderTotal,
    startsAt := if p.startsAt.Some? then p.startsAt else c.startsAt,
    expiresAt := if p.expiresAt.Some? then p.expiresAt else c.expiresAt,
    isActive := if p.isActive.Some? then p.isActive.value else c.isActive)
  }

  function UpdateCoupon(s: Shop, code: CouponCode, patch: CouponPatch): Outcome<()> {
    if code !in s.coupons then Outcome(s, Err(NotFound))
    else Outcome(s.(coupons := s.coupons[code := Patched(s.coupons[code], patch)]), Ok(()))
  }

  predicate Redeemable(coupons: map<CouponCode, Coupon>, code: CouponCode) {
    code in coupons && (coupons[code].maxUses.None? || coupons[code].usedCount < coupons[code].maxUses.value)
  }

  /** validate: the checks made before the transaction. */
  predicate CouponAccepted(coupons: map<CouponCode, Coupon>, code: CouponCode, subtotal: int, now: int) {
    && code in coupons
    && var c := coupons[code];
       && c.isActive
       && (c.startsAt.Some? ==> c.startsAt.value <= now)
       && (c.expiresAt.Some? ==> now <= c.expiresAt.value)
       && Redeemable(coupons, code)
       && (c.minOrderTotal.Some? ==> c.minOrderTotal.value <= subtotal)
  }

  function Redeemed(coupons: map<CouponCode, Coupon>, code: Option<CouponCode>): map<CouponCode, Coupon>
    requires code.Some? ==> code.value in coupons
  {
    if code.None? then coupons
    else coupons[code.value := coupons[code.value].(usedCount := coupons[code.value].usedCount + 1)]
  }

  // ---------- Order creation ----------

  datatype Draft = Draft(
    user: UserId, lines: seq<Line>, prices: map<VariantId, int>, warehouse: WarehouseId,
    subtotal: int, discount: int, coupon: Option<CouponCode>, key: Option<string>)

  function ItemsFor(lines: seq<Line>, prices: map<VariantId, int>): (items: seq<OrderItem>)
    requires AllPriced(lines, prices)
    ensures |items| == |lines|
  {
    seq(|lines|, i requires 0 <= i < |lines| =>
      OrderItem(lines[i].variant, lines[i].quantity, prices[lines[i].variant],
                LineTotal(prices[lines[i].variant], lines[i].quantity)))
  }

  function NewOrder(d: Draft): Order
    requires AllPriced(d.lines, d.prices)
  {
    Order(d.user, PENDING_PAYMENT, ItemsFor(d.lines, d.prices), d.subtotal, d.discount, d.subtotal - d.discount,
          d.coupon, d.key, [Entry(None, PENDING_PAYMENT)])
  }

  /** The order-creation transaction. */
  function PlaceOrder(s: Shop, d: Draft, id: OrderId): Outcome<OrderId>
    requires AllPriced(d.lines, d.prices)
  {
    if d.coupon.Some? && !Redeemable(s.coupons, d.coupon.value) then Outcome(s, Err(Conflict))
    else if id in s.orders then Outcome(s, Err(DatabaseError))
    else
      var stock := ReserveLines(s.stock, d.lines, d.warehouse, id);
      if stock.None? then Outcome(s, Err(Conflict))
      else Outcome(
        s.(stock := stock.value,
        carts := s.carts[d.user := []],
        coupons := Redeemed(s.coupons, d.coupon),
        orders := s.orders[id := NewOrder(d)],
        homes := s.homes[id := d.warehouse]), Ok(id))
  }

  datatype CreateRequest = CreateRequest(
    user: UserId, prices: map<VariantId, int>, coupon: Option<CouponCode>, key: Option<string>, now: int)

  predicate KeyUsed(s: Shop, key: Option<string>) {
    key.Some? && exists id :: id in s.orders && s.orders[id].key == key
  }

  ghost function OrderWithKey(s: Shop, key: Option<string>): OrderId
    requires KeyUsed(s, key)
  {
    var id :| id in s.orders && s.orders[id].key == key; id
  }

  function DiscountFor(coupons: map<CouponCode, Coupon>, code: Option<CouponCode>, subtotal: int): int
    requires code.Some? ==> code.value in coupons
  {
    if code.None? then 0 else Discount(coupons[code.value].kind, coupons[code.value].value, subtotal)
  }

  /** createFromCart; `id` is the identifier the database will give the new order. */
  ghost function CreateFromCart(s: Shop, r: CreateRequest, id: OrderId): Outcome<OrderId> {
    var lines := CartOf(s, r.user);
    if KeyUsed(s, r.key) then Outcome(s, Ok(OrderWithKey(s, r.key)))
    else if lines == [] then Outcome(s, Err(BadRequest))
    else if !AllPriced(lines, r.prices) then Outcome(s, Err(Conflict))
    else if s.warehouse.None? then Outcome(s, Err(NotFound))
    else
      var subtotal := CartTotal(lines, r.prices).value;
      if r.coupon.Some? && !CouponAccepted(s.coupons, r.coupon.value, subtotal, r.now) then Outcome(s, Err(BadRequest))
      else PlaceOrder(s, DraftFor(s, r, lines, subtotal), id)
  }

  function DraftFor(s: Shop, r: CreateRequest, lines: seq<Line>, subtotal: int): Draft
    requires s.warehouse.Some? && (r.coupon.Some? ==> r.coupon.value in s.coupons)
  {
    Draft(r.user, lines, r.prices, s.warehouse.value, subtotal,
          DiscountFor(s.coupons, r.coupon, subtotal), r.coupon, r.key)
  }

  // ---------- Status changes ----------

  /** The stock effect of a status change: None when a row it needs is missing. */
  function MovedStock(s: Stock, lines: seq<Line>, from: Phase, to: Phase, w: WarehouseId, id: OrderId): Option<Stock> {
    if from == RESERVED && to == NONE then MoveLines(s, RELEASE, lines, w, id)
    else if from == RESERVED && to == DEDUCTED then MoveLines(s, DEDUCT, lines, w, id)
    else if from == DEDUCTED && to == NONE then MoveLines(s, RETURN, lines, w, id)
    else Some(s)
  }

  function WithStatus(o: Order, to: Status): Order {
    o.(status := to, history := o.history + [Entry(Some(o.status), to)])
  }

  function UpdateStatus(s: Shop, id: OrderId, to: Status): Outcome<()> {
    if id !in s.orders then Outcome(s, Err(NotFound))
    else
      var o := s.orders[id];
      if !CanTransition(o.status, to) then Outcome(s, Err(Conflict))
      else if s.warehouse.None? then Outcome(s, Err(NotFound))
      else
        var stock := MovedStock(s.stock, LinesOf(o.items), PhaseFor(o.status), PhaseFor(to), s.warehouse.value, id);
        if stock.None? then Outcome(s, Err(DatabaseError))
        else Outcome(s.(stock := stock.value, orders := s.orders[id := WithStatus(o, to)]), Ok(()))
  }

  /** The stock-release job: cancels the order when it still waits for payment. */
  function Timeout(s: Shop, id: OrderId): Outcome<()> {
    if id !in s.orders then Outcome(s, Err(NotFound))
    else if s.orders[id].status != PENDING_PAYMENT then Outcome(s, Ok(()))
    else UpdateStatus(s, id, CANCELLED)
  }

  // ---------- Payments ----------

  predicate PaymentKeyUsed(s: Shop, key: Option<string>) {
    key.Some? && exists id :: id in s.payments && s.payments[id].key == key
  }

  ghost function PaymentWithKey(s: Shop, key: Option<string>): PaymentId
    requires PaymentKeyUsed(s, key)
  {
    var id :| id in s.payments && s.payments[id].key == key; id
  }

  /** pay: the payment row is written before, and outside, the status change. */
  ghost function Pay(s: Shop, order: OrderId, simulateFailure: bool, key: Option<string>,
                     id: PaymentId): Outcome<PaymentId> {
    if PaymentKeyUsed(s, key) then Outcome(s, Ok(PaymentWithKey(s, key)))
    else if order !in s.orders then Outcome(s, Err(NotFound))
    else if s.orders[order].status !in {PENDING_PAYMENT, PAYMENT_FAILED} then Outcome(s, Err(Conflict))
    else if id in s.payments then Outcome(s, Err(DatabaseError))
    else
      var p := Payment(order, s.orders[order].total, if simulateFailure then FAILED else SUCCEEDED, key);
      var to := if simulateFailure then PAYMENT_FAILED else PAID;
      var next := UpdateStatus(s.(payments := s.payments[id := p]), order, to);
      Outcome(next.shop, if next.reply.Ok? then Ok(id) else Err(next.reply.error))
  }

  function RefundedSoFar(refunds: seq<Refund>, id: PaymentId): int {
    if refunds == [] then 0
    else
      var r := refunds[|refunds| - 1];
      RefundedSoFar(refunds[..|refunds| - 1], id) + (if r.payment == id then r.amount else 0)
  }

  function MakeRefund(s: Shop, id: PaymentId, amount: int): Outcome<()> {
    if id !in s.payments then Outcome(s, Err(NotFound))
    else
      var p := s.payments[id];
      var sum := RefundedSoFar(s.refunds, id) + amount;
      if p.status != SUCCEEDED then Outcome(s, Err(BadRequest))
      else if sum > p.amount then Outcome(s, Err(BadRequest))
      else
        var status := if sum >= p.amount then PAYMENT_REFUNDED else p.status;
        var payments := s.payments[id := p.(status := status)];
        Outcome(s.(refunds := s.refunds + [Refund(id, amount)], payments := payments), Ok(()))
  }

  // ---------- Runs ----------

  datatype Command =
    | DoReceive(v: VariantId, at: Option<WarehouseId>, quantity: int)
    | DoAdjust(v: VariantId, at: Option<WarehouseId>, delta: int)
    | DoAddItem(user: UserId, v: VariantId, quantity: int)
    | DoUpdateItem(user: UserId, v: VariantId, quantity: int)
    | DoCreateCoupon(code: CouponCode, coupon: Coupon)
    | DoUpdateCoupon(code: CouponCode, patch: CouponPatch)
    | DoCreateOrder(request: CreateRequest, order: OrderId)
    | DoUpdateStatus(order: OrderId, to: Status)
    | DoTimeout(order: OrderId)
    | DoPay(order: OrderId, simulateFailure: bool, key: Option<string>, payment: PaymentId)
    | DoRefund(payment: PaymentId, amount: int)
    | SetDefaultWarehouse(warehouse: Option<WarehouseId>)  // the outcome of warehouse administration

  /** What the request DTOs demand. */
  predicate WellFormed(c: Command) {
    match c
    case DoReceive(_, _, quantity) => quantity > 0
    case DoAddItem(_, _, quantity) => quantity > 0
    case DoUpdateItem(_, _, quantity) => quantity >= 0
    case DoCreateCoupon(_, coupon) => coupon.value > 0
    case DoCreateOrder(request, _) => forall v :: v in request.prices ==> request.prices[v] >= 0
    case DoRefund(_, amount) => amount > 0
    case _ => true
  }

  ghost function Step(s: Shop, c: Command): Shop {
    match c
    case DoReceive(v, at, quantity) => Receive(s, v, at, quantity).shop
    case DoAdjust(v, at, delta) => Adjust(s, v, at, delta).shop
    case DoAddItem(user, v, quantity) => AddItem(s, user, v, quantity).shop
    case DoUpdateItem(user, v, quantity) => UpdateItem(s, user, v, quantity).shop
    case DoCreateCoupon(code, coupon) => CreateCoupon(s, code, coupon).shop
    case DoUpdateCoupon(code, patch) => UpdateCoupon(s, code, patch).shop
    case DoCreateOrder(request, order) => CreateFromCart(s, request, order).shop
    case DoUpdateStatus(order, to) => UpdateStatus(s, order, to).shop
    case DoTimeout(order) => Timeout(s, order).shop
    case DoPay(order, simulateFailure, key, payment) => Pay(s, order, simulateFailure, key, payment).shop
    case DoRefund(payment, amount) => MakeRefund(s, payment, amount).shop
    case SetDefaultWarehouse(warehouse) => s.(warehouse := warehouse)
  }

  function Empty(catalog: map<VariantId, VariantInfo>): Shop {
    Shop(catalog, None, Stock(map[], []), map[], map[], map[], map[], map[], [])
  }

  ghost predicate AllWellFormed(cs: seq<Command>) {
    forall i :: 0 <= i < |cs| ==> WellFormed(cs[i])
  }

  /** The state after a run of calls, successful or not, on an empty shop. */
  ghost function Run(catalog: map<VariantId, VariantInfo>, cs: seq<Command>): Shop {
    if cs == [] then Empty(catalog) else Step(Run(catalog, cs[..|cs| - 1]), cs[|cs| - 1])
  }
}
