/** What the stored rows of the shop say about quantities, prices and warehouses, after every run. */
module ShopRecords {
  import opened Common
  import opened OrderRules
  import opened Ledger
  import opened Money
  import opened Commerce
  import opened ShopInvariants
  import opened ShopRuns
  import opened ReservationBalance

  type Catalog = map<VariantId, VariantInfo>

  // ---------- Quantities ----------

  /** A quantity of a variant sold in whole units is whole. */
  predicate Whole(catalog: Catalog, v: VariantId, quantity: int) {
    v in catalog && !catalog[v].fractional ==> quantity % 1000 == 0
  }

  /** The variant exists, and the quantity is whole where it must be and not below the minimum. */
  predicate Orderable(catalog: Catalog, line: Line) {
    && line.variant in catalog && Whole(catalog, line.variant, line.quantity)
    && line.quantity >= catalog[line.variant].minOrder
  }

  ghost predicate AllOrderable(catalog: Catalog, lines: seq<Line>) {
    forall i :: 0 <= i < |lines| ==> Orderable(catalog, lines[i])
  }

  ghost predicate CartsOrderable(catalog: Catalog, carts: map<UserId, seq<Line>>) {
    forall user {:trigger carts[user]} :: user in carts ==> AllOrderable(catalog, carts[user])
  }

  ghost predicate MovementsWhole(catalog: Catalog, ms: seq<Movement>) {
    forall i :: 0 <= i < |ms| ==> Whole(catalog, ms[i].key.variant, ms[i].quantity)
  }

  // ---------- Prices ----------

  function PricesOf(items: seq<OrderItem>): (p: seq<Priced>)
    ensures |p| == |items|
  {
    seq(|items|, i requires 0 <= i < |items| => Priced(items[i].unitPrice, items[i].quantity))
  }

  function StoredTotal(items: seq<OrderItem>): int {
    if items == [] then 0 else StoredTotal(items[..|items| - 1]) + items[|items| - 1].lineTotal
  }

  ghost predicate LineTotalsOk(items: seq<OrderItem>) {
    forall i :: 0 <= i < |items| ==> items[i].lineTotal == LineTotal(items[i].unitPrice, items[i].quantity)
  }

  ghost predicate OrderRecordOk(catalog: Catalog, o: Order) {
    AllOrderable(catalog, LinesOf(o.items)) && LineTotalsOk(o.items) && o.subtotal == Subtotal(PricesOf(o.items))
  }

  ghost predicate OrderRecordsOk(catalog: Catalog, orders: map<OrderId, Order>) {
    forall id {:trigger OrderRecordOk(catalog, orders[id])} :: id in orders ==> OrderRecordOk(catalog, orders[id])
  }

  lemma {:induction false} StoredTotalIsSum(items: seq<OrderItem>)
    requires LineTotalsOk(items)
    ensures StoredTotal(items) == SumOfLineTotals(PricesOf(items))
  {
    if items == [] {
    } else {
      StoredTotalIsSum(items[..|items| - 1]);
      assert PricesOf(items)[..|items| - 1] == PricesOf(items[..|items| - 1]);
    }
  }

  // ---------- Warehouses ----------

  predicate Reserves(m: Movement, id: OrderId) {
    m.kind == RESERVE && m.order == Some(id)
  }

  /** An order's reservations were all made at its home warehouse. */
  ghost predicate ReservedAtHome(ms: seq<Movement>, homes: map<OrderId, WarehouseId>) {
    forall i, id {:trigger Reserves(ms[i], id)} :: 0 <= i < |ms| && Reserves(ms[i], id) ==>
      id in homes && ms[i].key.warehouse == homes[id]
  }

  /** And every line of it has one. */
  ghost predicate LinesReserved(ms: seq<Movement>, lines: seq<Line>, home: WarehouseId, id: OrderId) {
    forall i :: 0 <= i < |lines| ==>
      Movement(RESERVE, StockKey(lines[i].variant, home), lines[i].quantity, Some(id)) in ms
  }

  ghost predicate HomesRecorded(ms: seq<Movement>, orders: map<OrderId, Order>, homes: map<OrderId, WarehouseId>) {
    && ReservedAtHome(ms, homes)
    && forall id {:trigger orders[id]} :: id in orders && id in homes ==>
         LinesReserved(ms, LinesOf(orders[id].items), homes[id], id)
  }

  // ---------- Every call keeps them ----------

  ghost predicate RecordsOk(s: Shop) {
    && CartsOrderable(s.catalog, s.carts)
    && MovementsWhole(s.catalog, s.stock.movements)
    && OrderRecordsOk(s.catalog, s.orders)
    && HomesRecorded(s.stock.movements, s.orders, s.homes)
  }

  lemma LoggedWhole(catalog: Catalog, ms: seq<Movement>, kind: Kind, lines: seq<Line>, w: WarehouseId, id: OrderId)
    requires MovementsWhole(catalog, ms) && AllOrderable(catalog, lines)
    ensures MovementsWhole(catalog, ms + Logged(kind, lines, w, id))
  {
    var us := ms + Logged(kind, lines, w, id);
    forall i | 0 <= i < |us|
      ensures Whole(catalog, us[i].key.variant, us[i].quantity)
    {
      if i >= |ms| {
        assert Orderable(catalog, lines[i - |ms|]);
      }
    }
  }

  /** Movements that reserve nothing leave the record of homes alone. */
  lemma HomesAfterOthers(ms: seq<Movement>, more: seq<Movement>, orders: map<OrderId, Order>, homes: map<OrderId,
                         WarehouseId>)
    requires HomesRecorded(ms, orders, homes)
    requires forall i :: 0 <= i < |more| ==> more[i].kind != RESERVE || more[i].order.None?
    ensures HomesRecorded(ms + more, orders, homes)
  {
    var us := ms + more;
    assert forall i :: |ms| <= i < |us| ==> us[i] == more[i - |ms|];
    forall i, id | 0 <= i < |us| && Reserves(us[i], id)
      ensures id in homes && us[i].key.warehouse == homes[id]
    {
      assert i < |ms| ==> Reserves(ms[i], id);
    }
    forall id | id in orders && id in homes
      ensures LinesReserved(us, LinesOf(orders[id].items), homes[id], id)
    {
    }
  }

  lemma JustReserved(ms: seq<Movement>, lines: seq<Line>, w: WarehouseId, id: OrderId)
    ensures LinesReserved(ms + Logged(RESERVE, lines, w, id), lines, w, id)
  {
    var us := ms + Logged(RESERVE, lines, w, id);
    forall i | 0 <= i < |lines|
      ensures Movement(RESERVE, StockKey(lines[i].variant, w), lines[i].quantity, Some(id)) in us
    {
      assert us[|ms| + i] == Movement(RESERVE, StockKey(lines[i].variant, w), lines[i].quantity, Some(id));
    }
  }

  lemma HomesAfterNewOrder(ms: seq<Movement>, orders: map<OrderId, Order>, homes: map<OrderId, WarehouseId>,
                           id: OrderId, o: Order, w: WarehouseId)
    requires HomesRecorded(ms, orders, homes) && id !in homes
    ensures HomesRecorded(ms + Logged(RESERVE, LinesOf(o.items), w, id), orders[id := o], homes[id := w])
  {
    var (lines, more) := (LinesOf(o.items), Logged(RESERVE, LinesOf(o.items), w, id));
    var (us, after, newHomes) := (ms + more, orders[id := o], homes[id := w]);
    forall i, k | 0 <= i < |us| && Reserves(us[i], k)
      ensures k in newHomes && us[i].key.warehouse == newHomes[k]
    {
      if i < |ms| {
        assert Reserves(ms[i], k);
      } else {
        assert us[i] == more[i - |ms|];
      }
    }
    forall k | k in after && k in newHomes
      ensures LinesReserved(us, LinesOf(after[k].items), newHomes[k], k)
    {
      if k == id {
        JustReserved(ms, lines, w, id);
      } else {
      }
    }
  }

  lemma OneMovementKeepsRecords(s: Shop, t: Shop, m: Movement)
    requires RecordsOk(s) && t == s.(stock := t.stock) && t.stock.movements == s.stock.movements + [m]
    requires m.order.None? && Whole(s.catalog, m.key.variant, m.quantity)
    ensures RecordsOk(t)
  {
    HomesAfterOthers(s.stock.movements, [m], s.orders, s.homes);
  }

  lemma WithLineOrderable(catalog: Catalog, lines: seq<Line>, v: VariantId, quantity: int)
    requires AllOrderable(catalog, lines) && Orderable(catalog, Line(v, quantity))
    ensures AllOrderable(catalog, WithLine(lines, v, quantity))
  {
    if lines == [] || lines[0].variant == v {
    } else {
      WithLineOrderable(catalog, lines[1..], v, quantity);
    }
  }

  lemma WithoutLineOrderable(catalog: Catalog, lines: seq<Line>, v: VariantId)
    requires AllOrderable(catalog, lines)
    ensures AllOrderable(catalog, WithoutLine(lines, v))
  {
    if lines == [] || lines[0].variant == v {
    } else {
      WithoutLineOrderable(catalog, lines[1..], v);
    }
  }

  lemma {:induction false} AddItemKeepsRecords(s: Shop, user: UserId, v: VariantId, quantity: int)
    requires RecordsOk(s)
    ensures RecordsOk(AddItem(s, user, v, quantity).shop)
  {
    var lines := CartOf(s, user);
    var more := Quantity(lines, v) + quantity;
    assert AllOrderable(s.catalog, lines);
    if CartError(s, v, more).None? {
      WithLineOrderable(s.catalog, lines, v, more);
    }
  }

  lemma {:induction false} UpdateItemKeepsRecords(s: Shop, user: UserId, v: VariantId, quantity: int)
    requires RecordsOk(s)
    ensures RecordsOk(UpdateItem(s, user, v, quantity).shop)
  {
    var lines := CartOf(s, user);
    assert AllOrderable(s.catalog, lines);
    WithoutLineOrderable(s.catalog, lines, v);
    if CartError(s, v, quantity).None? {
      WithLineOrderable(s.catalog, lines, v, quantity);
    }
  }

  lemma {:induction false} NewRecordOk(catalog: Catalog, d: Draft)
    requires AllPriced(d.lines, d.prices) && AllOrderable(catalog, d.lines)
    requires d.subtotal == Subtotal(Pricing(d.lines, d.prices))
    ensures OrderRecordOk(catalog, NewOrder(d)) && LinesOf(NewOrder(d).items) == d.lines
  {
    var items := NewOrder(d).items;
    assert LinesOf(items) == d.lines;
    assert PricesOf(items) == Pricing(d.lines, d.prices);
  }

  lemma {:induction false} CreateFromCartKeepsRecords(s: Shop, r: CreateRequest, id: OrderId)
    requires Inv(s) && RecordsOk(s)
    ensures RecordsOk(CreateFromCart(s, r, id).shop)
  {
    var lines := CartOf(s, r.user);
    assert AllOrderable(s.catalog, lines);
    if CreateFromCart(s, r, id).shop != s {
      var d := DraftFor(s, r, lines, Subtotal(Pricing(lines, r.prices)));
      NewRecordOk(s.catalog, d);
      ReserveLinesLogs(s.stock, lines, d.warehouse, id);
      LoggedWhole(s.catalog, s.stock.movements, RESERVE, lines, d.warehouse, id);
      HomesAfterNewOrder(s.stock.movements, s.orders, s.homes, id, NewOrder(d), d.warehouse);
    }
  }

  lemma {:induction false} UpdateStatusKeepsRecords(s: Shop, id: OrderId, to: Status)
    requires Inv(s) && RecordsOk(s)
    ensures RecordsOk(UpdateStatus(s, id, to).shop)
  {
    if UpdateStatus(s, id, to).reply.Ok? {
      var (o, w) := (s.orders[id], s.warehouse.value);
      assert OrderOk(o) && OrderRecordOk(s.catalog, o);
      MovedStockLogs(s.stock, LinesOf(o.items), PhaseFor(o.status), PhaseFor(to), w, id);
      var kind := KindFor(PhaseFor(o.status), PhaseFor(to));
      var more := if kind.Some? then Logged(kind.value, LinesOf(o.items), w, id) else [];
      if kind.Some? {
        LoggedWhole(s.catalog, s.stock.movements, kind.value, LinesOf(o.items), w, id);
      }
      HomesAfterOthers(s.stock.movements, more, s.orders, s.homes);
      HomesAfterStatus(s.stock.movements + more, s.orders, s.homes, id, WithStatus(o, to));
      assert s.stock.movements + [] == s.stock.movements;
    }
  }

  lemma HomesAfterStatus(ms: seq<Movement>, orders: map<OrderId, Order>, homes: map<OrderId, WarehouseId>, id: OrderId,
                         o: Order)
    requires HomesRecorded(ms, orders, homes) && id in orders && o.items == orders[id].items
    ensures HomesRecorded(ms, orders[id := o], homes)
  {
  }

  lemma {:induction false} PayKeepsRecords(s: Shop, order: OrderId, simulateFailure: bool, key: Option<string>,
                                           id: PaymentId)
    requires Inv(s) && RecordsOk(s)
    ensures RecordsOk(Pay(s, order, simulateFailure, key, id).shop)
  {
    if !PaymentKeyUsed(s, key) && order in s.orders && id !in s.payments {
      assert OrderOk(s.orders[order]);
      var p := Payment(order, s.orders[order].total, if simulateFailure then FAILED else SUCCEEDED, key);
      NewPaymentOk(s.payments, s.refunds, id, p);
      assert PaymentKeysUnique(s.payments[id := p]);
      UpdateStatusKeepsRecords(s.(payments := s.payments[id := p]), order,
                               if simulateFailure then PAYMENT_FAILED else PAID);
    }
  }

  lemma {:induction false} StockCallsKeepRecords(s: Shop, v: VariantId, at: Option<WarehouseId>, quantity: int)
    requires RecordsOk(s)
    ensures RecordsOk(Receive(s, v, at, quantity).shop) && RecordsOk(Adjust(s, v, at, quantity).shop)
  {
    var (received, adjusted) := (Receive(s, v, at, quantity), Adjust(s, v, at, quantity));
    if received.reply.Ok? {
      var key := StockKey(v, Target(s, at).value);
      OneMovementKeepsRecords(s, received.shop, Movement(RECEIPT, key, quantity, None));
    }
    if adjusted.reply.Ok? {
      var key := StockKey(v, Target(s, at).value);
      OneMovementKeepsRecords(s, adjusted.shop, Movement(ADJUSTMENT, key, quantity, None));
    }
  }

  lemma {:induction false} StepKeepsRecords(s: Shop, c: Command)
    requires Inv(s) && RecordsOk(s)
    ensures RecordsOk(Step(s, c))
  {
    match c
    case DoReceive(v, at, quantity) => StockCallsKeepRecords(s, v, at, quantity);
    case DoAdjust(v, at, delta) => StockCallsKeepRecords(s, v, at, delta);
    case DoAddItem(user, v, quantity) => AddItemKeepsRecords(s, user, v, quantity);
    case DoUpdateItem(user, v, quantity) => UpdateItemKeepsRecords(s, user, v, quantity);
    case DoCreateOrder(request, order) => CreateFromCartKeepsRecords(s, request, order);
    case DoUpdateStatus(order, to) => UpdateStatusKeepsRecords(s, order, to);
    case DoTimeout(order) => UpdateStatusKeepsRecords(s, order, CANCELLED);
    case DoPay(order, simulateFailure, key, payment) => PayKeepsRecords(s, order, simulateFailure, key, payment);
    case _ =>
  }

  lemma {:induction false} StepKeepsCatalog(s: Shop, c: Command)
    ensures Step(s, c).catalog == s.catalog
  {
  }

  lemma {:induction false} RunKeepsRecords(catalog: Catalog, cs: seq<Command>)
    requires AllWellFormed(cs)
    ensures Run(catalog, cs).catalog == catalog && RecordsOk(Run(catalog, cs))
  {
    if cs == [] {
    } else {
      var init := cs[..|cs| - 1];
      RunKeepsRecords(catalog, init);
      RunKeepsInv(catalog, init);
      StepKeepsRecords(Run(catalog, init), cs[|cs| - 1]);
      StepKeepsCatalog(Run(catalog, init), cs[|cs| - 1]);
    }
  }

  // ---------- What that means ----------

  lemma {:induction false} SumIsWhole(ms: seq<Movement>, weight: Movement -> int)
    requires forall i :: 0 <= i < |ms| ==> weight(ms[i]) % 1000 == 0
    ensures Sum(ms, weight) % 1000 == 0
  {
    if ms == [] {
    } else {
      SumIsWhole(ms[..|ms| - 1], weight);
    }
  }

  lemma SumsAreWhole(catalog: Catalog, ms: seq<Movement>, key: StockKey)
    requires MovementsWhole(catalog, ms)
    ensures Whole(catalog, key.variant, Sum(ms, OnHandAt(key))) && Whole(catalog, key.variant, Sum(ms, ReservedAt(key)))
  {
    if key.variant in catalog && !catalog[key.variant].fractional {
      forall i | 0 <= i < |ms|
        ensures OnHandAt(key)(ms[i]) % 1000 == 0 && ReservedAt(key)(ms[i]) % 1000 == 0
      {
      }
      SumIsWhole(ms, OnHandAt(key));
      SumIsWhole(ms, ReservedAt(key));
    }
  }

  /** The quantity checks achieve their purpose: after any run, stock, carts and orders hold whole quantities of
      whole-unit variants only, and carts and orders only known variants in at least their minimum quantity. */
  lemma QuantitiesStayOrderable(catalog: Catalog, cs: seq<Command>, key: StockKey, user: UserId, id: OrderId)
    requires AllWellFormed(cs)
    ensures var s := Run(catalog, cs);
            && Whole(catalog, key.variant, At(s.stock, key).onHand)
            && Whole(catalog, key.variant, At(s.stock, key).reserved)
            && AllOrderable(catalog, CartOf(s, user))
            && (id in s.orders ==> AllOrderable(catalog, LinesOf(s.orders[id].items)))
  {
    RunKeepsInv(catalog, cs);
    RunKeepsRecords(catalog, cs);
    var s := Run(catalog, cs);
    SumsAreWhole(catalog, s.stock.movements, key);
    assert At(s.stock, key) == StockRow(Sum(s.stock.movements, OnHandAt(key)), Sum(s.stock.movements, ReservedAt(key)));
    assert id in s.orders ==> OrderRecordOk(catalog, s.orders[id]);
  }

  ghost predicate WholeUnits(catalog: Catalog, items: seq<OrderItem>) {
    forall i :: 0 <= i < |items| ==> items[i].variant in catalog && !catalog[items[i].variant].fractional
  }

  /** The subtotal is the line totals' sum up to half a cent a line, and exactly that sum for whole units. */
  ghost predicate TotalsAgree(catalog: Catalog, o: Order) {
    var (n, drift) := (|o.items|, o.subtotal - StoredTotal(o.items));
    -(n / 2) <= drift <= (499 * n + 500) / 1000 && (WholeUnits(catalog, o.items) ==> drift == 0)
  }

  lemma {:induction false} RecordTotalsAgree(catalog: Catalog, o: Order)
    requires OrderRecordOk(catalog, o)
    ensures TotalsAgree(catalog, o)
  {
    StoredTotalIsSum(o.items);
    SubtotalDrift(PricesOf(o.items));
    if WholeUnits(catalog, o.items) {
      forall i | 0 <= i < |o.items|
        ensures PricesOf(o.items)[i].quantity % 1000 == 0
      {
        assert Orderable(catalog, LinesOf(o.items)[i]);
      }
      WholeQuantitiesDriftNothing(PricesOf(o.items));
    }
  }

  lemma StoredTotalsAgree(catalog: Catalog, cs: seq<Command>, id: OrderId)
    requires AllWellFormed(cs) && id in Run(catalog, cs).orders
    ensures TotalsAgree(catalog, Run(catalog, cs).orders[id])
  {
    RunKeepsRecords(catalog, cs);
    assert OrderRecordOk(catalog, Run(catalog, cs).orders[id]);
    RecordTotalsAgree(catalog, Run(catalog, cs).orders[id]);
  }

  /** The condition of a settled status change can be read off the stored movements. */
  lemma SettledIsRecorded(catalog: Catalog, cs: seq<Command>, id: OrderId, to: Status)
    requires AllWellFormed(cs) && id in Run(catalog, cs).orders
    ensures var s := Run(catalog, cs);
            && id in s.homes
            && (Settled(s, id, to) <==>
                  && !IsRetry(s.orders[id].status, to)
                  && (PhaseFor(s.orders[id].status) == RESERVED && PhaseFor(to) != RESERVED ==>
                        forall i {:trigger Reserves(s.stock.movements[i], id)} ::
                          0 <= i < |s.stock.movements| && Reserves(s.stock.movements[i], id) ==>
                          s.warehouse == Some(s.stock.movements[i].key.warehouse)))
  {
    RunKeepsInv(catalog, cs);
    RunKeepsRecords(catalog, cs);
    var s := Run(catalog, cs);
    var (ms, lines) := (s.stock.movements, LinesOf(s.orders[id].items));
    assert OrderOk(s.orders[id]) && LinesReserved(ms, lines, s.homes[id], id);
    var m := Movement(RESERVE, StockKey(lines[0].variant, s.homes[id]), lines[0].quantity, Some(id));
    assert m in ms;
    var k :| 0 <= k < |ms| && ms[k] == m;
    assert Reserves(ms[k], id);
  }
}
