/**
 Reserved stock against open orders: when does a row's reserved quantity equal what the orders in the
 RESERVED phase hold there, and which status changes break that.
 */
module ReservationBalance {
  import opened Common
  import opened Sums
  import opened OrderRules
  import opened Ledger
  import opened Money
  import opened Commerce
  import opened ShopInvariants
  import opened ShopRuns

  /** What one order holds at a row, going by its status alone. */
  function Holds(o: Order, home: WarehouseId, key: StockKey): int {
    if home == key.warehouse && PhaseFor(o.status) == RESERVED then Quantity(LinesOf(o.items), key.variant) else 0
  }

  ghost function HeldBy(orders: map<OrderId, Order>, homes: map<OrderId, WarehouseId>, key: StockKey): OrderId -> int {
    (id: OrderId) => if id in orders && id in homes then Holds(orders[id], homes[id], key) else 0
  }

  ghost function HeldAt(orders: map<OrderId, Order>, homes: map<OrderId, WarehouseId>, key: StockKey): int {
    SumOver(orders.Keys, HeldBy(orders, homes, key))
  }

  ghost predicate BalancedAt(s: Shop, key: StockKey) {
    At(s.stock, key).reserved == HeldAt(s.orders, s.homes, key)
  }

  /** Every row's reserved quantity is the sum over the orders in the RESERVED phase placed against its warehouse. */
  ghost predicate Balanced(s: Shop) {
    forall key :: BalancedAt(s, key)
  }

  // ---------- What a step does to both sides ----------

  lemma ReservedAfterLogging(s: Stock, t: Stock, kind: Kind, lines: seq<Line>, w: WarehouseId, id: OrderId,
                             key: StockKey)
    requires Explained(s) && Explained(t) && t.movements == s.movements + Logged(kind, lines, w, id)
    ensures At(t, key).reserved == At(s, key).reserved +
            if key.warehouse == w then ReservedSign(kind) * Quantity(lines, key.variant) else 0
  {
    assert At(s, key) == StockRow(Sum(s.movements, OnHandAt(key)), Sum(s.movements, ReservedAt(key)));
    assert At(t, key) == StockRow(Sum(t.movements, OnHandAt(key)), Sum(t.movements, ReservedAt(key)));
    if key.warehouse == w {
      SumLogged(s.movements, kind, lines, w, id, ReservedAt(key), key.variant, ReservedSign(kind));
    } else {
      SumLoggedElsewhere(s.movements, kind, lines, w, id, ReservedAt(key));
    }
  }

  lemma HeldAfterStatus(s: Shop, id: OrderId, to: Status, key: StockKey)
    requires OrdersOk(s.orders, s.homes) && id in s.orders
    ensures var after := WithStatus(s.orders[id], to);
            HeldAt(s.orders[id := after], s.homes, key) ==
            HeldAt(s.orders, s.homes, key) - Holds(s.orders[id], s.homes[id], key) + Holds(after, s.homes[id], key)
  {
    var orders := s.orders[id := WithStatus(s.orders[id], to)];
    assert orders.Keys == s.orders.Keys;
    ChangeOne(s.orders.Keys, HeldBy(s.orders, s.homes, key), HeldBy(orders, s.homes, key), id);
  }

  lemma HeldAfterNewOrder(s: Shop, id: OrderId, o: Order, w: WarehouseId, key: StockKey)
    requires OrdersOk(s.orders, s.homes) && id !in s.orders
    ensures HeldAt(s.orders[id := o], s.homes[id := w], key) == HeldAt(s.orders, s.homes, key) + Holds(o, w, key)
  {
    var orders, homes := s.orders[id := o], s.homes[id := w];
    assert orders.Keys == s.orders.Keys + {id};
    AddOne(s.orders.Keys, HeldBy(s.orders, s.homes, key), HeldBy(orders, homes, key), id);
  }

  /** The change of a row's reserved quantity under a successful status change. */
  function ReservedChange(s: Shop, id: OrderId, to: Status, key: StockKey): int
    requires id in s.orders && s.warehouse.Some?
  {
    var o := s.orders[id];
    if PhaseFor(o.status) == RESERVED && PhaseFor(to) != RESERVED && key.warehouse == s.warehouse.value
    then -Quantity(LinesOf(o.items), key.variant) else 0
  }

  lemma {:induction false} ReservedAfterStatus(s: Shop, id: OrderId, to: Status, key: StockKey)
    requires Inv(s) && UpdateStatus(s, id, to).reply.Ok?
    ensures At(UpdateStatus(s, id, to).shop.stock, key).reserved == At(s.stock, key).reserved +
            ReservedChange(s, id, to, key)
  {
    var o, w := s.orders[id], s.warehouse.value;
    assert OrderOk(o);
    PhaseMoves(o.status, to);
    MovedStockLogs(s.stock, LinesOf(o.items), PhaseFor(o.status), PhaseFor(to), w, id);
    var kind := KindFor(PhaseFor(o.status), PhaseFor(to));
    if kind.Some? {
      ReservedAfterLogging(s.stock, UpdateStatus(s, id, to).shop.stock, kind.value, LinesOf(o.items), w, id, key);
    }
  }

  // ---------- Exactly which status changes keep the balance ----------

  /** Not the retry edge, and stock that leaves the RESERVED phase leaves the warehouse it was reserved in. */
  predicate Settled(s: Shop, id: OrderId, to: Status)
    requires id in s.orders && id in s.homes
  {
    && !IsRetry(s.orders[id].status, to)
    && (PhaseFor(s.orders[id].status) == RESERVED && PhaseFor(to) != RESERVED ==> s.warehouse == Some(s.homes[id]))
  }

  lemma BalanceAfterStatus(s: Shop, id: OrderId, to: Status, key: StockKey)
    requires Inv(s) && BalancedAt(s, key) && UpdateStatus(s, id, to).reply.Ok?
    ensures BalancedAt(UpdateStatus(s, id, to).shop, key) <==>
            ReservedChange(s, id, to, key) ==
            Holds(WithStatus(s.orders[id], to), s.homes[id], key) - Holds(s.orders[id], s.homes[id], key)
  {
    ReservedAfterStatus(s, id, to, key);
    HeldAfterStatus(s, id, to, key);
    var t := UpdateStatus(s, id, to).shop;
    assert t.orders == s.orders[id := WithStatus(s.orders[id], to)] && t.homes == s.homes;
  }

  /** From a balanced state, a status change that goes through keeps the balance if and only if it is settled. */
  lemma StatusChangeKeepsBalanceIff(s: Shop, id: OrderId, to: Status)
    requires Inv(s) && Balanced(s) && UpdateStatus(s, id, to).reply.Ok?
    ensures Balanced(UpdateStatus(s, id, to).shop) <==> Settled(s, id, to)
  {
    var o := s.orders[id];
    var t := UpdateStatus(s, id, to).shop;
    assert OrderOk(o);
    PhaseMoves(o.status, to);
    forall key
      ensures Settled(s, id, to) ==> BalancedAt(t, key)
    {
      assert BalancedAt(s, key);
      BalanceAfterStatus(s, id, to, key);
    }
    if !Settled(s, id, to) {
      var key := StockKey(o.items[0].variant, s.homes[id]);
      assert BalancedAt(s, key);
      BalanceAfterStatus(s, id, to, key);
      var lines := LinesOf(o.items);
      assert lines[0].variant == o.items[0].variant;
      PositiveQuantity(lines, key.variant);
      assert !BalancedAt(t, key);
    }
  }

  // ---------- Runs ----------

  /** The status change a call makes, if it makes one. */
  function ChangeOf(c: Command): Option<(OrderId, Status)> {
    match c
    case DoUpdateStatus(id, to) => Some((id, to))
    case DoTimeout(id) => Some((id, CANCELLED))
    case DoPay(id, simulateFailure, _, _) => Some((id, if simulateFailure then PAYMENT_FAILED else PAID))
    case _ => None
  }

  /** If the call's status change is allowed at all, it is settled. */
  predicate CallSettled(s: Shop, c: Command) {
    ChangeOf(c).Some? ==>
      var (id, to) := ChangeOf(c).value;
      id in s.orders && id in s.homes && CanTransition(s.orders[id].status, to) && s.warehouse.Some? ==>
        Settled(s, id, to)
  }

  ghost predicate RunSettled(catalog: map<VariantId, VariantInfo>, cs: seq<Command>) {
    forall i {:trigger cs[i]} :: 0 <= i < |cs| ==> CallSettled(Run(catalog, cs[..i]), cs[i])
  }

  lemma UpdateStatusKeepsBalance(s: Shop, id: OrderId, to: Status)
    requires Inv(s) && Balanced(s)
    requires id in s.orders && CanTransition(s.orders[id].status, to) && s.warehouse.Some? ==> Settled(s, id, to)
    ensures Balanced(UpdateStatus(s, id, to).shop)
  {
    if UpdateStatus(s, id, to).reply.Ok? {
      StatusChangeKeepsBalanceIff(s, id, to);
    }
  }

  lemma SameTablesBalanced(s: Shop, t: Shop)
    requires Balanced(s) && t.orders == s.orders && t.homes == s.homes
    requires forall key :: At(t.stock, key).reserved == At(s.stock, key).reserved
    ensures Balanced(t)
  {
    forall key
      ensures BalancedAt(t, key)
    {
      assert BalancedAt(s, key);
    }
  }

  lemma PlaceOrderKeepsBalance(s: Shop, d: Draft, id: OrderId)
    requires Inv(s) && Balanced(s) && AllPriced(d.lines, d.prices)
    ensures Balanced(PlaceOrder(s, d, id).shop)
  {
    var t := PlaceOrder(s, d, id).shop;
    if PlaceOrder(s, d, id).reply.Ok? {
      assert LinesOf(NewOrder(d).items) == d.lines;
      ReserveLinesLogs(s.stock, d.lines, d.warehouse, id);
      forall key
        ensures BalancedAt(t, key)
      {
        assert BalancedAt(s, key);
        ReservedAfterLogging(s.stock, t.stock, RESERVE, d.lines, d.warehouse, id, key);
        HeldAfterNewOrder(s, id, NewOrder(d), d.warehouse, key);
      }
    }
  }

  lemma CreateFromCartKeepsBalance(s: Shop, r: CreateRequest, id: OrderId)
    requires Inv(s) && Balanced(s)
    ensures Balanced(CreateFromCart(s, r, id).shop)
  {
    var lines := CartOf(s, r.user);
    if CreateFromCart(s, r, id).shop != s {
      PlaceOrderKeepsBalance(s, DraftFor(s, r, lines, Subtotal(Pricing(lines, r.prices))), id);
    }
  }

  lemma PayKeepsBalance(s: Shop, order: OrderId, simulateFailure: bool, key: Option<string>, id: PaymentId)
    requires Inv(s) && Balanced(s) && CallSettled(s, DoPay(order, simulateFailure, key, id))
    ensures Balanced(Pay(s, order, simulateFailure, key, id).shop)
  {
    if !PaymentKeyUsed(s, key) && order in s.orders && id !in s.payments {
      var p := Payment(order, s.orders[order].total, if simulateFailure then FAILED else SUCCEEDED, key);
      var t := s.(payments := s.payments[id := p]);
      assert OrderOk(s.orders[order]);
      NewPaymentOk(s.payments, s.refunds, id, p);
      assert PaymentKeysUnique(t.payments);
      SameTablesBalanced(s, t);
      UpdateStatusKeepsBalance(t, order, if simulateFailure then PAYMENT_FAILED else PAID);
    }
  }

  lemma ReceiveAndAdjustReserveNothing(s: Shop, v: VariantId, at: Option<WarehouseId>, delta: int)
    ensures var (t, u) := (Receive(s, v, at, delta).shop, Adjust(s, v, at, delta).shop);
            && t.orders == s.orders && t.homes == s.homes && u.orders == s.orders && u.homes == s.homes
            && forall key :: At(t.stock, key).reserved == At(s.stock, key).reserved == At(u.stock, key).reserved
  {
  }

  lemma QuietCallsKeepTables(s: Shop, c: Command)
    requires ChangeOf(c).None? && !c.DoCreateOrder?
    ensures Step(s, c).orders == s.orders && Step(s, c).homes == s.homes
    ensures forall key :: At(Step(s, c).stock, key).reserved == At(s.stock, key).reserved
  {
    match c
    case DoReceive(v, at, quantity) => ReceiveAndAdjustReserveNothing(s, v, at, quantity);
    case DoAdjust(v, at, delta) => ReceiveAndAdjustReserveNothing(s, v, at, delta);
    case _ =>
  }

  /** Calls that neither create an order nor change a status leave reserved quantities alone. */
  lemma QuietCallsKeepBalance(s: Shop, c: Command)
    requires Balanced(s) && ChangeOf(c).None? && !c.DoCreateOrder?
    ensures Balanced(Step(s, c))
  {
    QuietCallsKeepTables(s, c);
    SameTablesBalanced(s, Step(s, c));
  }

  lemma StepKeepsBalance(s: Shop, c: Command)
    requires Inv(s) && Balanced(s) && CallSettled(s, c)
    ensures Balanced(Step(s, c))
  {
    match c
    case DoCreateOrder(request, order) => CreateFromCartKeepsBalance(s, request, order);
    case DoUpdateStatus(order, to) => UpdateStatusKeepsBalance(s, order, to);
    case DoTimeout(order) => UpdateStatusKeepsBalance(s, order, CANCELLED);
    case DoPay(order, simulateFailure, key, payment) => PayKeepsBalance(s, order, simulateFailure, key, payment);
    case _ => QuietCallsKeepBalance(s, c);
  }

  lemma {:induction false} SettledRunsBalance(catalog: map<VariantId, VariantInfo>, cs: seq<Command>)
    requires AllWellFormed(cs) && RunSettled(catalog, cs)
    ensures Balanced(Run(catalog, cs))
  {
    if cs == [] {
      forall key
        ensures BalancedAt(Empty(catalog), key)
      {
      }
    } else {
      var n := |cs| - 1;
      forall i | 0 <= i < n
        ensures CallSettled(Run(catalog, cs[..n][..i]), cs[..n][i])
      {
        assert cs[..n][..i] == cs[..i] && cs[i] == cs[..n][i];
      }
      SettledRunsBalance(catalog, cs[..n]);
      RunKeepsInv(catalog, cs[..n]);
      assert CallSettled(Run(catalog, cs[..n]), cs[n]);
      StepKeepsBalance(Run(catalog, cs[..n]), cs[n]);
    }
  }

  lemma BalancedIsNonNegative(s: Shop, key: StockKey)
    requires Inv(s) && Balanced(s)
    ensures 0 <= At(s.stock, key).reserved <= At(s.stock, key).onHand
  {
    assert BalancedAt(s, key) && Available(s.stock, key) >= 0;
    forall id | id in s.orders
      ensures HeldBy(s.orders, s.homes, key)(id) >= 0
    {
      assert OrderOk(s.orders[id]);
      PositiveQuantity(LinesOf(s.orders[id].items), key.variant);
    }
    NonNegative(s.orders.Keys, HeldBy(s.orders, s.homes, key));
  }

  /** No overselling: after a settled run, reserved stock matches the open orders and is covered by stock on hand. */
  lemma SettledRunsDoNotOversell(catalog: map<VariantId, VariantInfo>, cs: seq<Command>, key: StockKey)
    requires AllWellFormed(cs) && RunSettled(catalog, cs)
    ensures var s := Run(catalog, cs);
            && At(s.stock, key).reserved == HeldAt(s.orders, s.homes, key)
            && 0 <= At(s.stock, key).reserved <= At(s.stock, key).onHand
  {
    SettledRunsBalance(catalog, cs);
    RunKeepsInv(catalog, cs);
    BalancedIsNonNegative(Run(catalog, cs), key);
    assert BalancedAt(Run(catalog, cs), key);
  }

  // ---------- One default warehouse and no retry ----------

  /** Warehouse administration never makes another warehouse the default one. */
  ghost predicate FixedDefault(cs: seq<Command>, w: WarehouseId) {
    forall i {:trigger cs[i]} :: 0 <= i < |cs| && cs[i].SetDefaultWarehouse? ==> cs[i].warehouse in {None, Some(w)}
  }

  ghost predicate NoRetries(catalog: map<VariantId, VariantInfo>, cs: seq<Command>) {
    forall i {:trigger cs[i]} :: 0 <= i < |cs| && ChangeOf(cs[i]).Some? ==>
      var s, (id, to) := Run(catalog, cs[..i]), ChangeOf(cs[i]).value;
      id in s.orders ==> !IsRetry(s.orders[id].status, to)
  }

  ghost predicate OnlyWarehouse(s: Shop, w: WarehouseId) {
    s.warehouse in {None, Some(w)} && forall id :: id in s.homes ==> s.homes[id] == w
  }

  lemma StepKeepsOnlyWarehouse(s: Shop, c: Command, w: WarehouseId)
    requires OnlyWarehouse(s, w) && (c.SetDefaultWarehouse? ==> c.warehouse in {None, Some(w)})
    ensures OnlyWarehouse(Step(s, c), w)
  {
  }

  lemma {:induction false} RunKeepsOnlyWarehouse(catalog: map<VariantId, VariantInfo>, cs: seq<Command>, w: WarehouseId)
    requires FixedDefault(cs, w)
    ensures OnlyWarehouse(Run(catalog, cs), w)
  {
    if cs == [] {
    } else {
      var init := cs[..|cs| - 1];
      assert forall i :: 0 <= i < |init| ==> init[i] == cs[i];
      RunKeepsOnlyWarehouse(catalog, init, w);
      StepKeepsOnlyWarehouse(Run(catalog, init), cs[|cs| - 1], w);
    }
  }

  /** With one default warehouse throughout and the retry edge never taken, every run is settled: nothing oversells. */
  lemma PlainRunsDoNotOversell(catalog: map<VariantId, VariantInfo>, cs: seq<Command>, w: WarehouseId, key: StockKey)
    requires AllWellFormed(cs) && FixedDefault(cs, w) && NoRetries(catalog, cs)
    ensures var s := Run(catalog, cs);
            && At(s.stock, key).reserved == HeldAt(s.orders, s.homes, key)
            && 0 <= At(s.stock, key).reserved <= At(s.stock, key).onHand
  {
    forall i | 0 <= i < |cs|
      ensures CallSettled(Run(catalog, cs[..i]), cs[i])
    {
      assert forall j :: 0 <= j < i ==> cs[..i][j] == cs[j];
      RunKeepsOnlyWarehouse(catalog, cs[..i], w);
      assert cs[i] == cs[i];
    }
    SettledRunsDoNotOversell(catalog, cs, key);
  }
}
