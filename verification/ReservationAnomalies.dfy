/** Short runs: why the balance of reservations needs both its conditions, and payments their order never learns of. */
module ReservationAnomalies {
  import opened Common
  import opened OrderRules
  import opened Ledger
  import opened Commerce
  import opened ShopRuns
  import opened ReservationBalance
  import opened Checkout
  import opened ShopCharges

  const CATALOG: map<VariantId, VariantInfo> := map["ink" := VariantInfo(true, false, 1000)]
  const REQUEST := CreateRequest("ann", map["ink" := 250], None, None, 0)

  /** One unit is received, ordered, and the payment fails. */
  const FAILED_PAYMENT: seq<Command> := [
    SetDefaultWarehouse(Some("north")), DoReceive("ink", None, 1000), DoAddItem("ann", "ink", 1000),
    DoCreateOrder(REQUEST, "first"), DoUpdateStatus("first", PAYMENT_FAILED)]

  lemma RunSnoc(cs: seq<Command>, c: Command)
    ensures Run(CATALOG, cs + [c]) == Step(Run(CATALOG, cs), c)
  {
  }

  const KEY := StockKey("ink", "north")

  /** A placed one-unit order of ink, in a shop with one unit on hand. */
  ghost predicate OneOrder(s: Shop, status: Status, onHand: int, reserved: int) {
    && s.catalog == CATALOG && s.warehouse == Some("north")
    && "first" in s.orders && s.orders["first"].status == status
    && LinesOf(s.orders["first"].items) == [Line("ink", 1000)]
    && KEY in s.stock.rows && s.stock.rows[KEY] == StockRow(onHand, reserved)
    && s.payments == map[]
  }

  lemma CartIsFilled()
    ensures var s := Run(CATALOG, FAILED_PAYMENT[..3]);
            && s.catalog == CATALOG && s.warehouse == Some("north") && s.stock.rows == map[KEY := StockRow(1000, 0)]
            && s.carts == map["ann" := [Line("ink", 1000)]] && s.orders == map[] && s.payments == map[]
  {
    var cs := FAILED_PAYMENT;
    assert cs[..0] == [] && cs[..1] == cs[..0] + [cs[0]] && cs[..2] == cs[..1] + [cs[1]]
      && cs[..3] == cs[..2] + [cs[2]];
    RunSnoc(cs[..0], cs[0]);
    RunSnoc(cs[..1], cs[1]);
    RunSnoc(cs[..2], cs[2]);
  }

  lemma OrderIsPlaced()
    ensures OneOrder(Run(CATALOG, FAILED_PAYMENT[..4]), PENDING_PAYMENT, 1000, 1000)
    ensures Run(CATALOG, FAILED_PAYMENT[..4]).stock.rows.Keys == {KEY}
  {
    CartIsFilled();
    assert FAILED_PAYMENT[..4] == FAILED_PAYMENT[..3] + [FAILED_PAYMENT[3]];
    RunSnoc(FAILED_PAYMENT[..3], FAILED_PAYMENT[3]);
    var s := Run(CATALOG, FAILED_PAYMENT[..3]);
    var lines := CartOf(s, "ann");
    var r := ReserveLines(s.stock, lines, "north", "first");
    assert lines[1..] == [];
    assert r.Some? && r.value.rows[KEY] == StockRow(1000, 1000);
  }

  function OnHandMove(from: Status, to: Status): int {
    if PhaseFor(from) == RESERVED && PhaseFor(to) == DEDUCTED then -1000
    else if PhaseFor(from) == DEDUCTED && PhaseFor(to) == NONE then 1000 else 0
  }

  function ReservedMove(from: Status, to: Status): int {
    if PhaseFor(from) == RESERVED && PhaseFor(to) != RESERVED then -1000 else 0
  }

  lemma OneStatusStep(s: Shop, from: Status, to: Status, onHand: int, reserved: int)
    requires OneOrder(s, from, onHand, reserved) && CanTransition(from, to)
    ensures OneOrder(UpdateStatus(s, "first", to).shop, to,
                     onHand + OnHandMove(from, to), reserved + ReservedMove(from, to))
    ensures UpdateStatus(s, "first", to).reply.Ok?
  {
    OneLineMoves(s.stock, from, to, onHand, reserved);
  }

  lemma OneLineMoves(s: Stock, from: Status, to: Status, onHand: int, reserved: int)
    requires KEY in s.rows && s.rows[KEY] == StockRow(onHand, reserved) && CanTransition(from, to)
    ensures var moved := MovedStock(s, [Line("ink", 1000)], PhaseFor(from), PhaseFor(to), "north", "first");
            && moved.Some? && KEY in moved.value.rows
            && moved.value.rows[KEY] == StockRow(onHand + OnHandMove(from, to), reserved + ReservedMove(from, to))
  {
  }

  lemma AfterStatus(cs: seq<Command>, from: Status, to: Status, onHand: int, reserved: int)
    requires OneOrder(Run(CATALOG, cs), from, onHand, reserved) && CanTransition(from, to)
    ensures OneOrder(Run(CATALOG, cs + [DoUpdateStatus("first", to)]), to,
                     onHand + OnHandMove(from, to), reserved + ReservedMove(from, to))
  {
    OneStatusStep(Run(CATALOG, cs), from, to, onHand, reserved);
    RunSnoc(cs, DoUpdateStatus("first", to));
  }

  lemma PaymentFails()
    ensures OneOrder(Run(CATALOG, FAILED_PAYMENT), PAYMENT_FAILED, 1000, 0)
  {
    OrderIsPlaced();
    assert FAILED_PAYMENT == FAILED_PAYMENT[..4] + [DoUpdateStatus("first", PAYMENT_FAILED)];
    AfterStatus(FAILED_PAYMENT[..4], PENDING_PAYMENT, PAYMENT_FAILED, 1000, 1000);
  }

  const RETRY_1 := FAILED_PAYMENT + [DoUpdateStatus("first", PENDING_PAYMENT)]
  const RETRY_2 := RETRY_1 + [DoUpdateStatus("first", PAID)]
  const RETRY_RUN := RETRY_2 + [DoUpdateStatus("first", CONFIRMED)]

  /** After a retried payment the stock is sold without being reserved: nothing is on hand, yet one unit reads
      available. */
  lemma RetryOversells()
    ensures At(Run(CATALOG, RETRY_RUN).stock, KEY) == StockRow(0, -1000)
    ensures CanReserve(Run(CATALOG, RETRY_RUN).stock, KEY, 1000)
  {
    PaymentFails();
    AfterStatus(FAILED_PAYMENT, PAYMENT_FAILED, PENDING_PAYMENT, 1000, 0);
    AfterStatus(RETRY_1, PENDING_PAYMENT, PAID, 1000, 0);
    AfterStatus(RETRY_2, PAID, CONFIRMED, 1000, 0);
  }

  const SOUTH := StockKey("ink", "south")
  const MOVE_1 := FAILED_PAYMENT[..4] + [SetDefaultWarehouse(Some("south"))]
  const MOVE_2 := MOVE_1 + [DoReceive("ink", None, 1000)]
  const MOVE_RUN := MOVE_2 + [DoUpdateStatus("first", CANCELLED)]

  lemma AfterTheMove()
    ensures var s := Run(CATALOG, MOVE_2);
            && s.warehouse == Some("south") && "first" in s.orders && s.orders["first"].status == PENDING_PAYMENT
            && LinesOf(s.orders["first"].items) == [Line("ink", 1000)]
            && At(s.stock, KEY).reserved == 1000 && SOUTH in s.stock.rows && At(s.stock, SOUTH).reserved == 0
  {
    BeforeTheReceipt();
    RunSnoc(MOVE_1, DoReceive("ink", None, 1000));
  }

  lemma BeforeTheReceipt()
    ensures var s := Run(CATALOG, MOVE_1);
            && s == Run(CATALOG, FAILED_PAYMENT[..4]).(warehouse := Some("south"))
            && OneOrder(s.(warehouse := Some("north")), PENDING_PAYMENT, 1000, 1000) && s.stock.rows.Keys == {KEY}
  {
    OrderIsPlaced();
    RunSnoc(FAILED_PAYMENT[..4], SetDefaultWarehouse(Some("south")));
    var s := Run(CATALOG, FAILED_PAYMENT[..4]);
    assert s.(warehouse := Some("north")) == s;
  }

  /** Cancelling after the default warehouse has changed releases stock the new warehouse never reserved. */
  lemma ChangedWarehouseBreaksBalance()
    ensures At(Run(CATALOG, MOVE_RUN).stock, KEY).reserved == 1000
    ensures At(Run(CATALOG, MOVE_RUN).stock, SOUTH).reserved == -1000
  {
    AfterTheMove();
    RunSnoc(MOVE_2, DoUpdateStatus("first", CANCELLED));
    var s := Run(CATALOG, MOVE_2);
    var lines := LinesOf(s.orders["first"].items);
    assert lines[1..] == [];
    var moved := MoveLine(s.stock, RELEASE, SOUTH, 1000, "first");
    assert MoveLines(s.stock, RELEASE, lines, "south", "first") == moved;
  }

  /** The first run keeps one default warehouse; the second never retries. Each breaks one condition only. */
  lemma RetryRunKeepsWarehouse()
    ensures AllWellFormed(RETRY_RUN) && FixedDefault(RETRY_RUN, "north")
  {
  }

  lemma MoveRunNeverRetries()
    ensures AllWellFormed(MOVE_RUN) && NoRetries(CATALOG, MOVE_RUN)
  {
  }

  /** A second attempt to pay reports an error, and yet the payment is there and has succeeded. */
  lemma PaymentWithoutOrder()
    ensures var t := Pay(Run(CATALOG, FAILED_PAYMENT), "first", false, Some("k"), "p");
            && t.reply == Err(Conflict) && t.shop.orders["first"].status == PAYMENT_FAILED
            && "p" in t.shop.payments && t.shop.payments["p"].status == SUCCEEDED
            && Pay(t.shop, "first", false, Some("k"), "p") == Outcome(t.shop, Ok("p"))
  {
    PaymentFails();
    RunKeepsInv(CATALOG, FAILED_PAYMENT);
    PayAfterFailureLeavesRow(Run(CATALOG, FAILED_PAYMENT), "first", false, Some("k"), "p");
  }

  function BothCharges(total: int): map<PaymentId, Payment> {
    map["p" := Success("first", total, Some("k")), "q" := Success("first", total, Some("l"))]
  }

  function PaidInVain(cs: seq<Command>): seq<Command> {
    cs + [DoPay("first", false, Some("k"), "p")]
  }

  function Retried(cs: seq<Command>): seq<Command> {
    PaidInVain(cs) + [DoUpdateStatus("first", PENDING_PAYMENT)]
  }

  lemma {:induction false} RetriedState(cs: seq<Command>)
    ensures Run(CATALOG, Retried(cs)) ==
            UpdateStatus(Pay(Run(CATALOG, cs), "first", false, Some("k"), "p").shop, "first", PENDING_PAYMENT).shop
  {
    RunSnoc(cs, DoPay("first", false, Some("k"), "p"));
    RunSnoc(PaidInVain(cs), DoUpdateStatus("first", PENDING_PAYMENT));
  }

  /** Whenever the payment of the one order has failed, two more payments charge it twice. */
  lemma {:induction false} TwoPaymentsChargeTwice(cs: seq<Command>, onHand: int, reserved: int)
    requires OneOrder(Run(CATALOG, cs), PAYMENT_FAILED, onHand, reserved)
    ensures PaidBy(Pay(Run(CATALOG, Retried(cs)), "first", false, Some("l"), "q"), "first", "q",
                   BothCharges(Run(CATALOG, cs).orders["first"].total))
  {
    var s := Run(CATALOG, cs);
    RetriedState(cs);
    RetryChargesTwice(s, "first", Some("k"), "p", Some("l"), "q");
    var total := s.orders["first"].total;
    var (first, second) := (Success("first", total, Some("k")), Success("first", total, Some("l")));
    assert s.payments["p" := first]["q" := second] == BothCharges(total);
  }

  /** A run that charges its one order twice. */
  lemma DoubleCharge()
    ensures "first" in Run(CATALOG, FAILED_PAYMENT).orders
    ensures PaidBy(Pay(Run(CATALOG, Retried(FAILED_PAYMENT)), "first", false, Some("l"), "q"), "first", "q",
                   BothCharges(Run(CATALOG, FAILED_PAYMENT).orders["first"].total))
  {
    PaymentFails();
    TwoPaymentsChargeTwice(FAILED_PAYMENT, 1000, 0);
  }
}
