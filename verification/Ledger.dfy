/**
 Inventory rows and the movements that explain them. Quantities are integers, in thousandths of a unit.
 Functions here say what each inventory operation does to the two tables.
 */
module Ledger {
  import opened Common

  type VariantId = string
  type WarehouseId = string
  type OrderId = string

  datatype StockKey = StockKey(variant: VariantId, warehouse: WarehouseId)
  datatype StockRow = StockRow(onHand: int, reserved: int)

  datatype Kind = RECEIPT | ADJUSTMENT | RESERVE | RELEASE | DEDUCT | RETURN
  datatype Movement = Movement(kind: Kind, key: StockKey, quantity: int, order: Option<OrderId>)

  datatype Stock = Stock(rows: map<StockKey, StockRow>, movements: seq<Movement>)

  /** A line of an order: how much of which variant. */
  datatype Line = Line(variant: VariantId, quantity: int)

  /** A missing row counts as an empty one. */
  function At(s: Stock, key: StockKey): StockRow {
    if key in s.rows then s.rows[key] else StockRow(0, 0)
  }

  function Available(s: Stock, key: StockKey): int {
    At(s, key).onHand - At(s, key).reserved
  }

  // ---------- The operations ----------

  function WithRow(s: Stock, key: StockKey): Stock {
    s.(rows := s.rows[key := At(s, key)])
  }

  /** Change a row by the given amounts and log one movement. */
  function Post(s: Stock, key: StockKey, onHand: int, reserved: int, m: Movement): Stock {
    Stock(s.rows[key := StockRow(At(s, key).onHand + onHand, At(s, key).reserved + reserved)], s.movements + [m])
  }

  function Received(s: Stock, key: StockKey, quantity: int): Stock {
    Post(s, key, quantity, 0, Movement(RECEIPT, key, quantity, None))
  }

  function Adjusted(s: Stock, key: StockKey, delta: int): Stock {
    Post(s, key, delta, 0, Movement(ADJUSTMENT, key, delta, None))
  }

  predicate CanReserve(s: Stock, key: StockKey, quantity: int) {
    Available(s, key) >= quantity
  }

  function Reserved(s: Stock, key: StockKey, quantity: int, order: OrderId): Stock {
    Post(s, key, 0, quantity, Movement(RESERVE, key, quantity, Some(order)))
  }

  /** release, deduct and return: what moving one line out of its phase does, if the row it needs exists. */
  function MoveLine(s: Stock, kind: Kind, key: StockKey, quantity: int, order: OrderId): Option<Stock> {
    var m := Movement(kind, key, quantity, Some(order));
    match kind
    case RELEASE => if key in s.rows then Some(Post(s, key, 0, -quantity, m)) else None
    case DEDUCT => if key in s.rows then Some(Post(s, key, -quantity, -quantity, m)) else None
    case RETURN => Some(Post(s, key, quantity, 0, m))
    case _ => None
  }

  /** A loop of MoveLine over an order's lines; None when some line fails and the transaction rolls back. */
  function MoveLines(s: Stock, kind: Kind, lines: seq<Line>, w: WarehouseId, order: OrderId): Option<Stock>
    decreases |lines|
  {
    if lines == [] then Some(s)
    else
      var moved := MoveLine(s, kind, StockKey(lines[0].variant, w), lines[0].quantity, order);
      if moved.None? then None else MoveLines(moved.value, kind, lines[1..], w, order)
  }

  /** A loop of reserve over an order's lines; None as soon as one line is short. */
  function ReserveLines(s: Stock, lines: seq<Line>, w: WarehouseId, order: OrderId): Option<Stock>
    decreases |lines|
  {
    if lines == [] then Some(s)
    else
      var key := StockKey(lines[0].variant, w);
      if !CanReserve(s, key, lines[0].quantity) then None
      else ReserveLines(Reserved(s, key, lines[0].quantity, order), lines[1..], w, order)
  }

  // ---------- Movements explain rows ----------

  /** The sum of a weight over a list of movements. */
  ghost function Sum(ms: seq<Movement>, weight: Movement -> int): int {
    if ms == [] then 0 else Sum(ms[..|ms| - 1], weight) + weight(ms[|ms| - 1])
  }

  function OnHandEffect(m: Movement): int {
    match m.kind
    case RECEIPT | ADJUSTMENT | RETURN => m.quantity
    case DEDUCT => -m.quantity
    case RESERVE | RELEASE => 0
  }

  function ReservedEffect(m: Movement): int {
    match m.kind
    case RESERVE => m.quantity
    case RELEASE | DEDUCT => -m.quantity
    case RECEIPT | ADJUSTMENT | RETURN => 0
  }

  function OnHandAt(key: StockKey): Movement -> int {
    (m: Movement) => if m.key == key then OnHandEffect(m) else 0
  }

  function ReservedAt(key: StockKey): Movement -> int {
    (m: Movement) => if m.key == key then ReservedEffect(m) else 0
  }

  /** Every inventory row is the fold of its movements. */
  ghost predicate Explained(s: Stock) {
    forall key :: At(s, key) == StockRow(Sum(s.movements, OnHandAt(key)), Sum(s.movements, ReservedAt(key)))
  }

  /** No row promises more than it holds. */
  ghost predicate Covered(s: Stock) {
    forall key :: Available(s, key) >= 0
  }

  lemma SumSnoc(ms: seq<Movement>, m: Movement, weight: Movement -> int)
    ensures Sum(ms + [m], weight) == Sum(ms, weight) + weight(m)
  {
  }

  lemma PostKeepsExplained(s: Stock, key: StockKey, onHand: int, reserved: int, m: Movement)
    requires Explained(s) && m.key == key && OnHandEffect(m) == onHand && ReservedEffect(m) == reserved
    ensures Explained(Post(s, key, onHand, reserved, m))
  {
  }

  /** How much of a variant a list of lines asks for. */
  function Quantity(lines: seq<Line>, v: VariantId): int {
    if lines == [] then 0
    else (if lines[0].variant == v then lines[0].quantity else 0) + Quantity(lines[1..], v)
  }

  /** The movements logged for a list of lines. */
  function Logged(kind: Kind, lines: seq<Line>, w: WarehouseId, order: OrderId): (ms: seq<Movement>)
    ensures |ms| == |lines|
  {
    seq(|lines|, i requires 0 <= i < |lines| =>
      Movement(kind, StockKey(lines[i].variant, w), lines[i].quantity, Some(order)))
  }

  ghost predicate Positive(lines: seq<Line>) {
    forall i :: 0 <= i < |lines| ==> lines[i].quantity > 0
  }

  /** One movement explains every kind of move, and none of the three takes from what is available. */
  lemma MoveLineIsPost(s: Stock, kind: Kind, key: StockKey, quantity: int, order: OrderId)
    requires quantity > 0 && MoveLine(s, kind, key, quantity, order).Some?
    ensures var m := Movement(kind, key, quantity, Some(order));
            && OnHandEffect(m) >= ReservedEffect(m)
            && MoveLine(s, kind, key, quantity, order).value == Post(s, key, OnHandEffect(m), ReservedEffect(m), m)
  {
  }

  lemma PostKeepsCovered(s: Stock, key: StockKey, onHand: int, reserved: int, m: Movement)
    requires Covered(s) && (onHand >= reserved || Available(s, key) >= reserved - onHand)
    ensures Covered(Post(s, key, onHand, reserved, m))
  {
    forall k
      ensures Available(Post(s, key, onHand, reserved, m), k) >= 0
    {
      assert Available(s, k) >= 0;
    }
  }

  lemma {:induction false} MoveLineLogs(s: Stock, kind: Kind, key: StockKey, quantity: int, order: OrderId)
    requires Explained(s) && Covered(s) && quantity > 0 && MoveLine(s, kind, key, quantity, order).Some?
    ensures var u := MoveLine(s, kind, key, quantity, order).value;
            && Explained(u) && Covered(u) && u.movements == s.movements + [Movement(kind, key, quantity, Some(order))]
  {
    var m := Movement(kind, key, quantity, Some(order));
    MoveLineIsPost(s, kind, key, quantity, order);
    PostKeepsExplained(s, key, OnHandEffect(m), ReservedEffect(m), m);
    PostKeepsCovered(s, key, OnHandEffect(m), ReservedEffect(m), m);
  }

  /** Moving lines logs one movement per line, keeps rows explained and availability non-negative. */
  lemma {:induction false} MoveLinesLogs(s: Stock, kind: Kind, lines: seq<Line>, w: WarehouseId, order: OrderId)
    requires Explained(s) && Covered(s) && Positive(lines)
    requires MoveLines(s, kind, lines, w, order).Some?
    ensures var u := MoveLines(s, kind, lines, w, order).value;
            && Explained(u) && Covered(u)
            && u.movements == s.movements + Logged(kind, lines, w, order)
    decreases |lines|
  {
    if lines == [] {
    } else {
      var key := StockKey(lines[0].variant, w);
      var m := Movement(kind, key, lines[0].quantity, Some(order));
      var moved := MoveLine(s, kind, key, lines[0].quantity, order).value;
      MoveLineLogs(s, kind, key, lines[0].quantity, order);
      MoveLinesLogs(moved, kind, lines[1..], w, order);
      assert Logged(kind, lines, w, order) == [m] + Logged(kind, lines[1..], w, order);
    }
  }

  lemma {:induction false} ReserveLinesLogs(s: Stock, lines: seq<Line>, w: WarehouseId, order: OrderId)
    requires Explained(s) && Covered(s)
    requires ReserveLines(s, lines, w, order).Some?
    ensures var u := ReserveLines(s, lines, w, order).value;
            && Explained(u) && Covered(u)
            && u.movements == s.movements + Logged(RESERVE, lines, w, order)
    decreases |lines|
  {
    if lines == [] {
    } else {
      var key := StockKey(lines[0].variant, w);
      var m := Movement(RESERVE, key, lines[0].quantity, Some(order));
      var moved := Reserved(s, key, lines[0].quantity, order);
      PostKeepsExplained(s, key, 0, lines[0].quantity, m);
      PostKeepsCovered(s, key, 0, lines[0].quantity, m);
      ReserveLinesLogs(moved, lines[1..], w, order);
      assert Logged(RESERVE, lines, w, order) == [m] + Logged(RESERVE, lines[1..], w, order);
    }
  }

  lemma Distribute(c: int, a: int, b: int)
    ensures c * (a + b) == c * a + c * b && c * 0 == 0
  {
  }

  /** What the movements of a list of lines add up to, under a weight that is linear in the quantity. */
  lemma {:induction false} SumLogged(ms: seq<Movement>, kind: Kind, lines: seq<Line>, w: WarehouseId, order: OrderId,
                                     weight: Movement -> int, v: VariantId, sign: int)
    requires forall line: Line :: weight(Movement(kind, StockKey(line.variant, w), line.quantity, Some(order)))
                                  == if line.variant == v then sign * line.quantity else 0
    ensures Sum(ms + Logged(kind, lines, w, order), weight) == Sum(ms, weight) + sign * Quantity(lines, v)
    decreases |lines|
  {
    if lines == [] {
      assert ms + Logged(kind, lines, w, order) == ms;
    } else {
      var m := Movement(kind, StockKey(lines[0].variant, w), lines[0].quantity, Some(order));
      assert weight(m) == if lines[0].variant == v then sign * lines[0].quantity else 0;
      SumSnoc(ms, m, weight);
      SumLogged(ms + [m], kind, lines[1..], w, order, weight, v, sign);
      Distribute(sign, if lines[0].variant == v then lines[0].quantity else 0, Quantity(lines[1..], v));
      assert ms + Logged(kind, lines, w, order) == ms + [m] + Logged(kind, lines[1..], w, order);
    }
  }

  lemma {:induction false} SumLoggedElsewhere(ms: seq<Movement>, kind: Kind, lines: seq<Line>, w: WarehouseId,
                                              order: OrderId, weight: Movement -> int)
    requires forall line: Line :: weight(Movement(kind, StockKey(line.variant, w), line.quantity, Some(order))) == 0
    ensures Sum(ms + Logged(kind, lines, w, order), weight) == Sum(ms, weight)
    decreases |lines|
  {
    if lines == [] {
      assert ms + Logged(kind, lines, w, order) == ms;
    } else {
      var m := Movement(kind, StockKey(lines[0].variant, w), lines[0].quantity, Some(order));
      assert weight(Movement(kind, StockKey(lines[0].variant, w), lines[0].quantity, Some(order))) == 0;
      SumSnoc(ms, m, weight);
      SumLoggedElsewhere(ms + [m], kind, lines[1..], w, order, weight);
      assert ms + Logged(kind, lines, w, order) == ms + [m] + Logged(kind, lines[1..], w, order);
    }
  }

  ghost predicate OneLinePerVariant(lines: seq<Line>) {
    forall i, j :: 0 <= i < j < |lines| ==> lines[i].variant != lines[j].variant
  }

  /** With one line per variant, reserving them all succeeds exactly when each line is available on its own. */
  lemma {:induction false} ReserveLinesSucceedsIff(s: Stock, lines: seq<Line>, w: WarehouseId, order: OrderId)
    requires OneLinePerVariant(lines)
    ensures ReserveLines(s, lines, w, order).Some? <==>
            forall i :: 0 <= i < |lines| ==> Available(s, StockKey(lines[i].variant, w)) >= lines[i].quantity
    decreases |lines|
  {
    if lines == [] {
    } else {
      var key := StockKey(lines[0].variant, w);
      var moved := Reserved(s, key, lines[0].quantity, order);
      ReserveLinesSucceedsIff(moved, lines[1..], w, order);
      forall i | 0 < i < |lines|
        ensures Available(moved, StockKey(lines[i].variant, w)) == Available(s, StockKey(lines[i].variant, w))
        ensures lines[i] == lines[1..][i - 1]
      {
      }
    }
  }
}
