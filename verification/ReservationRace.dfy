/**
 Many order transactions in flight at once. Each step is one atomic statement: a guarded UPDATE that
 reserves one line, a rollback that gives an order's lines back, a commit, or a receipt of stock.
 Steps of different orders interleave in any way.
 */
module ReservationRace {
  import opened Sums
  import opened Ledger
  import opened ShopInvariants

  type Txn = nat

  datatype Race = Race(
    onHand: map<VariantId, int>,
    reserved: map<VariantId, int>,
    open: map<Txn, seq<Line>>,      // lines granted so far to each order in flight
    committed: seq<Line>)           // lines of orders that committed

  datatype Event =
    | Begin(t: Txn)
    | ReserveLine(t: Txn, line: Line)
    | Abort(t: Txn)
    | Commit(t: Txn)
    | Receipt(v: VariantId, quantity: int)

  function Get(m: map<VariantId, int>, v: VariantId): int {
    if v in m then m[v] else 0
  }

  function Add(m: map<VariantId, int>, v: VariantId, q: int): map<VariantId, int> {
    m[v := Get(m, v) + q]
  }

  /** Rollback undoes the order's own updates, one by one. */
  function GiveBack(reserved: map<VariantId, int>, lines: seq<Line>): map<VariantId, int>
    decreases |lines|
  {
    if lines == [] then reserved
    else GiveBack(Add(reserved, lines[0].variant, -lines[0].quantity), lines[1..])
  }

  function Rolledback(r: Race, t: Txn): Race
    requires t in r.open
  {
    r.(reserved := GiveBack(r.reserved, r.open[t]), open := r.open - {t})
  }

  /** A refused line makes its order fail, which rolls the whole order back. Events of unknown orders do nothing. */
  function Next(r: Race, e: Event): Race {
    match e
    case Begin(t) => if t in r.open then r else r.(open := r.open[t := []])
    case ReserveLine(t, line) =>
      if t !in r.open || line.quantity <= 0 then r
      else if Get(r.onHand, line.variant) - Get(r.reserved, line.variant) >= line.quantity then
        r.(reserved := Add(r.reserved, line.variant, line.quantity), open := r.open[t := r.open[t] + [line]])
      else Rolledback(r, t)
    case Abort(t) => if t in r.open then Rolledback(r, t) else r
    case Commit(t) =>
      if t in r.open then r.(committed := r.committed + r.open[t], open := r.open - {t}) else r
    case Receipt(v, quantity) => if quantity > 0 then r.(onHand := Add(r.onHand, v, quantity)) else r
  }

  function After(schedule: seq<Event>): Race {
    if schedule == [] then Race(map[], map[], map[], [])
    else Next(After(schedule[..|schedule| - 1]), schedule[|schedule| - 1])
  }

  ghost function OpenBy(open: map<Txn, seq<Line>>, v: VariantId): Txn -> int {
    (t: Txn) => if t in open then Quantity(open[t], v) else 0
  }

  /** All reservations granted and not given back: those of committed orders and of orders in flight. */
  ghost function Granted(r: Race, v: VariantId): int {
    Quantity(r.committed, v) + SumOver(r.open.Keys, OpenBy(r.open, v))
  }

  ghost predicate SafeAt(r: Race, v: VariantId) {
    Get(r.reserved, v) == Granted(r, v) && 0 <= Granted(r, v) <= Get(r.onHand, v)
  }

  ghost predicate Safe(r: Race) {
    && (forall v :: SafeAt(r, v))
    && (forall t {:trigger r.open[t]} :: t in r.open ==> Positive(r.open[t]))
    && Positive(r.committed)
  }

  lemma {:induction false} QuantityConcat(a: seq<Line>, b: seq<Line>, v: VariantId)
    ensures Quantity(a + b, v) == Quantity(a, v) + Quantity(b, v)
  {
    if a == [] {
      assert a + b == b;
    } else {
      QuantityConcat(a[1..], b, v);
      assert (a + b)[1..] == a[1..] + b;
    }
  }

  lemma {:induction false} GiveBackTakes(reserved: map<VariantId, int>, lines: seq<Line>, v: VariantId)
    ensures Get(GiveBack(reserved, lines), v) == Get(reserved, v) - Quantity(lines, v)
    decreases |lines|
  {
    if lines == [] {
    } else {
      GiveBackTakes(Add(reserved, lines[0].variant, -lines[0].quantity), lines[1..], v);
    }
  }

  lemma WithoutTxn(r: Race, t: Txn, v: VariantId)
    requires t in r.open
    ensures SumOver(r.open.Keys, OpenBy(r.open, v)) ==
            Quantity(r.open[t], v) + SumOver((r.open - {t}).Keys, OpenBy(r.open - {t}, v))
  {
    Pull(r.open.Keys, OpenBy(r.open, v), t);
    assert (r.open - {t}).Keys == r.open.Keys - {t};
    Agree(r.open.Keys - {t}, OpenBy(r.open, v), OpenBy(r.open - {t}, v));
  }

  lemma GrantedIsNonNegative(r: Race, v: VariantId)
    requires Positive(r.committed) && forall t {:trigger r.open[t]} :: t in r.open ==> Positive(r.open[t])
    ensures Granted(r, v) >= 0
  {
    PositiveQuantity(r.committed, v);
    forall t | t in r.open
      ensures OpenBy(r.open, v)(t) >= 0
    {
      PositiveQuantity(r.open[t], v);
    }
    NonNegative(r.open.Keys, OpenBy(r.open, v));
  }

  lemma RollbackAt(r: Race, t: Txn, v: VariantId)
    requires Safe(r) && t in r.open
    ensures SafeAt(Rolledback(r, t), v)
  {
    assert SafeAt(r, v);
    WithoutTxn(r, t, v);
    GiveBackTakes(r.reserved, r.open[t], v);
    PositiveQuantity(r.open[t], v);
    GrantedIsNonNegative(Rolledback(r, t), v);
  }

  lemma CommitAt(r: Race, t: Txn, v: VariantId)
    requires Safe(r) && t in r.open
    ensures SafeAt(Next(r, Commit(t)), v)
  {
    assert SafeAt(r, v);
    WithoutTxn(r, t, v);
    QuantityConcat(r.committed, r.open[t], v);
  }

  lemma GrantAt(r: Race, t: Txn, line: Line, v: VariantId)
    requires Safe(r) && t in r.open && line.quantity > 0
    requires Get(r.onHand, line.variant) - Get(r.reserved, line.variant) >= line.quantity
    ensures SafeAt(Next(r, ReserveLine(t, line)), v)
  {
    var open := r.open[t := r.open[t] + [line]];
    assert SafeAt(r, v);
    assert open.Keys == r.open.Keys;
    ChangeOne(r.open.Keys, OpenBy(r.open, v), OpenBy(open, v), t);
    QuantityConcat(r.open[t], [line], v);
    assert [line][1..] == [];
  }

  lemma BeginAt(r: Race, t: Txn, v: VariantId)
    requires Safe(r) && t !in r.open
    ensures SafeAt(Next(r, Begin(t)), v)
  {
    var open := r.open[t := []];
    assert SafeAt(r, v);
    assert open.Keys == r.open.Keys + {t};
    AddOne(r.open.Keys, OpenBy(r.open, v), OpenBy(open, v), t);
  }

  lemma NextIsSafe(r: Race, e: Event)
    requires Safe(r)
    ensures Safe(Next(r, e))
  {
    var n := Next(r, e);
    forall v
      ensures SafeAt(n, v)
    {
      assert SafeAt(r, v);
      if n != r {
        match e
        case Begin(t) => BeginAt(r, t, v);
        case ReserveLine(t, line) =>
          if Get(r.onHand, line.variant) - Get(r.reserved, line.variant) >= line.quantity {
            GrantAt(r, t, line, v);
          } else {
            RollbackAt(r, t, v);
          }
        case Abort(t) => RollbackAt(r, t, v);
        case Commit(t) => CommitAt(r, t, v);
        case Receipt(w, quantity) =>
      }
    }
  }

  /** Whatever the interleaving, grants are counted exactly and never exceed what is on hand. */
  lemma {:induction false} NoInterleavingOversells(schedule: seq<Event>)
    ensures Safe(After(schedule))
  {
    if schedule != [] {
      NoInterleavingOversells(schedule[..|schedule| - 1]);
      NextIsSafe(After(schedule[..|schedule| - 1]), schedule[|schedule| - 1]);
    } else {
      forall v
        ensures SafeAt(After([]), v)
      {
      }
    }
  }

  /** In any interleaving, a line is granted exactly when what is on hand covers it beside everything granted to other
      orders, committed or in flight; if not, its own order is gone and every other one goes on. */
  lemma GrantedIff(schedule: seq<Event>, t: Txn, line: Line)
    requires t in After(schedule).open && line.quantity > 0
    ensures var r := After(schedule);
            var n := Next(r, ReserveLine(t, line));
            && (t in n.open <==> Get(r.onHand, line.variant) - Granted(r, line.variant) >= line.quantity)
            && (t in n.open ==> n.open[t] == r.open[t] + [line])
            && (forall u :: u != t ==> (u in n.open <==> u in r.open) && (u in r.open ==> n.open[u] == r.open[u]))
            && n.onHand == r.onHand && n.committed == r.committed
  {
    NoInterleavingOversells(schedule);
    assert SafeAt(After(schedule), line.variant);
  }

  /** Aborted orders leave no trace: once no order is in flight, reserved stock is what committed orders hold. */
  lemma OnlyCommittedOrdersRemain(schedule: seq<Event>, v: VariantId)
    requires After(schedule).open == map[]
    ensures Get(After(schedule).reserved, v) == Quantity(After(schedule).committed, v) <= Get(After(schedule).onHand, v)
  {
    NoInterleavingOversells(schedule);
    assert SafeAt(After(schedule), v);
  }
}
