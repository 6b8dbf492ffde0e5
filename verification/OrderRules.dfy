/** The order state machine: allowed transitions, stock phases, and what a status history can look like. */
module OrderRules {
  import opened Common

  datatype Status =
    | DRAFT | PENDING_PAYMENT | PAID | CONFIRMED | PROCESSING | READY_TO_SHIP | SHIPPED | DELIVERED
    | CANCELLED | PAYMENT_FAILED | RETURN_REQUESTED | RETURNED | REFUNDED

  datatype Phase = RESERVED | DEDUCTED | NONE

  function AllowedTransitions(from: Status): seq<Status> {
    match from
    case DRAFT => [PENDING_PAYMENT, CANCELLED]
    case PENDING_PAYMENT => [PAID, PAYMENT_FAILED, CANCELLED]
    case PAYMENT_FAILED => [PENDING_PAYMENT, CANCELLED]
    case PAID => [CONFIRMED, CANCELLED]
    case CONFIRMED => [PROCESSING, CANCELLED]
    case PROCESSING => [READY_TO_SHIP, CANCELLED]
    case READY_TO_SHIP => [SHIPPED]
    case SHIPPED => [DELIVERED, RETURN_REQUESTED]
    case DELIVERED => [RETURN_REQUESTED]
    case RETURN_REQUESTED => [RETURNED]
    case RETURNED => [REFUNDED]
    case CANCELLED => []
    case REFUNDED => []
  }

  predicate CanTransition(from: Status, to: Status) {
    to in AllowedTransitions(from)
  }

  /** The table read the other way, by the status entered: what ships can no longer be cancelled, only returned. */
  lemma EnteredFrom(from: Status, to: Status)
    ensures CanTransition(from, to) <==>
            from in match to
                    case PENDING_PAYMENT => {DRAFT, PAYMENT_FAILED}
                    case PAID | PAYMENT_FAILED => {PENDING_PAYMENT}
                    case CONFIRMED => {PAID}
                    case PROCESSING => {CONFIRMED}
                    case READY_TO_SHIP => {PROCESSING}
                    case SHIPPED => {READY_TO_SHIP}
                    case DELIVERED => {SHIPPED}
                    case RETURN_REQUESTED => {SHIPPED, DELIVERED}
                    case RETURNED => {RETURN_REQUESTED}
                    case REFUNDED => {RETURNED}
                    case CANCELLED => {DRAFT, PENDING_PAYMENT, PAYMENT_FAILED, PAID, CONFIRMED, PROCESSING}
                    case DRAFT => {}
  {
  }

  function PhaseFor(status: Status): Phase {
    match status
    case DRAFT | PENDING_PAYMENT | PAID => RESERVED
    case CONFIRMED | PROCESSING | READY_TO_SHIP | SHIPPED | DELIVERED => DEDUCTED
    case _ => NONE
  }

  /** The retry edge, the one transition that enters the RESERVED phase without a stock movement. */
  predicate IsRetry(from: Status, to: Status) {
    from == PAYMENT_FAILED && to == PENDING_PAYMENT
  }

  /** Stock phases only move forward, RESERVED to DEDUCTED to NONE or RESERVED to NONE, except on the retry edge. */
  lemma PhaseMoves(from: Status, to: Status)
    requires CanTransition(from, to)
    ensures PhaseFor(from) == NONE && PhaseFor(to) != NONE <==> IsRetry(from, to)
    ensures PhaseFor(from) == DEDUCTED ==> PhaseFor(to) != RESERVED
  {
  }

  datatype Entry = Entry(from: Option<Status>, to: Status)

  /** A history starts with null -> PENDING_PAYMENT and follows allowed transitions. */
  ghost predicate IsHistory(h: seq<Entry>) {
    && h != []
    && h[0] == Entry(None, PENDING_PAYMENT)
    && forall i :: 0 < i < |h| ==> h[i].from == Some(h[i - 1].to) && CanTransition(h[i - 1].to, h[i].to)
  }

  function Last(h: seq<Entry>): Status
    requires h != []
  {
    h[|h| - 1].to
  }

  function Retries(h: seq<Entry>): nat {
    if h == [] then 0
    else
      var e := h[|h| - 1];
      Retries(h[..|h| - 1]) + (if e.from.Some? && IsRetry(e.from.value, e.to) then 1 else 0)
  }

  /** The largest number of non-retry transitions that lead to a status. */
  function Level(status: Status): nat {
    match status
    case DRAFT | PENDING_PAYMENT => 0
    case PAYMENT_FAILED | PAID => 1
    case CONFIRMED => 2
    case PROCESSING => 3
    case READY_TO_SHIP | CANCELLED => 4
    case SHIPPED => 5
    case DELIVERED => 6
    case RETURN_REQUESTED => 7
    case RETURNED => 8
    case REFUNDED => 9
  }

  lemma {:induction false} HistoryLength(h: seq<Entry>)
    requires IsHistory(h)
    ensures |h| - 1 <= 2 * Retries(h) + Level(Last(h))
    ensures Last(h) != DRAFT
  {
    if |h| > 1 {
      HistoryLength(h[..|h| - 1]);
    } else {
      assert h[..0] == [];
    }
  }

  /** With k retries an order makes at most 2k + 9 transitions. */
  lemma HistoryIsShort(h: seq<Entry>)
    requires IsHistory(h)
    ensures |h| - 1 <= 2 * Retries(h) + 9
  {
    HistoryLength(h);
  }

  lemma Extend(h: seq<Entry>, to: Status)
    requires IsHistory(h) && CanTransition(Last(h), to)
    ensures IsHistory(h + [Entry(Some(Last(h)), to)])
    ensures Last(h + [Entry(Some(Last(h)), to)]) == to
    ensures Retries(h + [Entry(Some(Last(h)), to)]) == Retries(h) + (if IsRetry(Last(h), to) then 1 else 0)
  {
  }

  // ---------- What a history tells about its last status ----------

  ghost predicate Ever(h: seq<Entry>, status: Status) {
    exists i :: 0 <= i < |h| && h[i].to == status
  }

  function Times(h: seq<Entry>, status: Status): nat {
    if h == [] then 0
    else Times(h[..|h| - 1], status) + (if h[|h| - 1].to == status then 1 else 0)
  }

  lemma EverSnoc(h: seq<Entry>, e: Entry, status: Status)
    ensures Ever(h + [e], status) <==> Ever(h, status) || e.to == status
    ensures Times(h + [e], status) == Times(h, status) + (if e.to == status then 1 else 0)
  {
    var g := h + [e];
    assert g[..|h|] == h && g[|h|] == e;
    if i :| 0 <= i < |h| && h[i].to == status {
      assert g[i] == h[i];
    }
  }

  /** Which statuses an order has been through, by the one it is in. */
  ghost predicate BeenThrough(h: seq<Entry>, status: Status) {
    && (Ever(h, CANCELLED) <==> status == CANCELLED)
    && (Ever(h, RETURN_REQUESTED) <==> status in {RETURN_REQUESTED, RETURNED, REFUNDED})
    && (status != CANCELLED ==> (Ever(h, CONFIRMED) <==> status !in {PENDING_PAYMENT, PAYMENT_FAILED, PAID}))
    && Retries(h) == Times(h, PENDING_PAYMENT) - 1
    && (status in {PENDING_PAYMENT, PAID} ==> Times(h, PAYMENT_FAILED) == Times(h, PENDING_PAYMENT) - 1)
    && (status == PAYMENT_FAILED ==> Times(h, PAYMENT_FAILED) == Times(h, PENDING_PAYMENT))
  }

  lemma {:induction false} ThroughNext(h: seq<Entry>, from: Status, to: Status)
    requires BeenThrough(h, from) && CanTransition(from, to) && from != DRAFT
    ensures BeenThrough(h + [Entry(Some(from), to)], to)
  {
    var (g, e) := (h + [Entry(Some(from), to)], Entry(Some(from), to));
    assert g[..|h|] == h;
    EverSnoc(h, e, CANCELLED);
    EverSnoc(h, e, RETURN_REQUESTED);
    EverSnoc(h, e, CONFIRMED);
    EverSnoc(h, e, PENDING_PAYMENT);
    EverSnoc(h, e, PAYMENT_FAILED);
    EnteredFrom(from, to);
  }

  lemma {:induction false} HistoryTells(h: seq<Entry>)
    requires IsHistory(h)
    ensures BeenThrough(h, Last(h)) && Last(h) != DRAFT
  {
    if |h| == 1 {
      assert h[..0] == [] && h[0].to == PENDING_PAYMENT;
    } else {
      var init := h[..|h| - 1];
      HistoryTells(init);
      assert h == init + [Entry(Some(Last(init)), Last(h))];
      ThroughNext(init, Last(init), Last(h));
    }
  }

  /** An order's lines have left the stock: it has been confirmed and neither cancelled nor sent back. */
  ghost predicate LeftStock(h: seq<Entry>) {
    Ever(h, CONFIRMED) && !Ever(h, CANCELLED) && !Ever(h, RETURN_REQUESTED)
  }

  /** An order still waits to be confirmed: no payment has failed since the last time it was made to wait. */
  ghost predicate StillOpen(h: seq<Entry>) {
    !Ever(h, CONFIRMED) && !Ever(h, CANCELLED) && Times(h, PAYMENT_FAILED) < Times(h, PENDING_PAYMENT)
  }

  /** The stock phase of an order, from its history alone. */
  lemma PhaseFromHistory(h: seq<Entry>)
    requires IsHistory(h)
    ensures PhaseFor(Last(h)) == DEDUCTED <==> LeftStock(h)
    ensures PhaseFor(Last(h)) == RESERVED <==> StillOpen(h)
  {
    HistoryTells(h);
  }

  lemma {:induction false} NeverFailed(h: seq<Entry>)
    ensures Times(h, PAYMENT_FAILED) == 0 <==> !Ever(h, PAYMENT_FAILED)
  {
    if h == [] {
    } else {
      var (init, e) := (h[..|h| - 1], h[|h| - 1]);
      assert h == init + [e];
      EverSnoc(init, e, PAYMENT_FAILED);
      NeverFailed(init);
    }
  }

  /** The bound is reached: for every k some history with k retries makes exactly 2k + 9 transitions. */
  lemma {:induction false} LongestHistory(k: nat) returns (h: seq<Entry>)
    ensures IsHistory(h) && Retries(h) == k && |h| - 1 == 2 * k + 9
  {
    h := RetriedHistory(k);
    var path := [PAID, CONFIRMED, PROCESSING, READY_TO_SHIP, SHIPPED, DELIVERED, RETURN_REQUESTED, RETURNED, REFUNDED];
    h := Walk(h, path);
  }

  lemma {:induction false} RetriedHistory(k: nat) returns (h: seq<Entry>)
    ensures IsHistory(h) && Retries(h) == k && |h| - 1 == 2 * k && Last(h) == PENDING_PAYMENT
  {
    if k == 0 {
      h := [Entry(None, PENDING_PAYMENT)];
      assert h[..0] == [];
    } else {
      var g := RetriedHistory(k - 1);
      Extend(g, PAYMENT_FAILED);
      h := g + [Entry(Some(PENDING_PAYMENT), PAYMENT_FAILED)];
      Extend(h, PENDING_PAYMENT);
      h := h + [Entry(Some(PAYMENT_FAILED), PENDING_PAYMENT)];
    }
  }

  lemma {:induction false} Walk(h: seq<Entry>, path: seq<Status>) returns (g: seq<Entry>)
    requires IsHistory(h) && path != [] && CanTransition(Last(h), path[0])
    requires forall i :: 0 < i < |path| ==> CanTransition(path[i - 1], path[i])
    requires forall i :: 0 <= i < |path| ==> path[i] != PENDING_PAYMENT
    ensures IsHistory(g) && Retries(g) == Retries(h) && |g| == |h| + |path|
    decreases |path|
  {
    Extend(h, path[0]);
    g := h + [Entry(Some(Last(h)), path[0])];
    if |path| == 1 {
    } else {
      g := Walk(g, path[1..]);
    }
  }
}
