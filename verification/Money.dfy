/**
 Cart totals, line totals and coupon discounts in exact integers: prices in cents, quantities in
 thousandths of a unit, percentages in hundredths of a percent.
 */
module Money {
  import opened Common
  import opened Ledger

  /** Math.round(n / d): halves go up. */
  function Round(n: int, d: int): int
    requires d > 0
  {
    (2 * n + d) / (2 * d)
  }

  /** A priced line: unit price in cents, quantity in thousandths. */
  datatype Priced = Priced(price: int, quantity: int)

  function Exact(lines: seq<Priced>): int {
    if lines == [] then 0 else Exact(lines[..|lines| - 1]) + lines[|lines| - 1].price * lines[|lines| - 1].quantity
  }

  /** The cart total: one rounding of the exact sum. */
  function Subtotal(lines: seq<Priced>): int {
    Round(Exact(lines), 1000)
  }

  function LineTotal(price: int, quantity: int): int {
    Round(price * quantity, 1000)
  }

  /** The sum of the line totals stored with an order: one rounding a line. */
  function SumOfLineTotals(lines: seq<Priced>): int {
    if lines == [] then 0
    else SumOfLineTotals(lines[..|lines| - 1]) + LineTotal(lines[|lines| - 1].price, lines[|lines| - 1].quantity)
  }

  predicate AllPriced(lines: seq<Line>, prices: map<VariantId, int>) {
    forall i :: 0 <= i < |lines| ==> lines[i].variant in prices
  }

  function Pricing(lines: seq<Line>, prices: map<VariantId, int>): (p: seq<Priced>)
    requires AllPriced(lines, prices)
    ensures |p| == |lines|
  {
    seq(|lines|, i requires 0 <= i < |lines| => Priced(prices[lines[i].variant], lines[i].quantity))
  }

  /** The total shown for a cart; null when some line has no price in the list. */
  function CartTotal(lines: seq<Line>, prices: map<VariantId, int>): Option<int> {
    if AllPriced(lines, prices) then Some(Subtotal(Pricing(lines, prices))) else None
  }

  method WithTotal(lines: seq<Line>, prices: map<VariantId, int>) returns (total: Option<int>)
    ensures total == CartTotal(lines, prices)
  {
    var sum := 0;
    var hasUnpricedItem := false;
    for i := 0 to |lines|
      invariant hasUnpricedItem <==> !AllPriced(lines[..i], prices)
      invariant !hasUnpricedItem ==> sum == Exact(Pricing(lines[..i], prices))
    {
      var item := lines[i];
      assert lines[..i + 1] == lines[..i] + [item];
      if item.variant !in prices {
        hasUnpricedItem := true;
        assert lines[..i + 1][i].variant !in prices;
      } else {
        if !hasUnpricedItem {
          assert Pricing(lines[..i + 1], prices)[..i] == Pricing(lines[..i], prices);
        } else {
          var j :| 0 <= j < i && lines[..i][j].variant !in prices;
          assert lines[..i + 1][j].variant !in prices;
        }
        sum := sum + prices[item.variant] * item.quantity;
      }
    }
    assert lines[..|lines|] == lines;
    total := if hasUnpricedItem then None else Some(Round(sum, 1000));
  }

  // ---------- How far one rounding and many roundings drift apart ----------

  lemma RoundBounds(n: int)
    ensures n - 499 <= 1000 * Round(n, 1000) <= n + 500
  {
  }

  lemma {:induction false} LineRoundingBounds(lines: seq<Priced>)
    ensures Exact(lines) - 499 * |lines| <= 1000 * SumOfLineTotals(lines) <= Exact(lines) + 500 * |lines|
  {
    if lines == [] {
    } else {
      var last := lines[|lines| - 1];
      RoundBounds(last.price * last.quantity);
      LineRoundingBounds(lines[..|lines| - 1]);
    }
  }

  /** The stored subtotal stays within half a cent a line of the sum of the stored line totals. */
  lemma SubtotalDrift(lines: seq<Priced>)
    ensures var drift := Subtotal(lines) - SumOfLineTotals(lines);
            -(|lines| / 2) <= drift <= (499 * |lines| + 500) / 1000 && 2 * drift <= |lines| + 1
  {
    RoundBounds(Exact(lines));
    LineRoundingBounds(lines);
  }

  /** The lower bound is sharp: half-unit lines at one cent reach it for every number of lines. */
  lemma {:induction false} DriftIsReached(n: nat) returns (lines: seq<Priced>)
    ensures |lines| == n && Exact(lines) == 500 * n && SumOfLineTotals(lines) == n
    ensures Subtotal(lines) - SumOfLineTotals(lines) == -(n / 2)
  {
    if n == 0 {
      lines := [];
    } else {
      var init := DriftIsReached(n - 1);
      lines := init + [Priced(1, 500)];
      assert lines[..n - 1] == init;
    }
  }

  /** So is the upper one, by lines just short of half a cent. */
  lemma {:induction false} UpperDriftIsReached(n: nat) returns (lines: seq<Priced>)
    ensures |lines| == n && Exact(lines) == 499 * n && SumOfLineTotals(lines) == 0
    ensures Subtotal(lines) - SumOfLineTotals(lines) == (499 * n + 500) / 1000
  {
    if n == 0 {
      lines := [];
    } else {
      var init := UpperDriftIsReached(n - 1);
      lines := init + [Priced(1, 499)];
      assert lines[..n - 1] == init;
    }
  }

  lemma {:induction false} WholeQuantitiesDriftNothing(lines: seq<Priced>)
    requires forall i :: 0 <= i < |lines| ==> lines[i].quantity % 1000 == 0
    ensures Subtotal(lines) == SumOfLineTotals(lines) && Exact(lines) == 1000 * SumOfLineTotals(lines)
  {
    if lines == [] {
    } else {
      var last := lines[|lines| - 1];
      WholeQuantitiesDriftNothing(lines[..|lines| - 1]);
      WholeLine(last.price, last.quantity / 1000);
      assert last.quantity == 1000 * (last.quantity / 1000);
    }
  }

  lemma WholeLine(price: int, units: int)
    ensures price * (1000 * units) == 1000 * (price * units)
    ensures LineTotal(price, 1000 * units) == price * units
  {
  }

  lemma {:induction false} ExactIsNonNegative(lines: seq<Priced>)
    requires forall i :: 0 <= i < |lines| ==> lines[i].quantity >= 0 && lines[i].price >= 0
    ensures Exact(lines) >= 0 && Subtotal(lines) >= 0
  {
    if lines == [] {
    } else {
      var last := lines[|lines| - 1];
      ExactIsNonNegative(lines[..|lines| - 1]);
      assert last.price * last.quantity >= 0;
    }
  }

  // ---------- Discounts ----------

  datatype CouponKind = PERCENTAGE | FIXED_AMOUNT

  /** The discount in cents: `value` is hundredths of a percent, or cents. */
  function Discount(kind: CouponKind, value: int, subtotal: int): int {
    match kind
    case PERCENTAGE => Round(subtotal * value, 10000)
    case FIXED_AMOUNT => Min(value, subtotal)
  }

  /** What coupon creation demands: a positive value, and no percentage above 100. */
  predicate ValueAllowed(kind: CouponKind, value: int) {
    value > 0 && (kind == PERCENTAGE ==> value <= 10000)
  }

  /** A percentage, in hundredths of a percent, to half a cent; a fixed amount, as far as the subtotal goes. */
  predicate Deducts(kind: CouponKind, value: int, subtotal: int, discount: int) {
    && (kind == PERCENTAGE ==> -5000 < 10000 * discount - subtotal * value <= 5000)
    && (kind == FIXED_AMOUNT ==> discount == if value <= subtotal then value else subtotal)
  }

  lemma DiscountDeducts(kind: CouponKind, value: int, subtotal: int)
    ensures Deducts(kind, value, subtotal, Discount(kind, value, subtotal))
  {
    RoundsToBasisPoint(subtotal * value);
  }

  lemma RoundsToBasisPoint(n: int)
    ensures -5000 < 10000 * Round(n, 10000) - n <= 5000
  {
  }

  /** No coupon ever takes more than the subtotal, or less than nothing. */
  lemma DiscountWithinSubtotal(kind: CouponKind, value: int, subtotal: int)
    requires ValueAllowed(kind, value) && subtotal >= 0
    ensures 0 <= Discount(kind, value, subtotal) <= subtotal
  {
  }
}
