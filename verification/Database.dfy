/** The tables as mutable fields, and the all-or-nothing scope of a transaction. */
module Database {
  import opened Common
  import opened Ledger
  import opened Commerce

  /** What a transaction may have to give back. */
  datatype Backup = Backup(
    rows: map<StockKey, StockRow>, movements: seq<Movement>, carts: map<UserId, seq<Line>>,
    coupons: map<CouponCode, Coupon>, orders: map<OrderId, Order>)

  class Tables {
    var catalog: map<VariantId, VariantInfo>
    var warehouse: Option<WarehouseId>
    var rows: map<StockKey, StockRow>
    var movements: seq<Movement>
    var carts: map<UserId, seq<Line>>
    var coupons: map<CouponCode, Coupon>
    var orders: map<OrderId, Order>
    ghost var homes: map<OrderId, WarehouseId>
    var payments: map<PaymentId, Payment>
    var refunds: seq<Refund>

    constructor (catalog: map<VariantId, VariantInfo>)
      ensures Snapshot() == Empty(catalog)
    {
      this.catalog, warehouse, rows, movements := catalog, None, map[], [];
      carts, coupons, orders, homes, payments, refunds := map[], map[], map[], map[], map[], [];
    }

    ghost function Snapshot(): Shop
      reads this
    {
      Shop(catalog, warehouse, Stock(rows, movements), carts, coupons, orders, homes, payments, refunds)
    }

    method Begin() returns (b: Backup)
      ensures b == Backup(rows, movements, carts, coupons, orders)
    {
      b := Backup(rows, movements, carts, coupons, orders);
    }

    method Rollback(b: Backup)
      modifies this`rows, this`movements, this`carts, this`coupons, this`orders
      ensures b == Backup(rows, movements, carts, coupons, orders)
    {
      rows, movements, carts, coupons, orders := b.rows, b.movements, b.carts, b.coupons, b.orders;
    }
  }
}
