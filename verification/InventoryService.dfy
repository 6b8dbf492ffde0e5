/** InventoryService: every method changes one inventory row and logs one movement. */
module InventoryService {
  import opened Common
  import opened Ledger
  import opened Commerce
  import opened Database

  class Inventory {
    const db: Tables

    constructor (db: Tables)
      ensures this.db == db
    {
      this.db := db;
    }

    method EnsureRow(key: StockKey)
      modifies db`rows
      ensures Stock(db.rows, db.movements) == WithRow(old(Stock(db.rows, db.movements)), key)
      ensures key in db.rows
    {
      if key !in db.rows {
        db.rows := db.rows[key := StockRow(0, 0)];
      }
    }

    method Log(m: Movement)
      modifies db`movements
      ensures db.movements == old(db.movements) + [m]
    {
      db.movements := db.movements + [m];
    }

    method CheckQuantity(v: VariantId, quantity: int) returns (error: Option<Error>)
      ensures error == QuantityError(db.Snapshot(), v, quantity)
    {
      if v !in db.catalog {
        return Some(NotFound);
      }
      if !db.catalog[v].fractional && quantity % 1000 != 0 {
        return Some(BadRequest);
      }
      return None;
    }

    method Receive(v: VariantId, warehouse: Option<WarehouseId>, quantity: int) returns (r: Result<()>)
      modifies db
      ensures Outcome(db.Snapshot(), r) == Commerce.Receive(old(db.Snapshot()), v, warehouse, quantity)
    {
      var error := CheckQuantity(v, quantity);
      if error.Some? {
        return Err(error.value);
      }
      var w := if warehouse.Some? then warehouse else db.warehouse;
      if w.None? {
        return Err(NotFound);
      }
      var key := StockKey(v, w.value);
      EnsureRow(key);
      db.rows := db.rows[key := db.rows[key].(onHand := db.rows[key].onHand + quantity)];
      Log(Movement(RECEIPT, key, quantity, None));
      r := Ok(());
    }

    method Adjust(v: VariantId, warehouse: Option<WarehouseId>, delta: int) returns (r: Result<()>)
      modifies db
      ensures Outcome(db.Snapshot(), r) == Commerce.Adjust(old(db.Snapshot()), v, warehouse, delta)
    {
      var error := CheckQuantity(v, if delta < 0 then -delta else delta);
      if error.Some? {
        return Err(error.value);
      }
      var w := if warehouse.Some? then warehouse else db.warehouse;
      if w.None? {
        return Err(NotFound);
      }
      var key := StockKey(v, w.value);
      var backup := db.Begin();
      EnsureRow(key);
      var current := db.rows[key];
      if current.onHand + delta < current.reserved {
        db.Rollback(backup);
        return Err(Conflict);
      }
      db.rows := db.rows[key := current.(onHand := current.onHand + delta)];
      Log(Movement(ADJUSTMENT, key, delta, None));
      r := Ok(());
    }

    /** One guarded UPDATE: false, never an error, when too little is available. */
    method Reserve(key: StockKey, quantity: int, order: OrderId) returns (ok: bool)
      modifies db`rows, db`movements
      ensures ok == CanReserve(old(Stock(db.rows, db.movements)), key, quantity)
      ensures ok ==> Stock(db.rows, db.movements) == Reserved(old(Stock(db.rows, db.movements)), key, quantity, order)
    {
      EnsureRow(key);
      if db.rows[key].onHand - db.rows[key].reserved < quantity {
        return false;
      }
      db.rows := db.rows[key := db.rows[key].(reserved := db.rows[key].reserved + quantity)];
      Log(Movement(RESERVE, key, quantity, Some(order)));
      ok := true;
    }

    /** `ok` is false when the row to update does not exist, which the database client reports as an exception. */
    method Release(key: StockKey, quantity: int, order: OrderId) returns (ok: bool)
      modifies db`rows, db`movements
      ensures var moved := MoveLine(old(Stock(db.rows, db.movements)), RELEASE, key, quantity, order);
              ok == moved.Some? && (ok ==> Stock(db.rows, db.movements) == moved.value)
    {
      if key !in db.rows {
        return false;
      }
      db.rows := db.rows[key := db.rows[key].(reserved := db.rows[key].reserved - quantity)];
      Log(Movement(RELEASE, key, quantity, Some(order)));
      ok := true;
    }

    method Deduct(key: StockKey, quantity: int, order: OrderId) returns (ok: bool)
      modifies db`rows, db`movements
      ensures var moved := MoveLine(old(Stock(db.rows, db.movements)), DEDUCT, key, quantity, order);
              ok == moved.Some? && (ok ==> Stock(db.rows, db.movements) == moved.value)
    {
      if key !in db.rows {
        return false;
      }
      db.rows := db.rows[key := StockRow(db.rows[key].onHand - quantity, db.rows[key].reserved - quantity)];
      Log(Movement(DEDUCT, key, quantity, Some(order)));
      ok := true;
    }

    method ReturnStock(key: StockKey, quantity: int, order: OrderId)
      modifies db`rows, db`movements
      ensures Some(Stock(db.rows, db.movements)) ==
        MoveLine(old(Stock(db.rows, db.movements)), RETURN, key, quantity, order)
    {
      EnsureRow(key);
      db.rows := db.rows[key := db.rows[key].(onHand := db.rows[key].onHand + quantity)];
      Log(Movement(RETURN, key, quantity, Some(order)));
      assert Stock(db.rows, db.movements) ==
             Post(old(Stock(db.rows, db.movements)), key, quantity, 0, Movement(RETURN, key, quantity, Some(order)));
    }
  }
}
