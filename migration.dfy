/** backend/migrate-to-db.js: the one-shot copy of the saved orders and
    counter into the relational tables. The database is an abstract table
    of order rows keyed by `id` plus a `counters` table keyed by name; an
    insert fails on a taken id or on any row the schema refuses, which
    `accepts` stands for. */
module Migration {
  import opened Base
  import opened Orders

  /** One order as read back from the saved JSON: absent keys and JSON
      `null` are `None`. Text fields may be absent or empty. */
  datatype StoredOrder = StoredOrder(
    id: string, service: string, price: int, customerName: string, customerPhone: string,
    address: string, notes: Option<string>, status: string, paymentMethod: Option<string>,
    mpesaCode: Option<string>, adminNotes: Option<string>, createdAt: nat, paidAt: Option<nat>,
    updatedAt: Option<nat>, pickupScheduled: Option<bool>, pickupDate: Option<nat>,
    deliveryDate: Option<nat>)

  /** The seventeen columns of the INSERT into `orders`. */
  datatype OrderRow = OrderRow(
    id: string, service: string, price: int, customerName: string, customerPhone: string,
    address: string, notes: string, status: string, paymentMethod: string,
    mpesaCode: Option<string>, adminNotes: string, createdAt: nat, paidAt: Option<nat>,
    updatedAt: nat, pickupScheduled: bool, pickupDate: Option<nat>, deliveryDate: Option<nat>)

  /** `value || fallback` on an optional string: absent and empty are
      both falsy. */
  function TextOr(value: Option<string>, fallback: string): (r: string)
    ensures value.Some? && value.value != "" ==> r == value.value
    ensures value.None? || value == Some("") ==> r == fallback
  {
    if value.Some? && value.value != "" then value.value else fallback
  }

  /** The values of one INSERT: defaults for the notes, the payment method,
      the code, the admin notes and the pickup flag, and `updated_at`
      falling back to `created_at`. */
  function ToRow(o: StoredOrder): (row: OrderRow)
    ensures row.id == o.id && row.service == o.service && row.price == o.price
    ensures row.customerName == o.customerName && row.customerPhone == o.customerPhone
    ensures row.address == o.address && row.status == o.status
    ensures row.notes == TextOr(o.notes, "")
    ensures row.paymentMethod == TextOr(o.paymentMethod, ManualMpesa)
    ensures row.mpesaCode.None? <==> o.mpesaCode.None? || o.mpesaCode == Some("")
    ensures row.mpesaCode.Some? ==> row.mpesaCode == o.mpesaCode
    ensures row.adminNotes == TextOr(o.adminNotes, "")
    ensures row.createdAt == o.createdAt && row.paidAt == o.paidAt
    ensures row.updatedAt == (if o.updatedAt.Some? then o.updatedAt.value else o.createdAt)
    ensures row.pickupScheduled <==> o.pickupScheduled == Some(true)
    ensures row.pickupDate == o.pickupDate && row.deliveryDate == o.deliveryDate
  {
    OrderRow(
      o.id, o.service, o.price, o.customerName, o.customerPhone, o.address,
      TextOr(o.notes, ""), o.status, TextOr(o.paymentMethod, ManualMpesa),
      if o.mpesaCode.Some? && o.mpesaCode.value != "" then o.mpesaCode else None,
      TextOr(o.adminNotes, ""), o.createdAt, o.paidAt,
      if o.updatedAt.Some? then o.updatedAt.value else o.createdAt,
      o.pickupScheduled == Some(true), o.pickupDate, o.deliveryDate)
  }

  /** What the server's save writes for one order: every field present. */
  function Saved(o: Order): StoredOrder {
    StoredOrder(o.id, o.service, o.price, o.customerName, o.customerPhone, o.address,
                Some(o.notes), o.status, Some(o.paymentMethod), o.mpesaCode, Some(o.adminNotes),
                o.createdAt, o.paidAt, Some(o.updatedAt), Some(o.pickupScheduled),
                o.pickupDate, o.deliveryDate)
  }

  /** A row migrated from an order the server saved carries that order's
      values; only an empty text stored where the server writes a
      default comes out as the default. */
  lemma RowOfSavedOrder(o: Order)
    requires o.paymentMethod != ""
    ensures var row := ToRow(Saved(o));
      && row.id == o.id && row.price == o.price && row.status == o.status
      && row.customerName == o.customerName && row.customerPhone == o.customerPhone
      && row.address == o.address && row.service == o.service
      && row.notes == o.notes && row.adminNotes == o.adminNotes
      && row.paymentMethod == o.paymentMethod
      && row.mpesaCode == (if o.mpesaCode == Some("") then None else o.mpesaCode)
      && row.createdAt == o.createdAt && row.paidAt == o.paidAt && row.updatedAt == o.updatedAt
      && row.pickupScheduled == o.pickupScheduled
      && row.pickupDate == o.pickupDate && row.deliveryDate == o.deliveryDate
  {
  }

  /** Every order the server creates keeps its values through the
      migration. */
  lemma CreatedOrderMigrates(counter: nat, input: CreateInput, now: nat, bn: Option<string>)
    requires !MissingRequired(input)
    ensures var o := Create(counter, input, now, bn).value;
      ToRow(Saved(o)).paymentMethod == ManualMpesa && ToRow(Saved(o)).mpesaCode.None?
      && ToRow(Saved(o)).notes == input.notes && ToRow(Saved(o)).updatedAt == now
  {
  }

  const CounterName: string := "order_counter"

  predicate HasId(table: seq<OrderRow>, id: string) {
    exists i :: 0 <= i < |table| && table[i].id == id
  }

  /** An insert succeeds when the schema accepts the row and its id is not
      taken. */
  predicate Insertable(table: seq<OrderRow>, row: OrderRow, accepts: OrderRow -> bool) {
    accepts(row) && !HasId(table, row.id)
  }

  /** The table after trying to insert `rows` in turn, skipping each
      insert that fails, and how many succeeded. */
  function InsertAll(table: seq<OrderRow>, rows: seq<OrderRow>, accepts: OrderRow -> bool)
    : (r: (seq<OrderRow>, nat))
    ensures r.1 <= |rows|
    ensures |r.0| == |table| + r.1
    ensures r.0[..|table|] == table
  {
    if rows == [] then (table, 0)
    else
      var (t, n) := InsertAll(table, rows[..|rows| - 1], accepts);
      var last := rows[|rows| - 1];
      if Insertable(t, last, accepts) then (t + [last], n + 1) else (t, n)
  }

  predicate DistinctIds(rows: seq<OrderRow>) {
    forall i, j :: 0 <= i < j < |rows| ==> rows[i].id != rows[j].id
  }

  /** Into an empty table, rows the schema accepts with pairwise different
      ids all go in, in order. */
  lemma {:induction false} CleanMigrationCopiesAll(rows: seq<OrderRow>, accepts: OrderRow -> bool)
    requires DistinctIds(rows) && forall i :: 0 <= i < |rows| ==> accepts(rows[i])
    ensures InsertAll([], rows, accepts) == (rows, |rows|)
  {
    if rows != [] {
      var init := rows[..|rows| - 1];
      assert DistinctIds(init);
      CleanMigrationCopiesAll(init, accepts);
      var last := rows[|rows| - 1];
      assert init + [last] == rows;
    }
  }

  /** Every row in the table after the loop has an id no other row has
      (given a table that started that way). */
  lemma {:induction false} InsertAllKeepsIdsDistinct(table: seq<OrderRow>, rows: seq<OrderRow>, accepts: OrderRow -> bool)
    requires DistinctIds(table)
    ensures DistinctIds(InsertAll(table, rows, accepts).0)
  {
    if rows != [] {
      InsertAllKeepsIdsDistinct(table, rows[..|rows| - 1], accepts);
    }
  }

  /** The outcome `migrateData` logs. */
  datatype Outcome = Skipped(existing: nat) | Migrated(count: nat)

  class Database {
    var orderRows: seq<OrderRow>
    var counters: map<string, int>
    /** The constraints of the `orders` schema other than the key. */
    const accepts: OrderRow -> bool

    constructor (rows: seq<OrderRow>, cs: map<string, int>, schema: OrderRow -> bool)
      ensures orderRows == rows && counters == cs && accepts == schema
    {
      orderRows := rows;
      counters := cs;
      accepts := schema;
    }

    /** `SELECT COUNT(*) FROM orders`. */
    method CountOrders() returns (n: nat)
      ensures n == |orderRows|
    {
      n := |orderRows|;
    }

    /** `INSERT ... ON CONFLICT (name) DO UPDATE`: the row holds `value`
        whatever it held before. */
    method UpsertCounter(name: string, value: int)
      modifies this
      ensures counters == old(counters)[name := value] && orderRows == old(orderRows)
    {
      counters := counters[name := value];
    }

    /** `INSERT INTO orders`; `ok` is false where the query throws. */
    method InsertOrder(row: OrderRow) returns (ok: bool)
      modifies this
      ensures ok <==> Insertable(old(orderRows), row, accepts)
      ensures orderRows == if ok then old(orderRows) + [row] else old(orderRows)
      ensures counters == old(counters)
    {
      ok := accepts(row) && !HasId(orderRows, row.id);
      if ok {
        orderRows := orderRows + [row];
      }
    }
  }

  /** The rows `migrateData` inserts, in the order of the saved entries. */
  function RowsOf(entries: seq<(string, StoredOrder)>): (rows: seq<OrderRow>)
    ensures |rows| == |entries|
    ensures forall i :: 0 <= i < |entries| ==> rows[i] == ToRow(entries[i].1)
  {
    seq(|entries|, i requires 0 <= i < |entries| => ToRow(entries[i].1))
  }

  /** `migrateData`: nothing is written when the table already holds
      orders; otherwise the counter is upserted (defaulting to 1) and each
      saved order is inserted in turn, a failed insert being skipped, and
      the successes are counted. */
  method MigrateData(db: Database, entries: seq<(string, StoredOrder)>, storedCounter: Option<nat>)
    returns (outcome: Outcome)
    modifies db
    ensures old(db.orderRows) != [] ==>
      && outcome == Skipped(|old(db.orderRows)|)
      && db.orderRows == old(db.orderRows) && db.counters == old(db.counters)
    ensures old(db.orderRows) == [] ==>
      var (t, n) := InsertAll([], RowsOf(entries), db.accepts);
      && outcome == Migrated(n)
      && db.orderRows == t
      && db.counters == old(db.counters)[CounterName := CounterOnLoad(storedCounter)]
  {
    var existing := db.CountOrders();
    if existing > 0 {
      return Skipped(existing);
    }
    db.UpsertCounter(CounterName, CounterOnLoad(storedCounter));
    ghost var rows := RowsOf(entries);
    var migrated := 0;
    var i := 0;
    while i < |entries|
      invariant 0 <= i <= |entries|
      invariant (db.orderRows, migrated) == InsertAll([], rows[..i], db.accepts)
      invariant db.counters == old(db.counters)[CounterName := CounterOnLoad(storedCounter)]
    {
      InsertAllStep(rows, i, db.accepts);
      var ok := db.InsertOrder(ToRow(entries[i].1));
      if ok {
        migrated := migrated + 1;
      }
      i := i + 1;
    }
    assert rows[..i] == rows;
    outcome := Migrated(migrated);
  }

  /** One more iteration of the loop: the row at `k` is tried against the
      table the earlier rows left. */
  lemma InsertAllStep(rows: seq<OrderRow>, k: nat, accepts: OrderRow -> bool)
    requires k < |rows|
    ensures var (t, n) := InsertAll([], rows[..k], accepts);
      InsertAll([], rows[..k + 1], accepts)
        == if Insertable(t, rows[k], accepts) then (t + [rows[k]], n + 1) else (t, n)
  {
    assert rows[..k + 1][..k] == rows[..k];
  }

  /** The count the migration reports is the number of rows it added, so
      it never exceeds the number of saved orders. */
  lemma MigratedCountBounded(entries: seq<(string, StoredOrder)>, accepts: OrderRow -> bool)
    ensures var (t, n) := InsertAll([], RowsOf(entries), accepts);
      n == |t| && n <= |entries|
  {
  }
}
