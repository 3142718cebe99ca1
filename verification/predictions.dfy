/**
 * The SQLite `predictions` table that both the Flask application's inline
 * database code and the local storage backend create and use.
 *
 * The table is a value: its schema version, its rows in storage order and
 * the next id the AUTOINCREMENT primary key hands out. Ids are assigned by
 * the store, start at 1, grow strictly and are never reused (no row is ever
 * deleted), so storage order is also ascending id order.
 */
module Predictions {
  import opened Text

  /** The shape of the table on disk: not created yet, created by an older
      version without the `diagnosis` column, or the current shape. */
  datatype Schema = Absent | Legacy | Current

  /** One stored prediction. `diagnosis` is `None` for SQL NULL. */
  datatype Row = Row(
    id: int,
    filename: string,
    filepath: string,
    result: string,
    diagnosis: Option<string>,
    createdAt: string)

  datatype Db = Db(schema: Schema, rows: seq<Row>, nextId: int)

  /** The columns `SELECT id, filename, result, diagnosis, created_at` returns. */
  datatype Selected = Selected(
    id: int,
    filename: string,
    result: string,
    diagnosis: Option<string>,
    createdAt: string)

  predicate IdsAscending(rows: seq<Row>) {
    forall i, j :: 0 <= i < j < |rows| ==> rows[i].id < rows[j].id
  }

  /** What any state of the database file satisfies. */
  predicate WellFormed(db: Db) {
    1 <= db.nextId &&
    (forall i :: 0 <= i < |db.rows| ==> 1 <= db.rows[i].id < db.nextId) &&
    IdsAscending(db.rows) &&
    (db.schema == Absent ==> db.rows == [] && db.nextId == 1)
  }

  /** A well-formed table that inserts can be run against. */
  predicate Ready(db: Db) {
    WellFormed(db) && db.schema == Current
  }

  /**
   * `init_db` / `_init_db`: `CREATE TABLE IF NOT EXISTS` makes an empty table
   * when there is none and does nothing otherwise; `ALTER TABLE ... ADD COLUMN
   * diagnosis` gives every existing row of a legacy table the default `''`,
   * and fails on a table that already has the column, a failure that is
   * swallowed.
   */
  function Migrate(db: Db): (r: Db)
    ensures r.schema == Current
    ensures db.schema == Absent ==> r.rows == [] && r.nextId == 1
    ensures db.schema == Current ==> r == db
    ensures db.schema != Absent ==> r.nextId == db.nextId && |r.rows| == |db.rows|
    ensures db.schema != Absent ==>
      forall i :: 0 <= i < |db.rows| ==> r.rows[i] == db.rows[i].(diagnosis := r.rows[i].diagnosis)
    ensures db.schema == Legacy ==> forall i :: 0 <= i < |r.rows| ==> r.rows[i].diagnosis == Some("")
  {
    match db.schema
    case Absent => Db(Current, [], 1)
    case Legacy => Db(Current, seq(|db.rows|, i requires 0 <= i < |db.rows| => db.rows[i].(diagnosis := Some(""))), db.nextId)
    case Current => db
  }

  /** Running the schema set-up twice is the same as running it once. */
  lemma MigrateIdempotent(db: Db)
    ensures Migrate(Migrate(db)) == Migrate(db)
  {
  }

  /** The schema set-up keeps the table well formed and leaves it ready for inserts. */
  lemma MigrateReady(db: Db)
    requires WellFormed(db)
    ensures Ready(Migrate(db))
  {
  }

  /** `SELECT id, filename, result, diagnosis, created_at FROM predictions ORDER BY id ASC`. */
  function SelectAll(rows: seq<Row>): (out: seq<Selected>)
    ensures |out| == |rows|
    ensures forall i :: 0 <= i < |rows| ==>
      out[i] == Selected(rows[i].id, rows[i].filename, rows[i].result, rows[i].diagnosis, rows[i].createdAt)
  {
    seq(|rows|, i requires 0 <= i < |rows| =>
      Selected(rows[i].id, rows[i].filename, rows[i].result, rows[i].diagnosis, rows[i].createdAt))
  }

  /** Reading the rows in storage order yields them in ascending id order, as `ORDER BY id ASC` asks. */
  lemma SelectAllAscending(rows: seq<Row>)
    requires IdsAscending(rows)
    ensures forall i, j :: 0 <= i < j < |rows| ==> SelectAll(rows)[i].id < SelectAll(rows)[j].id
  {
  }

  /** Appending a row whose id is the table's next id keeps the table well formed. */
  lemma AppendWellFormed(db: Db, row: Row)
    requires Ready(db) && row.id == db.nextId
    ensures Ready(Db(Current, db.rows + [row], db.nextId + 1))
    ensures forall i :: 0 <= i < |db.rows| ==> db.rows[i].id < row.id
  {
  }
}
