/**
 * An abstract model of the embedded SQLite store, restricted to what the
 * backend's statements do. A table is its rows in ascending id order (the
 * order a rowid table is scanned in) and its AUTOINCREMENT counter; the
 * schema is the set of created tables and the set of created unique
 * indexes. Each statement either succeeds, giving the new store and the
 * rows it yields, or fails with the store error SQLite would raise, in
 * which case nothing it did is kept.
 */
module Engine {
  import opened Wrappers
  import opened Sql

  datatype Row = Row(id: int, cols: Params)

  /** A table's rows and the largest id it has ever handed out (the
      table's entry in `sqlite_sequence`, 0 before the first insert). */
  datatype TableData = TableData(rows: seq<Row>, lastId: int)

  datatype Db = Db(tables: map<Table, TableData>, indexes: set<IndexName>)

  /** A store file that does not exist yet: connecting creates it empty. */
  function EmptyDb(): Db {
    Db(map[], {})
  }

  datatype StoreError =
    | NoSuchTable(table: Table)
    | IndexExists(index: IndexName)
    | ValuesForColumns(values: nat, columns: nat)
    | WrongBindings(uses: nat, supplied: nat)
    | UniqueFailed(index: IndexName)
    | DatatypeMismatch
    | QueryInBatch

  datatype StepResult = Done(db: Db, rows: seq<Params>) | Failed(error: StoreError)

  function Max(a: int, b: int): int {
    if a < b then b else a
  }

  /** The table's unique index has been created. */
  predicate Indexed(db: Db, t: Table) {
    IndexOn(t).Some? && IndexOn(t).value in db.indexes
  }

  /** Index of the first row whose natural key is `key`. */
  function FindKey(rows: seq<Row>, t: Table, key: Params): (r: Option<nat>)
    ensures r.Some? ==> r.value < |rows| && Key(t, rows[r.value].cols) == key
    ensures r.Some? ==> forall j :: 0 <= j < r.value ==> Key(t, rows[j].cols) != key
    ensures r.None? ==> forall j :: 0 <= j < |rows| ==> Key(t, rows[j].cols) != key
  {
    if rows == [] then None
    else if Key(t, rows[0].cols) == key then Some(0)
    else match FindKey(rows[1..], t, key)
      case None => None
      case Some(i) => Some(i + 1)
  }

  /** What `select id from … where <key columns> = <key>` yields: the id of
      every row with that natural key, in row order. */
  function IdsWithKey(rows: seq<Row>, t: Table, key: Params): (ids: seq<Params>)
    ensures |ids| <= |rows|
    ensures ids == [] <==> FindKey(rows, t, key).None?
    ensures ids != [] ==> ids[0] == [Int(rows[FindKey(rows, t, key).value].id)]
  {
    if rows == [] then []
    else (if Key(t, rows[0].cols) == key then [[Int(rows[0].id)]] else [])
         + IdsWithKey(rows[1..], t, key)
  }

  /** What `select * from …` yields: each row as its id followed by its other columns. */
  function Tuples(rows: seq<Row>): (r: seq<Params>)
    ensures |r| == |rows|
    ensures forall i :: 0 <= i < |rows| ==> r[i] == [Int(rows[i].id)] + rows[i].cols
  {
    if rows == [] then [] else [[Int(rows[0].id)] + rows[0].cols] + Tuples(rows[1..])
  }

  /** A row a REPLACE of (`id`, `key`) must delete first: it has the same
      id, or (when the unique index exists) the same natural key. */
  predicate Clashes(r: Row, t: Table, id: int, indexed: bool, key: Params) {
    r.id == id || (indexed && Key(t, r.cols) == key)
  }

  /** The rows a REPLACE keeps. */
  function Survivors(rows: seq<Row>, t: Table, id: int, indexed: bool, key: Params): seq<Row> {
    if rows == [] then []
    else (if Clashes(rows[0], t, id, indexed, key) then [] else [rows[0]])
         + Survivors(rows[1..], t, id, indexed, key)
  }

  /** The position at which a row with this id keeps the ids ascending. */
  function InsertPos(rows: seq<Row>, id: int): (k: nat)
    ensures k <= |rows|
    ensures forall j :: 0 <= j < k ==> rows[j].id < id
    ensures k < |rows| ==> rows[k].id >= id
  {
    if rows == [] || rows[0].id >= id then 0 else 1 + InsertPos(rows[1..], id)
  }

  /** The rows REPLACE leaves: the survivors with the new row placed by id. */
  function Replaced(td: TableData, t: Table, indexed: bool, id: int, cols: Params): TableData {
    var kept := Survivors(td.rows, t, id, indexed, Key(t, cols));
    var k := InsertPos(kept, id);
    TableData(kept[..k] + [Row(id, cols)] + kept[k..], Max(td.lastId, id))
  }

  /** Errors SQLite reports when it prepares the statement, before any
      parameter is bound. */
  function PrepareError(db: Db, s: Statement): Option<StoreError> {
    if !s.CreateTable? && Target(s) !in db.tables then Some(NoSuchTable(Target(s)))
    else match s
      case CreateUniqueIndex(ix) =>
        if ix in db.indexes then Some(IndexExists(ix)) else None
      case InsertInto(t, n) =>
        if n != Arity(t) then Some(ValuesForColumns(n, Arity(t))) else None
      case ReplaceInto(t, n) =>
        if n != Arity(t) + 1 then Some(ValuesForColumns(n, Arity(t) + 1)) else None
      case _ => None
  }

  /** One execution of a prepared statement with its bound parameters. */
  function Run(db: Db, s: Statement, params: Params): StepResult
    requires PrepareError(db, s).None? && |params| == Placeholders(s)
  {
    match s
    case CreateTable(t) =>
      if t in db.tables then Done(db, [])
      else Done(db.(tables := db.tables[t := TableData([], 0)]), [])
    case CreateUniqueIndex(ix) =>
      if !KeysUnique(IndexTable(ix), db.tables[IndexTable(ix)].rows) then Failed(UniqueFailed(ix))
      else Done(db.(indexes := db.indexes + {ix}), [])
    case SelectInstrumentId(serial) =>
      Done(db, IdsWithKey(db.tables[Instruments].rows, Instruments, [Text(serial)]))
    case SelectStudentId(first, last, dob) =>
      Done(db, IdsWithKey(db.tables[Students].rows, Students, [Text(first), Text(last), Text(dob)]))
    case SelectAll(t) =>
      Done(db, Tuples(db.tables[t].rows))
    case InsertInto(t, _) =>
      var td := db.tables[t];
      if Indexed(db, t) && FindKey(td.rows, t, Key(t, params)).Some? then
        Failed(UniqueFailed(IndexOn(t).value))
      else
        Done(db.(tables := db.tables[t := TableData(td.rows + [Row(td.lastId + 1, params)], td.lastId + 1)]), [])
    case ReplaceInto(t, _) =>
      var td := db.tables[t];
      if !params[0].Int? then Failed(DatatypeMismatch)
      else
        Done(db.(tables := db.tables[t := Replaced(td, t, Indexed(db, t), params[0].i, params[1..])]), [])
  }

  /** `cursor.execute(stmt, params)`. */
  function Step(db: Db, s: Statement, params: Params): StepResult {
    match PrepareError(db, s)
    case Some(e) => Failed(e)
    case None =>
      if |params| != Placeholders(s) then Failed(WrongBindings(Placeholders(s), |params|))
      else Run(db, s, params)
  }

  /** The statement run once per parameter tuple, stopping at the first error. */
  function RunEach(db: Db, s: Statement, batch: seq<Params>): StepResult
    decreases |batch|
  {
    if batch == [] then Done(db, [])
    else match Step(db, s, batch[0])
      case Failed(e) => Failed(e)
      case Done(next, _) => RunEach(next, s, batch[1..])
  }

  /** `cursor.executemany(stmt, batch)`: the statement is prepared once,
      must not be a query (a read-only statement), and yields no rows;
      any other statement, a CREATE included, runs once per tuple. */
  function RunMany(db: Db, s: Statement, batch: seq<Params>): StepResult {
    match PrepareError(db, s)
    case Some(e) => Failed(e)
    case None => if IsQuery(s) then Failed(QueryInBatch) else RunEach(db, s, batch)
  }

  method ExecuteMany(db: Db, s: Statement, batch: seq<Params>) returns (r: StepResult)
    ensures r == RunMany(db, s, batch)
  {
    var err := PrepareError(db, s);
    if err.Some? {
      return Failed(err.value);
    }
    if IsQuery(s) {
      return Failed(QueryInBatch);
    }
    var cur, i := db, 0;
    while i < |batch|
      invariant 0 <= i <= |batch|
      invariant RunEach(db, s, batch) == RunEach(cur, s, batch[i..])
    {
      var step := Step(cur, s, batch[i]);
      if step.Failed? {
        return step;
      }
      assert batch[i..][1..] == batch[i + 1..];
      cur, i := step.db, i + 1;
    }
    r := Done(cur, []);
  }

  // Invariants of the store

  ghost predicate IdsAscending(rows: seq<Row>) {
    forall i, j :: 0 <= i < j < |rows| ==> rows[i].id < rows[j].id
  }

  /** No two rows share a natural key, so a unique index can be built. */
  predicate KeysUnique(t: Table, rows: seq<Row>) {
    forall i, j :: 0 <= i < j < |rows| ==> Key(t, rows[i].cols) != Key(t, rows[j].cols)
  }

  /** Every row has the table's columns and an id the counter has passed. */
  ghost predicate RowsFit(t: Table, td: TableData) {
    forall i :: 0 <= i < |td.rows| ==> |td.rows[i].cols| == Arity(t) && td.rows[i].id <= td.lastId
  }

  ghost predicate TableOk(t: Table, td: TableData, indexed: bool) {
    RowsFit(t, td) && IdsAscending(td.rows) && (indexed ==> KeysUnique(t, td.rows))
  }

  ghost predicate WellFormed(db: Db) {
    && (forall t :: t in db.tables ==> TableOk(t, db.tables[t], Indexed(db, t)))
    && (forall ix :: ix in db.indexes ==> IndexTable(ix) in db.tables)
  }
}
