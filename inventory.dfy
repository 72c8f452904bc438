/**
 * The inventory writer. As written it binds a flat three-value list as a
 * batch to an INSERT with five placeholders for three columns, which the
 * store refuses to prepare, so every call fails. `AssignmentInsert` is the
 * statement evidently intended: three placeholders, one tuple per call,
 * appending an assignment row with a fresh id and no de-duplication.
 */
module Inventory {
  import opened Sql
  import opened Engine
  import opened EngineFacts

  /** The INSERT as written: five placeholders. */
  function InventoryInsertAsWritten(): Statement {
    InsertInto(Inventory, 5)
  }

  /** The batch as written: the flat list of three values, read as three
      parameter sets. Python would refuse a bare number as a parameter set;
      each value is wrapped here as a one-value tuple instead. The outcome is
      the same either way, because the statement fails when it is prepared,
      before any parameter set is looked at. */
  function FlatBatch(instrumentId: int, studentId: int, notes: string): seq<Params> {
    [[Int(instrumentId)], [Int(studentId)], [Text(notes)]]
  }

  /** The INSERT as intended: one placeholder per column. */
  function AssignmentInsert(): Statement {
    InsertInto(Inventory, Arity(Inventory))
  }

  function AssignmentValues(instrumentId: int, studentId: int, notes: string): (v: Params)
    ensures |v| == Arity(Inventory)
  {
    [Int(instrumentId), Int(studentId), Text(notes)]
  }

  /** The intended effect: one row appended with the next id. */
  function Assigned(db: Db, instrumentId: int, studentId: int, notes: string): Db
    requires Inventory in db.tables
  {
    var td := db.tables[Inventory];
    db.(tables := db.tables[Inventory := TableData(
      td.rows + [Row(td.lastId + 1, AssignmentValues(instrumentId, studentId, notes))], td.lastId + 1)])
  }

  /** The statement as written never runs: with the table present, whatever
      the batch, the store reports five values for three columns; without
      the table, that there is no such table. The last clause says the same
      of a single execution with any parameter tuple at all, five values
      included: the failure comes from preparing the statement, so no
      reshaping of the batch can make it run. */
  lemma AsWrittenNeverRuns(db: Db, batch: seq<Params>)
    ensures RunMany(db, InventoryInsertAsWritten(), batch).Failed?
    ensures Inventory in db.tables ==> RunMany(db, InventoryInsertAsWritten(), batch) == Failed(ValuesForColumns(5, 3))
    ensures forall p :: Step(db, InventoryInsertAsWritten(), p).Failed?
  {
  }

  /** The intended statement appends one row with the next id. */
  lemma AssignmentAppends(db: Db, instrumentId: int, studentId: int, notes: string)
    requires Inventory in db.tables
    ensures RunMany(db, AssignmentInsert(), [AssignmentValues(instrumentId, studentId, notes)])
         == Done(Assigned(db, instrumentId, studentId, notes), [])
  {
    var p := AssignmentValues(instrumentId, studentId, notes);
    assert Step(db, AssignmentInsert(), p) == Done(Assigned(db, instrumentId, studentId, notes), []);
    SingleBatchIsStep(db, AssignmentInsert(), p);
  }

  /** Assigning the same pair twice gives two rows with the same values and
      two different ids: assignments are not de-duplicated. */
  lemma AssignmentsNotDeduplicated(db: Db, instrumentId: int, studentId: int, notes: string)
    requires Inventory in db.tables
    ensures var once := Assigned(db, instrumentId, studentId, notes);
      var twice := Assigned(once, instrumentId, studentId, notes);
      var n := |db.tables[Inventory].rows|;
      && |twice.tables[Inventory].rows| == n + 2
      && twice.tables[Inventory].rows[n].cols == twice.tables[Inventory].rows[n + 1].cols
      && twice.tables[Inventory].rows[n].id != twice.tables[Inventory].rows[n + 1].id
  {
  }
}
