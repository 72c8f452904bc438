/**
 * Schema setup. The backend creates the instruments table and its unique
 * index on `serial_num`, then the students table and its unique index on
 * `(firstname, lastname, dob)`, then the inventory table. Each statement is
 * executed and committed on its own, and the first failure ends the process,
 * so a script's outcome is the store as last committed and whether it halted.
 */
module Schema {
  import opened Sql
  import opened Engine
  import opened EngineFacts

  function InstrumentTableScript(): seq<Statement> {
    [CreateTable(Instruments), CreateUniqueIndex(SerialNumber)]
  }

  function StudentTableScript(): seq<Statement> {
    [CreateTable(Students), CreateUniqueIndex(FirstLastDob)]
  }

  function InventoryTableScript(): seq<Statement> {
    [CreateTable(Inventory)]
  }

  /** The statements `create_tables` issues, in order. */
  function SchemaScript(): seq<Statement> {
    InstrumentTableScript() + StudentTableScript() + InventoryTableScript()
  }

  /** Runs statements one by one, each committed; stops at the first failure.
      Yields the committed store and whether the process halted. */
  function RunScript(db: Db, stmts: seq<Statement>): (Db, bool)
    decreases |stmts|
  {
    if stmts == [] then (db, false)
    else match Step(db, stmts[0], [])
      case Failed(_) => (db, true)
      case Done(next, _) => RunScript(next, stmts[1..])
  }

  /** All three tables and both unique indexes exist. */
  predicate SchemaReady(db: Db) {
    && Instruments in db.tables && Students in db.tables && Inventory in db.tables
    && SerialNumber in db.indexes && FirstLastDob in db.indexes
  }

  /** The store a first construction leaves on a new file. */
  function FreshSchema(): Db {
    Db(map[Instruments := TableData([], 0), Students := TableData([], 0), Inventory := TableData([], 0)],
       {SerialNumber, FirstLastDob})
  }

  /** Running two scripts one after the other, stopping if the first halts. */
  lemma {:induction false} RunScriptAppend(db: Db, a: seq<Statement>, b: seq<Statement>)
    ensures RunScript(db, a).1 ==> RunScript(db, a + b) == RunScript(db, a)
    ensures !RunScript(db, a).1 ==> RunScript(db, a + b) == RunScript(RunScript(db, a).0, b)
    decreases |a|
  {
    if a == [] {
      assert a + b == b;
    } else {
      assert (a + b)[0] == a[0] && (a + b)[1..] == a[1..] + b;
      match Step(db, a[0], [])
      case Failed(_) =>
      case Done(next, _) => RunScriptAppend(next, a[1..], b);
    }
  }

  lemma {:induction false} RunScriptKeepsWellFormed(db: Db, stmts: seq<Statement>)
    requires WellFormed(db)
    ensures WellFormed(RunScript(db, stmts).0)
    decreases |stmts|
  {
    if stmts != [] {
      match Step(db, stmts[0], [])
      case Failed(_) =>
      case Done(next, _) =>
        StepKeepsWellFormed(db, stmts[0], []);
        RunScriptKeepsWellFormed(next, stmts[1..]);
    }
  }

  /** Setting up a new, empty file succeeds and yields three empty tables
      and both unique indexes. */
  lemma FreshFileGetsSchema()
    ensures RunScript(EmptyDb(), SchemaScript()) == (FreshSchema(), false)
  {
    var d1 := Db(map[Instruments := TableData([], 0)], {});
    var d2 := d1.(indexes := {SerialNumber});
    var d3 := d2.(tables := d2.tables[Students := TableData([], 0)]);
    var d4 := d3.(indexes := {SerialNumber, FirstLastDob});
    var d5 := d4.(tables := d4.tables[Inventory := TableData([], 0)]);
    assert d5 == FreshSchema();
    assert Step(EmptyDb(), CreateTable(Instruments), []) == Done(d1, []);
    assert Step(d1, CreateUniqueIndex(SerialNumber), []) == Done(d2, []) by {
      assert KeysUnique(Instruments, []);
    }
    assert Step(d2, CreateTable(Students), []) == Done(d3, []);
    assert Step(d3, CreateUniqueIndex(FirstLastDob), []) == Done(d4, []) by {
      assert KeysUnique(Students, []);
    }
    assert Step(d4, CreateTable(Inventory), []) == Done(d5, []);
    var script := SchemaScript();
    assert script == [CreateTable(Instruments), CreateUniqueIndex(SerialNumber), CreateTable(Students),
                      CreateUniqueIndex(FirstLastDob), CreateTable(Inventory)];
    assert RunScript(d5, script[5..]) == (d5, false);
    assert RunScript(d4, script[4..]) == RunScript(d5, script[5..]);
    assert RunScript(d3, script[3..]) == RunScript(d4, script[4..]);
    assert RunScript(d2, script[2..]) == RunScript(d3, script[3..]);
    assert RunScript(d1, script[1..]) == RunScript(d2, script[2..]);
    assert RunScript(EmptyDb(), script) == RunScript(d1, script[1..]);
  }

  /** Setting up a file whose schema is already in place halts at the first
      unique index and leaves the file as it was: building the backend twice
      on the same file ends the process. */
  lemma SetupAgainHalts(db: Db)
    requires SchemaReady(db)
    ensures RunScript(db, SchemaScript()) == (db, true)
  {
    RunScriptAppend(db, InstrumentTableScript(), StudentTableScript());
    RunScriptAppend(db, InstrumentTableScript() + StudentTableScript(), InventoryTableScript());
    assert Step(db, CreateTable(Instruments), []) == Done(db, []);
    assert Step(db, CreateUniqueIndex(SerialNumber), []) == Failed(IndexExists(SerialNumber));
    assert RunScript(db, InstrumentTableScript()) == (db, true);
  }

  /** When setup does not halt, the schema is in place afterwards. */
  lemma SetupReachesSchema(db: Db)
    requires !RunScript(db, SchemaScript()).1
    ensures SchemaReady(RunScript(db, SchemaScript()).0)
  {
    RunScriptAppend(db, InstrumentTableScript(), StudentTableScript());
    RunScriptAppend(db, InstrumentTableScript() + StudentTableScript(), InventoryTableScript());
    var d2 := RunScript(db, InstrumentTableScript()).0;
    var d4 := RunScript(d2, StudentTableScript()).0;
    assert Instruments in d2.tables && SerialNumber in d2.indexes;
    assert Instruments in d4.tables && SerialNumber in d4.indexes;
    assert Students in d4.tables && FirstLastDob in d4.indexes;
  }
}
