/**
 * The backend object. It holds the database file and a debug flag; every
 * call opens the file, runs one statement (or one batch), commits, and
 * returns the rows of a query. Any store error ends the process, which the
 * model records as `halted`: nothing runs after it.
 */
module Backend {
  import opened Wrappers
  import opened Strings
  import opened Sql
  import opened Engine
  import opened EngineFacts
  import opened Upsert
  import opened Schema
  import opened Inventory

  /** The database file, shared by every backend object opened on its path. */
  class StoreFile {
    var tables: map<Table, TableData>
    var indexes: set<IndexName>

    /** A file that does not exist yet; the first connection creates it empty. */
    constructor ()
      ensures Contents() == EmptyDb()
    {
      tables := map[];
      indexes := {};
    }

    function Contents(): Db
      reads this
    {
      Db(tables, indexes)
    }

    /** `conn.commit()`: the connection's work becomes the file's contents. */
    method Commit(db: Db)
      modifies this
      ensures Contents() == db
    {
      tables := db.tables;
      indexes := db.indexes;
    }
  }

  /** Python's truth value of the optional batch: a batch is used only when
      one is given and it is not empty. */
  predicate Batched(many: Option<seq<Params>>) {
    many.Some? && many.value != []
  }

  /** What one call of the executor does to the store. */
  function Execution(db: Db, stmt: Statement, many: Option<seq<Params>>): StepResult {
    if Batched(many) then RunMany(db, stmt, many.value) else Step(db, stmt, [])
  }

  /** The executor hands back rows exactly when no batch is used and the
      statement text, left-stripped and upper-cased, starts with SELECT. */
  predicate ReturnsRows(stmt: Statement, many: Option<seq<Params>>) {
    !Batched(many) && IsSelect(StatementText(stmt))
  }

  /** The text test picks out exactly the unbatched queries. */
  lemma ReturnsRowsIff(stmt: Statement, many: Option<seq<Params>>)
    ensures ReturnsRows(stmt, many) <==> !Batched(many) && IsQuery(stmt)
  {
    TextIsSelectIffQuery(stmt);
  }

  lemma ExecutionKeepsWellFormed(db: Db, stmt: Statement, many: Option<seq<Params>>)
    requires WellFormed(db) && Execution(db, stmt, many).Done?
    ensures WellFormed(Execution(db, stmt, many).db)
  {
    if Batched(many) {
      RunManyKeepsWellFormed(db, stmt, many.value);
    } else {
      StepKeepsWellFormed(db, stmt, []);
    }
  }

  /** The write an upsert chooses from its lookup's rows (REPLACE with the
      first id found, or INSERT when there is none), run as a one-tuple
      batch, yields the upsert and keeps the schema in place. */
  lemma UpsertPlan(db: Db, t: Table, cols: Params, ids: seq<Params>, stmt: Statement, params: Params)
    requires WellFormed(db) && SchemaReady(db) && t != Inventory && |cols| == Arity(t)
    requires ids == IdsWithKey(db.tables[t].rows, t, Key(t, cols))
    requires ids != [] ==> |ids[0]| == 1 && stmt == ReplaceInto(t, Arity(t) + 1) && params == [ids[0][0]] + cols
    requires ids == [] ==> stmt == InsertInto(t, Arity(t)) && params == cols
    ensures Execution(db, stmt, Some([params])) == Done(Upserted(db, t, cols), [])
    ensures SchemaReady(Upserted(db, t, cols))
  {
    CheckThenActIsUpsert(db, t, cols);
    SingleBatchIsStep(db, stmt, params);
  }

  class BackendDb {
    const dbfile: StoreFile
    const debug: bool
    /** The process has exited after a store error. */
    var halted: bool

    ghost predicate Valid()
      reads this, dbfile
    {
      WellFormed(dbfile.Contents()) && (!halted ==> SchemaReady(dbfile.Contents()))
    }

    /** Opening the backend runs the schema setup on the file. */
    constructor (dbfile: StoreFile, debug: bool)
      requires WellFormed(dbfile.Contents())
      modifies dbfile
      ensures this.dbfile == dbfile && this.debug == debug
      ensures (dbfile.Contents(), halted) == RunScript(old(dbfile.Contents()), SchemaScript())
      ensures Valid()
    {
      this.dbfile := dbfile;
      this.debug := debug;
      halted := false;
      new;
      CreateTables();
      if !halted {
        SetupReachesSchema(old(dbfile.Contents()));
      }
    }

    /** Runs one statement, or the statement once per tuple of a non-empty
        batch, and commits. A store error halts and keeps nothing. The retry
        loop's body runs exactly once: success clears the counter and an
        error ends the process. */
    method ExecuteStmt(stmt: Statement, many: Option<seq<Params>>) returns (result: Option<seq<Params>>, ghost attempts: nat)
      requires !halted && WellFormed(dbfile.Contents())
      modifies this`halted, dbfile
      ensures attempts == 1
      ensures var outcome := Execution(old(dbfile.Contents()), stmt, many);
        && (halted <==> outcome.Failed?)
        && (outcome.Failed? ==> dbfile.Contents() == old(dbfile.Contents()) && result == None)
        && (outcome.Done? ==> dbfile.Contents() == outcome.db)
        && (outcome.Done? ==> result == if !Batched(many) && IsQuery(stmt) then Some(outcome.rows) else None)
      ensures WellFormed(dbfile.Contents())
    {
      ghost var before := dbfile.Contents();
      ghost var expected := Execution(before, stmt, many);
      ghost var rowsBack := !Batched(many) && IsQuery(stmt);
      ReturnsRowsIff(stmt, many);
      var retry := 3;
      attempts := 0;
      result := None;
      while retry != 0
        invariant 0 <= retry && !halted
        invariant attempts == 0 ==> retry == 3 && dbfile.Contents() == before && result == None
        invariant attempts != 0 ==> attempts == 1 && retry == 0 && expected.Done?
        invariant attempts != 0 ==> dbfile.Contents() == expected.db
        invariant attempts != 0 ==> result == if rowsBack then Some(expected.rows) else None
        decreases retry
      {
        retry := retry - 1;
        attempts := attempts + 1;
        var conn := dbfile.Contents();
        result := None;
        var outcome: StepResult;
        if Batched(many) {
          outcome := ExecuteMany(conn, stmt, many.value);
        } else {
          outcome := Step(conn, stmt, []);
        }
        assert outcome == expected;
        if outcome.Failed? {
          halted := true;
          return;
        }
        dbfile.Commit(outcome.db);
        if ReturnsRows(stmt, many) {
          result := Some(outcome.rows);
        }
        retry := 0;
      }
      ExecutionKeepsWellFormed(before, stmt, many);
    }

    /** Runs a schema script statement by statement, stopping at a halt. */
    method RunStatements(stmts: seq<Statement>)
      requires !halted && WellFormed(dbfile.Contents())
      modifies this`halted, dbfile
      ensures (dbfile.Contents(), halted) == RunScript(old(dbfile.Contents()), stmts)
      ensures WellFormed(dbfile.Contents())
    {
      var i := 0;
      while i < |stmts|
        invariant 0 <= i <= |stmts| && !halted && WellFormed(dbfile.Contents())
        invariant RunScript(old(dbfile.Contents()), stmts) == RunScript(dbfile.Contents(), stmts[i..])
      {
        var _, _ := ExecuteStmt(stmts[i], None);
        if halted {
          return;
        }
        assert stmts[i..][1..] == stmts[i + 1..];
        i := i + 1;
      }
    }

    method CreateInstrumentTable()
      requires !halted && WellFormed(dbfile.Contents())
      modifies this`halted, dbfile
      ensures (dbfile.Contents(), halted) == RunScript(old(dbfile.Contents()), InstrumentTableScript())
      ensures WellFormed(dbfile.Contents())
    {
      RunStatements(InstrumentTableScript());
    }

    method CreateStudentTable()
      requires !halted && WellFormed(dbfile.Contents())
      modifies this`halted, dbfile
      ensures (dbfile.Contents(), halted) == RunScript(old(dbfile.Contents()), StudentTableScript())
      ensures WellFormed(dbfile.Contents())
    {
      RunStatements(StudentTableScript());
    }

    method CreateInventoryTable()
      requires !halted && WellFormed(dbfile.Contents())
      modifies this`halted, dbfile
      ensures (dbfile.Contents(), halted) == RunScript(old(dbfile.Contents()), InventoryTableScript())
      ensures WellFormed(dbfile.Contents())
    {
      RunStatements(InventoryTableScript());
    }

    /** Instruments, then students, then inventory; a halt stops the rest. */
    method CreateTables()
      requires !halted && WellFormed(dbfile.Contents())
      modifies this`halted, dbfile
      ensures (dbfile.Contents(), halted) == RunScript(old(dbfile.Contents()), SchemaScript())
      ensures WellFormed(dbfile.Contents())
    {
      ghost var start := dbfile.Contents();
      RunScriptAppend(start, InstrumentTableScript(), StudentTableScript());
      RunScriptAppend(start, InstrumentTableScript() + StudentTableScript(), InventoryTableScript());
      CreateInstrumentTable();
      if halted {
        return;
      }
      CreateStudentTable();
      if halted {
        return;
      }
      CreateInventoryTable();
    }

    /** Adds an instrument, or rewrites the one with the same serial number. */
    method AddOrUpdateInstrument(itype: string, serialNum: string, maker: string, notes: string)
      requires Valid() && !halted
      modifies this`halted, dbfile
      ensures Valid() && !halted
      ensures dbfile.Contents() == Upserted(old(dbfile.Contents()), Instruments, InstrumentValues(itype, serialNum, maker, notes))
    {
      ghost var db := dbfile.Contents();
      var values := InstrumentValues(itype, serialNum, maker, notes);
      var rows, _ := ExecuteStmt(SelectInstrumentId(serialNum), None);
      assert rows == Some(IdsWithKey(db.tables[Instruments].rows, Instruments, Key(Instruments, values)));
      ghost var cols := values;
      var stmt: Statement;
      if rows.Some? && rows.value != [] {
        var instId := rows.value[0][0];
        values := [instId] + values;
        stmt := ReplaceInto(Instruments, 5);
      } else {
        stmt := InsertInto(Instruments, 4);
      }
      UpsertPlan(db, Instruments, cols, rows.value, stmt, values);
      var _, _ := ExecuteStmt(stmt, Some([values]));
    }

    /** Adds a student, or rewrites the one with the same first name, last
        name and date of birth. */
    method AddOrUpdateStudent(firstname: string, lastname: string, dob: string, address: string, city: string,
                              state: string, zipcode: string, phone: string, notes: string)
      requires Valid() && !halted
      modifies this`halted, dbfile
      ensures Valid() && !halted
      ensures dbfile.Contents() == Upserted(old(dbfile.Contents()), Students,
        StudentValues(firstname, lastname, dob, address, city, state, zipcode, phone, notes))
    {
      ghost var db := dbfile.Contents();
      var values := StudentValues(firstname, lastname, dob, address, city, state, zipcode, phone, notes);
      assert Key(Students, values) == [Text(firstname), Text(lastname), Text(dob)];
      var lookup := SelectStudentId(firstname, lastname, dob);
      var rows, _ := ExecuteStmt(lookup, None);
      assert rows == Some(IdsWithKey(db.tables[Students].rows, Students, Key(Students, values)));
      ghost var cols := values;
      var stmt: Statement;
      if rows.Some? && rows.value != [] {
        var studentId := rows.value[0][0];
        values := [studentId] + values;
        stmt := ReplaceInto(Students, 10);
      } else {
        stmt := InsertInto(Students, 9);
      }
      UpsertPlan(db, Students, cols, rows.value, stmt, values);
      var _, _ := ExecuteStmt(stmt, Some([values]));
    }

    /** Every row of the table, as tuples in ascending id order. */
    method ReadTable(table: Table) returns (result: Option<seq<Params>>)
      requires Valid() && !halted
      modifies this`halted, dbfile
      ensures Valid() && !halted && dbfile.Contents() == old(dbfile.Contents())
      ensures result == Some(Tuples(dbfile.Contents().tables[table].rows))
      ensures forall i, j :: 0 <= i < j < |result.value| ==> result.value[i][0].i < result.value[j][0].i
    {
      ReadBackAscending(dbfile.Contents(), table);
      ghost var tries;
      result, tries := ExecuteStmt(SelectAll(table), None);
    }

    /** The inventory writer as written: it always halts, leaving the file
        as it was. */
    method AddOrUpdateInventory(instrumentId: int, studentId: int, notes: string)
      requires Valid() && !halted
      modifies this`halted, dbfile
      ensures Valid() && halted && dbfile.Contents() == old(dbfile.Contents())
    {
      AsWrittenNeverRuns(dbfile.Contents(), FlatBatch(instrumentId, studentId, notes));
      var _, _ := ExecuteStmt(InventoryInsertAsWritten(), Some(FlatBatch(instrumentId, studentId, notes)));
    }

    /** The inventory writer as evidently intended: appends one assignment row. */
    method AddAssignment(instrumentId: int, studentId: int, notes: string)
      requires Valid() && !halted
      modifies this`halted, dbfile
      ensures Valid() && !halted
      ensures dbfile.Contents() == Assigned(old(dbfile.Contents()), instrumentId, studentId, notes)
    {
      var values := AssignmentValues(instrumentId, studentId, notes);
      AssignmentAppends(dbfile.Contents(), instrumentId, studentId, notes);
      var _, _ := ExecuteStmt(AssignmentInsert(), Some([values]));
    }
  }
}
