/**
 * What the abstract store guarantees: every successful statement keeps the
 * store well formed (ids ascending, ids below the AUTOINCREMENT counter,
 * natural keys unique under a unique index); queries change nothing; and
 * the two writes the backend issues act as an in-place update and an
 * append when used the way the backend uses them.
 */
module EngineFacts {
  import opened Wrappers
  import opened Sql
  import opened Engine

  /** Every row REPLACE keeps was in the table and does not clash. */
  lemma {:induction false} SurvivorsSub(rows: seq<Row>, t: Table, id: int, indexed: bool, key: Params)
    ensures forall x :: x in Survivors(rows, t, id, indexed, key) ==> x in rows && !Clashes(x, t, id, indexed, key)
  {
    if rows != [] {
      SurvivorsSub(rows[1..], t, id, indexed, key);
    }
  }

  /** The first row of an ascending table is below every later row. */
  lemma HeadBelow(rows: seq<Row>)
    requires rows != [] && IdsAscending(rows)
    ensures forall x :: x in rows[1..] ==> rows[0].id < x.id
  {
    forall x | x in rows[1..] ensures rows[0].id < x.id {
      var m :| 0 <= m < |rows| - 1 && rows[1..][m] == x;
      assert rows[m + 1] == x;
    }
  }

  /** In a table with unique keys, the first row's key is not repeated. */
  lemma HeadKeyAlone(t: Table, rows: seq<Row>)
    requires rows != [] && KeysUnique(t, rows)
    ensures forall x :: x in rows[1..] ==> Key(t, rows[0].cols) != Key(t, x.cols)
  {
    forall x | x in rows[1..] ensures Key(t, rows[0].cols) != Key(t, x.cols) {
      var m :| 0 <= m < |rows| - 1 && rows[1..][m] == x;
      assert rows[m + 1] == x;
    }
  }

  lemma ConsAscending(h: Row, s: seq<Row>)
    requires IdsAscending(s) && forall x :: x in s ==> h.id < x.id
    ensures IdsAscending([h] + s)
  {
    var u := [h] + s;
    forall i, j | 0 <= i < j < |u| ensures u[i].id < u[j].id {
      assert u[j] == s[j - 1];
      if i > 0 {
        assert u[i] == s[i - 1];
      } else {
        assert s[j - 1] in s;
      }
    }
  }

  lemma ConsKeysUnique(t: Table, h: Row, s: seq<Row>)
    requires KeysUnique(t, s) && forall x :: x in s ==> Key(t, h.cols) != Key(t, x.cols)
    ensures KeysUnique(t, [h] + s)
  {
    var u := [h] + s;
    forall i, j | 0 <= i < j < |u| ensures Key(t, u[i].cols) != Key(t, u[j].cols) {
      assert u[j] == s[j - 1];
      if i > 0 {
        assert u[i] == s[i - 1];
      } else {
        assert s[j - 1] in s;
      }
    }
  }

  /** REPLACE's deletions keep the ids ascending. */
  lemma {:induction false} SurvivorsAscending(rows: seq<Row>, t: Table, id: int, indexed: bool, key: Params)
    requires IdsAscending(rows)
    ensures IdsAscending(Survivors(rows, t, id, indexed, key))
  {
    if rows != [] {
      var s' := Survivors(rows[1..], t, id, indexed, key);
      SurvivorsAscending(rows[1..], t, id, indexed, key);
      if !Clashes(rows[0], t, id, indexed, key) {
        SurvivorsSub(rows[1..], t, id, indexed, key);
        HeadBelow(rows);
        ConsAscending(rows[0], s');
      } else {
        assert Survivors(rows, t, id, indexed, key) == s';
      }
    }
  }

  /** REPLACE's deletions keep natural keys unique. */
  lemma {:induction false} SurvivorsKeysUnique(rows: seq<Row>, t: Table, id: int, indexed: bool, key: Params)
    requires KeysUnique(t, rows)
    ensures KeysUnique(t, Survivors(rows, t, id, indexed, key))
  {
    if rows != [] {
      var s' := Survivors(rows[1..], t, id, indexed, key);
      SurvivorsKeysUnique(rows[1..], t, id, indexed, key);
      if !Clashes(rows[0], t, id, indexed, key) {
        SurvivorsSub(rows[1..], t, id, indexed, key);
        HeadKeyAlone(t, rows);
        ConsKeysUnique(t, rows[0], s');
      } else {
        assert Survivors(rows, t, id, indexed, key) == s';
      }
    }
  }

  /** When exactly one row clashes, REPLACE deletes just that row. */
  lemma {:induction false} SurvivorsAllBut(rows: seq<Row>, t: Table, id: int, indexed: bool, key: Params, i: nat)
    requires i < |rows| && Clashes(rows[i], t, id, indexed, key)
    requires forall j :: 0 <= j < |rows| && j != i ==> !Clashes(rows[j], t, id, indexed, key)
    ensures Survivors(rows, t, id, indexed, key) == rows[..i] + rows[i + 1..]
  {
    if i == 0 {
      SurvivorsNone(rows[1..], t, id, indexed, key);
    } else {
      SurvivorsAllBut(rows[1..], t, id, indexed, key, i - 1);
      assert rows[1..][..i - 1] + rows[1..][i..] == rows[1..i] + rows[i + 1..];
      assert rows[..i] == [rows[0]] + rows[1..i];
    }
  }

  /** When no row clashes, REPLACE deletes nothing. */
  lemma {:induction false} SurvivorsNone(rows: seq<Row>, t: Table, id: int, indexed: bool, key: Params)
    requires forall j :: 0 <= j < |rows| ==> !Clashes(rows[j], t, id, indexed, key)
    ensures Survivors(rows, t, id, indexed, key) == rows
  {
    if rows != [] {
      SurvivorsNone(rows[1..], t, id, indexed, key);
      assert [rows[0]] + rows[1..] == rows;
    }
  }

  /** Putting a row at the position that separates smaller from larger ids
      keeps the ids ascending, and keeps keys unique when its key is new. */
  lemma PlaceKeeps(s: seq<Row>, k: nat, r: Row, t: Table)
    requires k <= |s| && IdsAscending(s)
    requires forall j :: 0 <= j < k ==> s[j].id < r.id
    requires forall j :: k <= j < |s| ==> s[j].id > r.id
    ensures IdsAscending(s[..k] + [r] + s[k..])
    ensures KeysUnique(t, s) && (forall x :: x in s ==> Key(t, x.cols) != Key(t, r.cols))
            ==> KeysUnique(t, s[..k] + [r] + s[k..])
  {
    PlaceKeepsAscending(s, k, r);
    if KeysUnique(t, s) && (forall x :: x in s ==> Key(t, x.cols) != Key(t, r.cols)) {
      PlaceKeepsKeysUnique(s, k, r, t);
    }
  }

  lemma PlaceKeepsAscending(s: seq<Row>, k: nat, r: Row)
    requires k <= |s| && IdsAscending(s)
    requires forall j :: 0 <= j < k ==> s[j].id < r.id
    requires forall j :: k <= j < |s| ==> s[j].id > r.id
    ensures IdsAscending(s[..k] + [r] + s[k..])
  {
    var u := s[..k] + [r] + s[k..];
    assert forall m :: 0 <= m < k ==> u[m] == s[m];
    assert u[k] == r;
    assert forall m :: k < m < |u| ==> u[m] == s[m - 1];
  }

  lemma PlaceKeepsKeysUnique(s: seq<Row>, k: nat, r: Row, t: Table)
    requires k <= |s| && KeysUnique(t, s)
    requires forall x :: x in s ==> Key(t, x.cols) != Key(t, r.cols)
    ensures KeysUnique(t, s[..k] + [r] + s[k..])
  {
    var u := s[..k] + [r] + s[k..];
    assert forall m :: 0 <= m < k ==> u[m] == s[m];
    assert u[k] == r;
    assert forall m :: k < m < |u| ==> u[m] == s[m - 1];
    forall i, j | 0 <= i < j < |u| ensures Key(t, u[i].cols) != Key(t, u[j].cols) {
      if i == k {
        assert u[j] in s;
      } else if j == k {
        assert u[i] in s;
      }
    }
  }


  /** Appending a row with id counter+1 and a key not yet present keeps
      the table's invariant. */
  lemma AppendKeepsTableOk(t: Table, td: TableData, cols: Params, indexed: bool)
    requires TableOk(t, td, indexed) && |cols| == Arity(t)
    requires indexed ==> FindKey(td.rows, t, Key(t, cols)).None?
    ensures TableOk(t, TableData(td.rows + [Row(td.lastId + 1, cols)], td.lastId + 1), indexed)
  {
    var u := td.rows + [Row(td.lastId + 1, cols)];
    assert forall m :: 0 <= m < |td.rows| ==> u[m] == td.rows[m];
  }

  /** Replacing one existing table by a table that keeps the invariant under
      the same indexes keeps the store well formed. */
  lemma UpdateKeepsWellFormed(db: Db, t: Table, td: TableData)
    requires WellFormed(db) && t in db.tables && TableOk(t, td, Indexed(db, t))
    ensures WellFormed(db.(tables := db.tables[t := td]))
  {
  }

  /** Every successful statement keeps the store well formed. */
  lemma StepKeepsWellFormed(db: Db, s: Statement, params: Params)
    requires WellFormed(db)
    requires Step(db, s, params).Done?
    ensures WellFormed(Step(db, s, params).db)
  {
    match s
    case CreateTable(t) =>
    case CreateUniqueIndex(ix) =>
      var t := IndexTable(ix);
      var next := Step(db, s, params).db;
      assert next == db.(indexes := db.indexes + {ix});
      assert KeysUnique(t, db.tables[t].rows);
    case SelectInstrumentId(_) =>
    case SelectStudentId(_, _, _) =>
    case SelectAll(_) =>
    case InsertInto(t, _) =>
      var td := db.tables[t];
      var td' := TableData(td.rows + [Row(td.lastId + 1, params)], td.lastId + 1);
      assert Step(db, s, params).db == db.(tables := db.tables[t := td']);
      AppendKeepsTableOk(t, td, params, Indexed(db, t));
      UpdateKeepsWellFormed(db, t, td');
    case ReplaceInto(t, _) =>
      ReplaceKeepsTableOk(db, t, params);
  }


  /** After the insertion point every surviving id is above the new one. */
  lemma AbovePos(kept: seq<Row>, id: int)
    requires IdsAscending(kept) && forall x :: x in kept ==> x.id != id
    ensures forall j :: InsertPos(kept, id) <= j < |kept| ==> kept[j].id > id
  {
    var k := InsertPos(kept, id);
    forall j | k <= j < |kept| ensures kept[j].id > id {
      assert kept[j] in kept;
      if j > k {
        assert kept[k].id < kept[j].id;
      }
    }
  }

  /** Placing one row among others keeps every row drawn from the others or equal to it. */
  lemma PlaceDrawsFrom(kept: seq<Row>, k: nat, r: Row)
    requires k <= |kept|
    ensures forall m :: 0 <= m < |kept[..k] + [r] + kept[k..]| ==>
      (kept[..k] + [r] + kept[k..])[m] == r || (kept[..k] + [r] + kept[k..])[m] in kept
  {
    var u := kept[..k] + [r] + kept[k..];
    forall m | 0 <= m < |u| ensures u[m] == r || u[m] in kept {
      if m < k {
        assert u[m] == kept[m];
      } else if m > k {
        assert u[m] == kept[m - 1];
      }
    }
  }

  lemma ReplacedFits(td: TableData, t: Table, indexed: bool, id: int, cols: Params)
    requires RowsFit(t, td) && |cols| == Arity(t)
    ensures RowsFit(t, Replaced(td, t, indexed, id, cols))
  {
    var kept := Survivors(td.rows, t, id, indexed, Key(t, cols));
    var k := InsertPos(kept, id);
    SurvivorsSub(td.rows, t, id, indexed, Key(t, cols));
    PlaceDrawsFrom(kept, k, Row(id, cols));
    var u := Replaced(td, t, indexed, id, cols).rows;
    forall m | 0 <= m < |u| ensures |u[m].cols| == Arity(t) && u[m].id <= Max(td.lastId, id) {
      if u[m] != Row(id, cols) {
        var m' :| 0 <= m' < |td.rows| && td.rows[m'] == u[m];
      }
    }
  }

  lemma ReplacedOk(td: TableData, t: Table, indexed: bool, id: int, cols: Params)
    requires TableOk(t, td, indexed) && |cols| == Arity(t)
    ensures TableOk(t, Replaced(td, t, indexed, id, cols), indexed)
  {
    var key := Key(t, cols);
    var kept := Survivors(td.rows, t, id, indexed, key);
    var k := InsertPos(kept, id);
    SurvivorsSub(td.rows, t, id, indexed, key);
    SurvivorsAscending(td.rows, t, id, indexed, key);
    AbovePos(kept, id);
    if indexed {
      SurvivorsKeysUnique(td.rows, t, id, indexed, key);
    }
    PlaceKeeps(kept, k, Row(id, cols), t);
    ReplacedFits(td, t, indexed, id, cols);
  }

  lemma ReplaceKeepsTableOk(db: Db, t: Table, params: Params)
    requires WellFormed(db)
    requires Step(db, ReplaceInto(t, Arity(t) + 1), params).Done?
    ensures WellFormed(Step(db, ReplaceInto(t, Arity(t) + 1), params).db)
  {
    var td := db.tables[t];
    var id, cols := params[0].i, params[1..];
    var td' := Replaced(td, t, Indexed(db, t), id, cols);
    assert Step(db, ReplaceInto(t, Arity(t) + 1), params).db == db.(tables := db.tables[t := td']);
    ReplacedOk(td, t, Indexed(db, t), id, cols);
    UpdateKeepsWellFormed(db, t, td');
  }

  lemma {:induction false} RunEachKeepsWellFormed(db: Db, s: Statement, batch: seq<Params>)
    requires WellFormed(db)
    requires RunEach(db, s, batch).Done?
    ensures WellFormed(RunEach(db, s, batch).db)
    decreases |batch|
  {
    if batch != [] {
      StepKeepsWellFormed(db, s, batch[0]);
      RunEachKeepsWellFormed(Step(db, s, batch[0]).db, s, batch[1..]);
    }
  }

  lemma RunManyKeepsWellFormed(db: Db, s: Statement, batch: seq<Params>)
    requires WellFormed(db)
    requires RunMany(db, s, batch).Done?
    ensures WellFormed(RunMany(db, s, batch).db)
  {
    RunEachKeepsWellFormed(db, s, batch);
  }

  /** Only queries yield rows, and a query leaves the store as it was. */
  lemma QueryLeavesStore(db: Db, s: Statement, params: Params)
    requires Step(db, s, params).Done?
    ensures IsQuery(s) ==> Step(db, s, params).db == db
    ensures !IsQuery(s) ==> Step(db, s, params).rows == []
  {
  }

  /** With ids ascending and keys unique, row `i` is the only row that
      clashes with a REPLACE of its own id and key. */
  lemma OnlyMatchClashes(rows: seq<Row>, t: Table, i: nat, key: Params)
    requires IdsAscending(rows) && KeysUnique(t, rows)
    requires i < |rows| && Key(t, rows[i].cols) == key
    ensures forall j :: 0 <= j < |rows| && j != i ==> !Clashes(rows[j], t, rows[i].id, true, key)
  {
    forall j | 0 <= j < |rows| && j != i ensures !Clashes(rows[j], t, rows[i].id, true, key) {
      if j < i {
        assert rows[j].id < rows[i].id;
        assert Key(t, rows[j].cols) != Key(t, rows[i].cols);
      } else {
        assert rows[i].id < rows[j].id;
        assert Key(t, rows[i].cols) != Key(t, rows[j].cols);
      }
    }
  }

  /** Removing row `i` from ascending rows, its id goes back at position `i`. */
  lemma PosAfterRemoval(rows: seq<Row>, i: nat)
    requires IdsAscending(rows) && i < |rows|
    ensures InsertPos(rows[..i] + rows[i + 1..], rows[i].id) == i
  {
    var kept := rows[..i] + rows[i + 1..];
    var k := InsertPos(kept, rows[i].id);
    assert forall j :: 0 <= j < i ==> kept[j].id < rows[i].id;
    assert i < |kept| ==> kept[i] == rows[i + 1];
  }

  /** Putting a row back where one was removed is an update at that position. */
  lemma PutBack(rows: seq<Row>, i: nat, r: Row)
    requires i < |rows|
    ensures var kept := rows[..i] + rows[i + 1..];
      kept[..i] + [r] + kept[i..] == rows[i := r]
  {
    var kept := rows[..i] + rows[i + 1..];
    assert kept[..i] == rows[..i];
    assert kept[i..] == rows[i + 1..];
  }

  /** At the row level: when row `i` has the REPLACE's id and natural key,
      the REPLACE rewrites row `i` in place. */
  lemma ReplacedAtMatch(td: TableData, t: Table, i: nat, cols: Params)
    requires TableOk(t, td, true)
    requires i < |td.rows| && Key(t, td.rows[i].cols) == Key(t, cols)
    ensures Replaced(td, t, true, td.rows[i].id, cols) == td.(rows := td.rows[i := Row(td.rows[i].id, cols)])
  {
    var rows := td.rows;
    var id := rows[i].id;
    OnlyMatchClashes(rows, t, i, Key(t, cols));
    SurvivorsAllBut(rows, t, id, true, Key(t, cols), i);
    PosAfterRemoval(rows, i);
    PutBack(rows, i, Row(id, cols));
    assert td.lastId >= id;
  }

  /** A REPLACE that carries the id and the natural key of row `i` rewrites
      row `i` in place: same position, same id, new values, every other row
      untouched, counter unchanged. */
  lemma ReplaceAtMatch(db: Db, t: Table, i: nat, cols: Params)
    requires WellFormed(db) && t in db.tables && Indexed(db, t)
    requires |cols| == Arity(t)
    requires i < |db.tables[t].rows| && Key(t, db.tables[t].rows[i].cols) == Key(t, cols)
    ensures var td := db.tables[t];
      Step(db, ReplaceInto(t, Arity(t) + 1), [Int(td.rows[i].id)] + cols)
      == Done(db.(tables := db.tables[t := td.(rows := td.rows[i := Row(td.rows[i].id, cols)])]), [])
  {
    var td := db.tables[t];
    var params := [Int(td.rows[i].id)] + cols;
    assert params[1..] == cols;
    ReplacedAtMatch(td, t, i, cols);
    assert Step(db, ReplaceInto(t, Arity(t) + 1), params)
        == Done(db.(tables := db.tables[t := Replaced(td, t, true, td.rows[i].id, cols)]), []);
  }

  /** An INSERT whose natural key is not in the table appends one row with
      the next id. */
  lemma InsertFresh(db: Db, t: Table, cols: Params)
    requires t in db.tables && |cols| == Arity(t)
    requires FindKey(db.tables[t].rows, t, Key(t, cols)).None?
    ensures var td := db.tables[t];
      Step(db, InsertInto(t, Arity(t)), cols)
      == Done(db.(tables := db.tables[t := TableData(td.rows + [Row(td.lastId + 1, cols)], td.lastId + 1)]), [])
  {
  }

  /** `select *` yields the rows in strictly ascending id order. */
  lemma ReadBackAscending(db: Db, t: Table)
    requires WellFormed(db) && t in db.tables
    ensures var r := Tuples(db.tables[t].rows);
      forall i, j :: 0 <= i < j < |r| ==> r[i][0].Int? && r[j][0].Int? && r[i][0].i < r[j][0].i
  {
    var rows := db.tables[t].rows;
    assert IdsAscending(rows);
  }

  /** `CREATE TABLE IF NOT EXISTS` always succeeds, and running it again
      changes nothing. */
  lemma CreateTableIdempotent(db: Db, t: Table)
    ensures Step(db, CreateTable(t), []).Done?
    ensures var once := Step(db, CreateTable(t), []).db;
      Step(once, CreateTable(t), []) == Done(once, []) && t in once.tables
  {
  }

  /** `CREATE UNIQUE INDEX` is not idempotent: once it has succeeded, the
      same statement fails. */
  lemma CreateIndexTwiceFails(db: Db, ix: IndexName)
    requires Step(db, CreateUniqueIndex(ix), []).Done?
    ensures Step(Step(db, CreateUniqueIndex(ix), []).db, CreateUniqueIndex(ix), []) == Failed(IndexExists(ix))
  {
  }

  /** A batch of one parameter tuple runs the statement exactly once. */
  lemma SingleBatchIsStep(db: Db, s: Statement, p: Params)
    requires !IsQuery(s)
    ensures RunMany(db, s, [p]) == Step(db, s, p)
  {
    var r := Step(db, s, p);
    if r.Done? {
      QueryLeavesStore(db, s, p);
      assert PrepareError(db, s).None?;
      assert [p][1..] == [];
      assert RunEach(db, s, [p]) == RunEach(r.db, s, []) == Done(r.db, []);
      assert RunMany(db, s, [p]) == RunEach(db, s, [p]);
    }
  }
}
