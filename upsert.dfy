/**
 * Upsert by natural key, as the backend means it: the row whose natural key
 * matches is rewritten in place and keeps its id; otherwise one row is
 * appended with the next id. `UpsertRows` states that outcome directly; the
 * lemmas below prove what it keeps (unique keys, ascending ids, the other
 * rows), and `CheckThenActIsUpsert` proves that the backend's two-statement
 * lookup-then-write through the store reaches exactly that outcome.
 */
module Upsert {
  import opened Wrappers
  import opened Sql
  import opened Engine
  import opened EngineFacts

  /** The values bound for an instrument, in column order. */
  function InstrumentValues(itype: string, serialNum: string, maker: string, notes: string): (v: Params)
    ensures |v| == Arity(Instruments) && Key(Instruments, v) == [Text(serialNum)]
  {
    [Text(itype), Text(serialNum), Text(maker), Text(notes)]
  }

  /** The values bound for a student, in column order. */
  function StudentValues(firstname: string, lastname: string, dob: string, address: string, city: string,
                         state: string, zipcode: string, phone: string, notes: string): (v: Params)
    ensures |v| == Arity(Students) && Key(Students, v) == [Text(firstname), Text(lastname), Text(dob)]
  {
    [Text(firstname), Text(lastname), Text(dob), Text(address), Text(city), Text(state),
     Text(zipcode), Text(phone), Text(notes)]
  }

  /** The intended effect of an upsert on one table. */
  function UpsertRows(td: TableData, t: Table, cols: Params): TableData {
    match FindKey(td.rows, t, Key(t, cols))
    case Some(i) => td.(rows := td.rows[i := Row(td.rows[i].id, cols)])
    case None => TableData(td.rows + [Row(td.lastId + 1, cols)], td.lastId + 1)
  }

  /** The intended effect of an upsert on the store: only table `t` changes. */
  function Upserted(db: Db, t: Table, cols: Params): Db
    requires t in db.tables
  {
    db.(tables := db.tables[t := UpsertRows(db.tables[t], t, cols)])
  }

  /** The first row with the key is the one `FindKey` reports. */
  lemma FindKeyIs(rows: seq<Row>, t: Table, key: Params, i: nat)
    requires i < |rows| && Key(t, rows[i].cols) == key
    requires forall j :: 0 <= j < i ==> Key(t, rows[j].cols) != key
    ensures FindKey(rows, t, key) == Some(i)
  {
  }

  /** Upsert of an existing natural key: same number of rows, row `i` keeps
      its id and takes the new values, every other row and the counter are
      unchanged. */
  lemma UpsertUpdates(td: TableData, t: Table, cols: Params, i: nat)
    requires KeysUnique(t, td.rows)
    requires i < |td.rows| && Key(t, td.rows[i].cols) == Key(t, cols)
    ensures var u := UpsertRows(td, t, cols);
      && |u.rows| == |td.rows|
      && u.rows[i] == Row(td.rows[i].id, cols)
      && (forall j :: 0 <= j < |td.rows| && j != i ==> u.rows[j] == td.rows[j])
      && u.lastId == td.lastId
  {
    forall j | 0 <= j < i ensures Key(t, td.rows[j].cols) != Key(t, cols) {
      assert Key(t, td.rows[j].cols) != Key(t, td.rows[i].cols);
    }
    FindKeyIs(td.rows, t, Key(t, cols), i);
  }

  /** Upsert of a new natural key: exactly one row is appended, its id is the
      counter plus one and above every id in the table, and the rows before
      it are untouched. */
  lemma UpsertInserts(td: TableData, t: Table, cols: Params)
    requires RowsFit(t, td)
    requires forall j :: 0 <= j < |td.rows| ==> Key(t, td.rows[j].cols) != Key(t, cols)
    ensures var u := UpsertRows(td, t, cols);
      && |u.rows| == |td.rows| + 1
      && u.rows[..|td.rows|] == td.rows
      && u.rows[|td.rows|] == Row(td.lastId + 1, cols)
      && (forall j :: 0 <= j < |td.rows| ==> td.rows[j].id < u.rows[|td.rows|].id)
      && u.lastId == td.lastId + 1
  {
  }

  /** Every upsert keeps the table's invariant: rows fit, ids ascending, and
      no two rows share a natural key. */
  lemma UpsertKeepsTableOk(td: TableData, t: Table, cols: Params)
    requires TableOk(t, td, true) && |cols| == Arity(t)
    ensures TableOk(t, UpsertRows(td, t, cols), true)
  {
    var rows := td.rows;
    var u := UpsertRows(td, t, cols);
    match FindKey(rows, t, Key(t, cols))
    case Some(i) =>
      assert forall j :: 0 <= j < |rows| ==> Key(t, u.rows[j].cols) == Key(t, rows[j].cols);
      assert forall j :: 0 <= j < |rows| ==> u.rows[j].id == rows[j].id;
    case None =>
      assert forall j :: 0 <= j < |rows| ==> u.rows[j] == rows[j];
  }

  /** Upserting the same values twice is the same as upserting them once. */
  lemma UpsertIdempotent(td: TableData, t: Table, cols: Params)
    ensures UpsertRows(UpsertRows(td, t, cols), t, cols) == UpsertRows(td, t, cols)
  {
    var key := Key(t, cols);
    var u := UpsertRows(td, t, cols);
    match FindKey(td.rows, t, key)
    case Some(i) =>
      FindKeyIs(u.rows, t, key, i);
      assert u.rows[i := Row(u.rows[i].id, cols)] == u.rows;
    case None =>
      FindKeyIs(u.rows, t, key, |td.rows|);
      assert u.rows[|td.rows| := Row(u.rows[|td.rows|].id, cols)] == u.rows;
  }

  /** The backend's lookup-then-write is an upsert. Under the unique index,
      when `select id … where <natural key>` finds rows, REPLACE with the
      first id found rewrites that row in place; when it finds none, INSERT
      appends. Either way the store ends as `Upserted`, and the write never
      trips the unique index. */
  lemma CheckThenActIsUpsert(db: Db, t: Table, cols: Params)
    requires WellFormed(db) && t in db.tables && Indexed(db, t) && |cols| == Arity(t)
    ensures var ids := IdsWithKey(db.tables[t].rows, t, Key(t, cols));
      && (ids != [] ==> |ids[0]| == 1 && Step(db, ReplaceInto(t, Arity(t) + 1), [ids[0][0]] + cols) == Done(Upserted(db, t, cols), []))
      && (ids == [] ==> Step(db, InsertInto(t, Arity(t)), cols) == Done(Upserted(db, t, cols), []))
  {
    var td := db.tables[t];
    var ids := IdsWithKey(td.rows, t, Key(t, cols));
    match FindKey(td.rows, t, Key(t, cols))
    case Some(i) =>
      assert ids[0] == [Int(td.rows[i].id)];
      ReplaceAtMatch(db, t, i, cols);
    case None =>
      InsertFresh(db, t, cols);
  }

  /** The session the test suite runs on a fresh students table: two new
      students get ids 1 and 2 and read back in that order; upserting the
      second again with a new note rewrites only that note. */
  lemma StudentSessionFromTests()
    ensures
      var logan := StudentValues("Logan", "Reid", "04/19/1998", "14304 Laurinburg", "Austin", "TX", "78717",
                                 "512-716-0011", "needs to practice more");
      var nikolai := StudentValues("Nikolai", "Richards", "07/09/2002", "14905 Solera", "Austin", "TX", "78717",
                                   "512-716-0011", "");
      var nikolai' := StudentValues("Nikolai", "Richards", "07/09/2002", "14905 Solera", "Austin", "TX", "78717",
                                    "512-716-0011", "making excellent progress");
      var two := UpsertRows(UpsertRows(TableData([], 0), Students, logan), Students, nikolai);
      var three := UpsertRows(two, Students, nikolai');
      && Tuples(two.rows) == [[Int(1)] + logan, [Int(2)] + nikolai]
      && Tuples(three.rows) == [[Int(1)] + logan, [Int(2)] + nikolai']
  {
    var logan := StudentValues("Logan", "Reid", "04/19/1998", "14304 Laurinburg", "Austin", "TX", "78717",
                               "512-716-0011", "needs to practice more");
    var nikolai := StudentValues("Nikolai", "Richards", "07/09/2002", "14905 Solera", "Austin", "TX", "78717",
                                 "512-716-0011", "");
    var nikolai' := StudentValues("Nikolai", "Richards", "07/09/2002", "14905 Solera", "Austin", "TX", "78717",
                                  "512-716-0011", "making excellent progress");
    var one := UpsertRows(TableData([], 0), Students, logan);
    assert one == TableData([Row(1, logan)], 1);
    assert Key(Students, logan) != Key(Students, nikolai) by {
      assert Key(Students, logan)[0] == Text("Logan") && Key(Students, nikolai)[0] == Text("Nikolai");
    }
    FindKeyIs(one.rows + [Row(2, nikolai)], Students, Key(Students, nikolai'), 1);
  }

  /** The instrument session of the test suite: a flute and a trumpet get ids
      1 and 2; upserting the trumpet's serial number again rewrites only its
      note. */
  lemma InstrumentSessionFromTests()
    ensures
      var flute := InstrumentValues("flute", "12345", "bach", "needs tuning");
      var trumpet := InstrumentValues("trumpet", "986", "yamaha", "");
      var trumpet' := InstrumentValues("trumpet", "986", "yamaha", "out for repair");
      var two := UpsertRows(UpsertRows(TableData([], 0), Instruments, flute), Instruments, trumpet);
      var three := UpsertRows(two, Instruments, trumpet');
      && Tuples(two.rows) == [[Int(1)] + flute, [Int(2)] + trumpet]
      && Tuples(three.rows) == [[Int(1)] + flute, [Int(2)] + trumpet']
  {
    var flute := InstrumentValues("flute", "12345", "bach", "needs tuning");
    var trumpet := InstrumentValues("trumpet", "986", "yamaha", "");
    var trumpet' := InstrumentValues("trumpet", "986", "yamaha", "out for repair");
    var one := UpsertRows(TableData([], 0), Instruments, flute);
    assert one == TableData([Row(1, flute)], 1);
    assert Key(Instruments, flute) != Key(Instruments, trumpet) by {
      assert |"12345"| != |"986"|;
    }
    FindKeyIs(one.rows + [Row(2, trumpet)], Instruments, Key(Instruments, trumpet'), 1);
  }
}
