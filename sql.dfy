/**
 * The SQL vocabulary of the backend: the values it stores, its three
 * tables and two unique indexes, and the statements it sends to the store,
 * each with the statement text the executor sees.
 */
module Sql {
  import opened Wrappers
  import opened Strings

  /** A stored value. The backend only ever stores integers and text. */
  datatype Value = Int(i: int) | Text(s: string)

  /** One parameter tuple (or one result tuple). */
  type Params = seq<Value>

  datatype Table = Instruments | Students | Inventory

  /** The two unique indexes the schema creates. */
  datatype IndexName = SerialNumber | FirstLastDob

  function TableName(t: Table): string {
    match t
    case Instruments => "instruments"
    case Students => "students"
    case Inventory => "inventory"
  }

  /** The non-id columns of each table, in declaration order. */
  function Columns(t: Table): string {
    match t
    case Instruments => "type, serial_num, maker, notes"
    case Students => "firstname, lastname, dob, address, city, state, zip, phone, notes"
    case Inventory => "instrument_id, student_id, notes"
  }

  /** Number of non-id columns. */
  function Arity(t: Table): (n: nat)
    ensures n >= 3
  {
    match t
    case Instruments => 4
    case Students => 9
    case Inventory => 3
  }

  /** The column definitions of each table, with the padding the schema
      statements use. */
  function ColumnDefinitions(t: Table): string {
    match t
    case Instruments =>
      " id         INTEGER PRIMARY KEY AUTOINCREMENT," + " type       CHAR(50),"
      + " serial_num CHAR(50)," + " maker      CHAR(50)," + " notes      CHAR(200)"
    case Students =>
      " id         INTEGER PRIMARY KEY AUTOINCREMENT," + " firstname  CHAR(50),"
      + " lastname   CHAR(50)," + " dob        DATETIME," + " address    CHAR(50),"
      + " city       CHAR(50)," + " state      CHAR(50)," + " zip        CHAR(50),"
      + " phone      CHAR(50)," + " notes      CHAR(200)"
    case Inventory =>
      " id        INTEGER PRIMARY KEY AUTOINCREMENT," + " instrument_id  INTEGER,"
      + " student_id  INTEGER," + " notes      CHAR(200)"
  }

  /** The table a unique index is declared on. */
  function IndexTable(ix: IndexName): Table {
    match ix
    case SerialNumber => Instruments
    case FirstLastDob => Students
  }

  /** The unique index a table may carry (the inventory table has none). */
  function IndexOn(t: Table): (ix: Option<IndexName>)
    ensures ix.Some? ==> IndexTable(ix.value) == t
    ensures t != Inventory ==> ix.Some?
  {
    match t
    case Instruments => Some(SerialNumber)
    case Students => Some(FirstLastDob)
    case Inventory => None
  }

  /** The natural-key columns of a row's non-id values: `serial_num` for an
      instrument, `(firstname, lastname, dob)` for a student. */
  function Key(t: Table, cols: Params): Params {
    match t
    case Instruments => if |cols| >= 2 then [cols[1]] else cols
    case Students => if |cols| >= 3 then cols[..3] else cols
    case Inventory => []
  }

  /** The statements the backend issues. The store acts on the structure;
      the text is what the executor inspects. */
  datatype Statement =
    | CreateTable(table: Table)
    | CreateUniqueIndex(index: IndexName)
    | SelectInstrumentId(serialNum: string)
    | SelectStudentId(firstname: string, lastname: string, dob: string)
    | SelectAll(table: Table)
    | InsertInto(table: Table, placeholders: nat)
    | ReplaceInto(table: Table, placeholders: nat)

  function IndexDefinition(ix: IndexName): string {
    match ix
    case SerialNumber => "serial_number on instruments(serial_num)"
    case FirstLastDob => "first_last_dob on students (firstname, lastname,dob)"
  }

  /** `?,?,…,?` with `n` marks. */
  function Marks(n: nat): string {
    if n == 0 then "" else if n == 1 then "?" else "?," + Marks(n - 1)
  }

  /** The leading keyword of the statement text. */
  function Verb(s: Statement): string {
    match s
    case CreateTable(_) => "CREATE TABLE"
    case CreateUniqueIndex(_) => "CREATE UNIQUE INDEX"
    case SelectInstrumentId(_) => "select"
    case SelectStudentId(_, _, _) => "select"
    case SelectAll(_) => "select"
    case InsertInto(_, _) => "INSERT"
    case ReplaceInto(_, _) => "REPLACE"
  }

  /** The statement text after its keyword. The natural-key values are
      spliced into the lookups between quotes, as the backend does. */
  function Body(s: Statement): string {
    match s
    case CreateTable(t) =>
      " IF NOT EXISTS " + TableName(t) + " (" + ColumnDefinitions(t) + ")"
    case CreateUniqueIndex(ix) => " " + IndexDefinition(ix)
    case SelectInstrumentId(serial) =>
      " id from instruments where serial_num='" + serial + "'"
    case SelectStudentId(first, last, dob) =>
      " id from students where firstname='" + first + "'"
      + " AND lastname='" + last + "'" + " AND dob='" + dob + "'"
    case SelectAll(t) => " * from " + TableName(t)
    case InsertInto(t, n) =>
      " into " + TableName(t) + " (" + Columns(t) + ") values (" + Marks(n) + ")"
    case ReplaceInto(t, n) =>
      " into " + TableName(t) + " (id, " + Columns(t) + ") values (" + Marks(n) + ")"
  }

  function StatementText(s: Statement): string {
    Verb(s) + Body(s)
  }

  /** Number of `?` parameters the statement binds. */
  function Placeholders(s: Statement): nat {
    match s
    case InsertInto(_, n) => n
    case ReplaceInto(_, n) => n
    case _ => 0
  }

  /** The table a statement works on. */
  function Target(s: Statement): Table {
    match s
    case CreateTable(t) => t
    case CreateUniqueIndex(ix) => IndexTable(ix)
    case SelectInstrumentId(_) => Instruments
    case SelectStudentId(_, _, _) => Students
    case SelectAll(t) => t
    case InsertInto(t, _) => t
    case ReplaceInto(t, _) => t
  }

  /** The statement reads rows out of a table. */
  predicate IsQuery(s: Statement) {
    s.SelectInstrumentId? || s.SelectStudentId? || s.SelectAll?
  }

  /** The executor's text test agrees with the statement's kind: exactly the
      three kinds of `select` pass it. */
  lemma TextIsSelectIffQuery(s: Statement)
    ensures IsSelect(StatementText(s)) <==> IsQuery(s)
  {
    if IsQuery(s) {
      assert Verb(s) == "select";
      assert StatementText(s)[..6] == Verb(s);
      SelectWord(StatementText(s));
    } else {
      assert Verb(s)[0] in "CIR";
      assert StatementText(s)[0] == Verb(s)[0];
      NotSelectByFirst(StatementText(s));
    }
  }
}
