# Music-school inventory backend, modelled in Dafny

This project models `BackendDb`, the data-access class of a small tracker for a music
school. The class stores students, instruments and inventory rows that assign an
instrument to a student, in an embedded SQLite file. It covers:

- the statement executor `execute_stmt`. It opens the file and runs one statement, or
  one statement per tuple of a batch. It commits, and it returns the fetched rows
  only when there is no batch and the text, left-stripped and upper-cased, starts
  with `SELECT`. Any store error ends the process;
- schema setup (`create_tables` and the three `create_*_table` methods): each table
  is created if it is absent. Instruments and students then get their unique index;
  inventory gets none;
- the upserts `add_or_update_instrument` and `add_or_update_student`. Each looks up
  the natural key (the serial number, or first name, last name and date of birth).
  It then REPLACEs the row with the id it found, or INSERTs a new row;
- `read_table` and the inventory writer `add_or_update_inventory`.

SQLite is replaced by an abstract store (module `Engine`):

- each table is a sequence of rows in ascending id order, plus the AUTOINCREMENT
  counter;
- the store also holds the set of created tables and the set of unique indexes;
- statements are a datatype (`Sql.Statement`). Each carries the text the backend
  builds for it, spacing included (`Sql.StatementText`), which is what the
  executor's SELECT test inspects;
- the store checks what SQLite checks, in the same order:
  - preparation first: missing table, existing index, values against columns;
  - then the parameter count;
  - then execution: unique-index conflicts on INSERT, and the delete-then-insert
    semantics of REPLACE;
  - `executemany` refuses a query (a read-only statement, here the SELECTs) and
    runs any other statement, a CREATE included, once per parameter tuple.

The Python object becomes two classes. `Backend.StoreFile` is the database file, with
the tables and indexes as fields. `Backend.BackendDb` holds the file and the debug
flag. `sys.exit(1)` becomes its `halted` field: every method requires that it is
false, because nothing runs after the process exits.

Module layout:

- `strings.dfy`: Python's `lstrip`, `upper` and `startswith` on ASCII;
- `sql.dfy`: values, tables, statements and their text;
- `engine.dfy`: the abstract store;
- `engine_facts.dfy`: lemmas about the store;
- `upsert.dfy`: what an upsert does;
- `schema.dfy`: the setup script;
- `inventory.dfy`: the inventory writer;
- `backend.dfy`: the classes.

Two facts about the code shape the model:

- `create_tables` is not idempotent. `CREATE TABLE IF NOT EXISTS` is, but the
  `CREATE UNIQUE INDEX` statements at backend.py:107 and :131 have no guard. A
  second construction on the same file therefore halts (`Schema.SetupAgainHalts`).
- `add_or_update_inventory` never appends a row (see Findings).

## Model

| member | source | states |
|---|---|---|
| Strings.LStrip | backend.py:63 | the result is a suffix of the text; every character dropped is whitespace; the result is empty or starts with a non-blank character |
| Strings.Upper | backend.py:63 | same length; each character is upper-cased on its own (ASCII letters move by 32, everything else is kept) |
| Strings.IsSelect | backend.py:63 | definition: `stmt.lstrip().upper().startswith("SELECT")` as the composition of `LStrip`, `Upper` and `StartsWith` |
| Strings.IsSelectIff | backend.py:63 | the test `lstrip().upper().startswith("SELECT")` holds iff a run of leading whitespace is followed by the six letters of SELECT, in any case |
| Strings.NotSelectByFirst | backend.py:63 | a text whose first character is not blank and does not upper-case to `S` fails the SELECT test |
| Strings.SelectWord | backend.py:141 | a text that begins with the lower-case word `select` passes the SELECT test, whatever follows |
| Sql.Key | backend.py:141 | definition: the natural-key columns of a row's values: `serial_num` for instruments (the lookup at 141), `(firstname, lastname, dob)` for students (the lookup at 161-163), nothing for inventory |
| Sql.Verb | backend.py:83-211 | definition: the leading keyword of each statement the backend builds: `CREATE TABLE`, `CREATE UNIQUE INDEX`, lower-case `select`, `INSERT`, `REPLACE` |
| Sql.Body | backend.py:83-211 | definition: the rest of each statement's text as the backend builds it: the CREATE TABLE column lists with their padding (83-88, 95-101, 114-125), the index definitions (107, 131), the lookups with the key values spliced between quotes (141, 161-163), `select * from` (192), and the INSERT/REPLACE column lists with one `?` per placeholder (146, 149, 169-174, 210) |
| Sql.StatementText | backend.py:83-211 | definition: the statement's full text, keyword followed by body |
| Sql.TextIsSelectIffQuery | backend.py:61-64 | the text of every statement the backend issues passes the SELECT test exactly when it is one of the three `select` lookups |
| Sql.IndexOn | backend.py:104-108 | instruments and students each carry a unique index declared on that same table; inventory carries none |
| Engine.FindKey | backend.py:141 | the first row whose natural key equals the given key, or none when no row has it |
| Engine.IdsWithKey | backend.py:161-164 | the lookup yields no rows iff no row has the key; otherwise its first row is the one-column tuple holding the id of the first matching row |
| Engine.Tuples | backend.py:192-193 | `select *` yields one tuple per row, in row order: the id followed by the row's values |
| Engine.InsertPos | backend.py:146 | the position where REPLACE inserts its row: every earlier id is smaller and the next id is not smaller |
| Engine.ExecuteMany | backend.py:57-59 | the loop over the batch equals `RunMany`: prepare errors first, then a query is refused, then each tuple runs in turn, stopping at the first error |
| EngineFacts.StepKeepsWellFormed | backend.py:104-108 | every statement that succeeds keeps the store well formed: row arity, ids ascending and at most the counter, and no two rows sharing a natural key under a unique index |
| EngineFacts.RunManyKeepsWellFormed | backend.py:57-59 | a batch that succeeds keeps the store well formed |
| EngineFacts.QueryLeavesStore | backend.py:61-64 | only queries yield rows, and a query leaves the store unchanged |
| EngineFacts.ReplaceAtMatch | backend.py:144-146 | a REPLACE carrying row i's id and natural key rewrites row i in place: same id, new values, other rows and counter untouched |
| EngineFacts.InsertFresh | backend.py:147-149 | an INSERT whose key is absent appends one row with id counter+1 and advances the counter |
| EngineFacts.ReadBackAscending | backend.py:192-193 | `select *` returns the rows in strictly ascending id order |
| EngineFacts.CreateTableIdempotent | backend.py:95 | `CREATE TABLE IF NOT EXISTS` always succeeds; running it a second time changes nothing |
| EngineFacts.CreateIndexTwiceFails | backend.py:107 | after `CREATE UNIQUE INDEX` succeeds, the same statement fails because the index exists |
| EngineFacts.SingleBatchIsStep | backend.py:151 | a batch holding one tuple runs any statement that is not a query exactly once |
| Upsert.InstrumentValues | backend.py:139 | four values whose natural key is the serial number |
| Upsert.StudentValues | backend.py:159 | nine values whose natural key is (first name, last name, date of birth) |
| Upsert.UpsertUpdates | backend.py:142-146 | upserting an existing key keeps the row count, the row's id and every other row, rewrites that row's values, and leaves the counter unchanged |
| Upsert.UpsertInserts | backend.py:147-149 | upserting a new key appends exactly one row with id counter+1, greater than every id present; earlier rows are unchanged |
| Upsert.UpsertKeepsTableOk | backend.py:104-106 | an upsert keeps ids ascending and natural keys unique |
| Upsert.UpsertIdempotent | backend.py:134-138 | upserting the same values twice equals upserting them once |
| Upsert.CheckThenActIsUpsert | backend.py:141-151 | under the unique index, REPLACE with the first id found (lookup non-empty) or INSERT (lookup empty) succeeds and yields exactly the upsert; it never hits the unique constraint |
| Upsert.StudentSessionFromTests | tests/test_backend.py:48-180 | two new students read back as ids 1 and 2 with their values; re-upserting the second with a new note changes only that note |
| Upsert.InstrumentSessionFromTests | tests/test_backend.py:109-196 | two new instruments read back as ids 1 and 2; re-upserting the trumpet's serial number changes only its note |
| Schema.InstrumentTableScript | backend.py:91-108 | definition: CREATE TABLE instruments, then CREATE UNIQUE INDEX serial_number |
| Schema.StudentTableScript | backend.py:110-132 | definition: CREATE TABLE students, then CREATE UNIQUE INDEX first_last_dob |
| Schema.InventoryTableScript | backend.py:78-89 | definition: CREATE TABLE inventory only |
| Schema.SchemaScript | backend.py:178-184 | definition: the instrument script, then the student script, then the inventory script |
| Schema.RunScript | backend.py:49-73 | definition: statements run one at a time, each committed on success; the first failure stops the run with the file as last committed and the halted flag set |
| Schema.RunScriptAppend | backend.py:178-184 | running two scripts in sequence equals running their concatenation; a halt in the first skips the second |
| Schema.RunScriptKeepsWellFormed | backend.py:178-184 | schema setup keeps the store well formed |
| Schema.FreshFileGetsSchema | backend.py:31-37 | on a new file, setup succeeds with three empty tables and both unique indexes |
| Schema.SetupAgainHalts | backend.py:107 | on a file whose schema is in place, setup halts at the first unique index and leaves the file unchanged |
| Schema.SetupReachesSchema | backend.py:178-184 | when setup does not halt, all three tables and both indexes exist |
| Inventory.InventoryInsertAsWritten | backend.py:210 | definition: INSERT into inventory with five placeholders for its three columns |
| Inventory.FlatBatch | backend.py:207-211 | definition: the three values passed as the batch itself, so each is read as its own parameter set (wrapped here as a one-value tuple; see `AsWrittenNeverRuns` for why the shape does not matter) |
| Inventory.AssignmentValues | backend.py:207 | one value per inventory column |
| Inventory.AsWrittenNeverRuns | backend.py:207-211 | the inventory INSERT as written always fails, for every batch: 5 values for 3 columns when the table exists, no such table otherwise; a single execution fails too, whatever parameter tuple is bound, because the failure comes from preparing the statement |
| Inventory.AssignmentAppends | backend.py:202-206 | the intended INSERT with one tuple appends one row with the next id |
| Inventory.AssignmentsNotDeduplicated | backend.py:202-206 | assigning the same pair twice gives two rows with equal values and distinct ids |
| Backend.StoreFile.constructor | backend.py:53 | a file that does not exist yet opens as an empty store |
| Backend.StoreFile.Commit | backend.py:59 | after a commit, the file holds the connection's store |
| Backend.Batched | backend.py:57 | definition: Python's truth value of `many`: a batch is used only when one is given and it is not empty |
| Backend.Execution | backend.py:56-62 | definition: `executemany` over the batch when `Batched`, otherwise one `execute` with no parameters |
| Backend.ReturnsRowsIff | backend.py:57-64 | the executor returns rows iff no non-empty batch is given and the statement is a query |
| Backend.ExecutionKeepsWellFormed | backend.py:56-65 | a successful execution, batched or not, keeps the store well formed |
| Backend.UpsertPlan | backend.py:141-151 | given the lookup's rows, the write the upsert chooses (REPLACE with the first id found, or INSERT), run as a one-tuple batch, succeeds, yields the upsert and keeps the schema |
| Backend.BackendDb.constructor | backend.py:31-37 | construction runs the schema script on the file: the new file contents and the halted flag are that script's outcome; the object is valid |
| Backend.BackendDb.ExecuteStmt | backend.py:40-76 | the loop body runs exactly once. Halts iff the execution fails; on failure the file is unchanged and nothing is returned; on success the file holds the new store, and rows are returned iff no non-empty batch is given and the statement is a query (the SELECT text test agrees, by `ReturnsRowsIff`) |
| Backend.BackendDb.RunStatements | backend.py:102-108 | runs statements in order, each committed; the outcome equals `RunScript` |
| Backend.BackendDb.CreateInstrumentTable | backend.py:91-108 | the instruments table, then its unique index on the serial number |
| Backend.BackendDb.CreateStudentTable | backend.py:110-132 | the students table, then its unique index on (first name, last name, date of birth) |
| Backend.BackendDb.CreateInventoryTable | backend.py:78-89 | the inventory table, with no index |
| Backend.BackendDb.CreateTables | backend.py:178-184 | instruments, then students, then inventory; a halt stops the rest; the outcome equals the whole schema script |
| Backend.BackendDb.AddOrUpdateInstrument | backend.py:134-151 | never halts; the file becomes the upsert of the instrument by serial number; validity is kept |
| Backend.BackendDb.AddOrUpdateStudent | backend.py:153-176 | never halts; the file becomes the upsert of the student by (first name, last name, date of birth); validity is kept |
| Backend.BackendDb.ReadTable | backend.py:186-200 | returns every row of the table as tuples in ascending id order; the file is unchanged |
| Backend.BackendDb.AddOrUpdateInventory | backend.py:202-211 | as written, every call halts and leaves the file unchanged |
| Backend.BackendDb.AddAssignment | backend.py:202-207 | as intended, appends one assignment row with the next id and does not halt |

## Left out

- SQLite itself: SQL parsing, query planning, storage format and transactions. The model commits all of a call or nothing of it, which is what Python's sqlite3 does for a single statement and for a batch of INSERTs or REPLACEs (it opens a transaction before each of those). Statements are a datatype and each carries its text.
- Quoting and injection: the lookups splice key values into the SQL text. The model treats them as equality on the key, so a key containing `'` is not modelled.
- Column affinity: `dob` is declared `DATETIME`, which has numeric affinity. Values are stored as given (`Int` or `Text`), and NULL is not modelled.
- Table names: `read_table` takes a string. The model takes one of the three tables, so an unknown name (which halts on "no such table") is not modelled.
- Only ASCII is modelled for `lstrip` and `upper`. Non-ASCII whitespace and case mappings are left out.
- The repair step on "database is locked" runs shell commands, and it is followed by the same exit. It is left out: the error simply halts.
- Logging, the debug flag's output and `conn.close()` are left out, as I/O.
- Concurrency: other processes writing the same file, and the lock itself, are left out.
- `sys.exit(1)` ends the whole process. The model records it on the one `BackendDb` object that failed.
- Backend.BackendDb.ExecuteStmt: a failed call is stated to leave the file unchanged. For a batched CREATE that is weaker than the source: Python's sqlite3 opens no transaction for a CREATE, so each run that succeeds before the failing tuple is committed at once and stays in the file after the exit (e.g. a CREATE TABLE batched with `[(), (1,)]` leaves the table). The backend never batches a CREATE, so none of its operations is affected.
- Backend.BackendDb.ExecuteStmt: the retry counter's effect is stated through a ghost `attempts` count, which is always 1. The loop never retries a failed statement, because the failure exits first.
- The AUTOINCREMENT counter's 2^63 limit and SQLite's "database full" error are left out. Ids are unbounded integers.
- Engine.RunMany: the refusal of a batched query follows Python 3.11 and later, where `executemany` refuses every read-only statement before it runs. Python 3.6 to 3.10 raise only when a step returns a row, so a batched SELECT that matches nothing is not refused there. The backend never batches a SELECT, so none of its operations depends on the difference.
- Engine.RunMany: a batch of more than one tuple is modelled, and it is proved to keep the store well formed. Its effect is spelled out only for one tuple (`EngineFacts.SingleBatchIsStep`), the only size the backend uses.
- Upsert.UpsertInserts: the new id is stated as counter+1. SQLite takes the larger of the counter and the largest id present. The two agree because every id is at most the counter, an invariant the store keeps (`EngineFacts.StepKeepsWellFormed`).
- `utils.py` (a shell-command helper) and the test harness are not part of this model. The tests' scenarios are stated as lemmas.

## Findings

| source | as written | input that shows it | evidently intended | confidence | as-written member | corrected member |
|---|---|---|---|---|---|---|
| backend.py:207-211 | the INSERT has five `?` for three columns, and the three values are passed as a flat batch, so each value would be read as its own parameter set (a bare number is not one; the model wraps each as a one-value tuple, which does not change the outcome). SQLite refuses to prepare the statement before any parameter set is read, and the process exits | any call, e.g. `add_or_update_inventory(1, 1, "")` | one `?` per column, with the values bound as one tuple, appending one assignment row | high; not executed | Inventory.AsWrittenNeverRuns, Backend.BackendDb.AddOrUpdateInventory | Inventory.AssignmentAppends, Backend.BackendDb.AddAssignment |
