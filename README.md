# sqlite_tools, modelled in Dafny

sqlite_tools is a header-only C++ library that maps plain structs onto SQLite
tables. A table is declared once, as a list of column descriptors. Each
descriptor gives a column name, a member of the struct, flags (PRIMARY_KEY,
DEFAULT, NOT_NULL) and an optional default value. From that list the library
generates the SQL text for CREATE TABLE, DROP TABLE, INSERT and SELECT. It also
binds each member to the parameters of a prepared statement, and reads result
rows back into the struct: by position for `selectAll`, by column name for a
custom `select`, and one column at a time for `select(member)`.

This project models that core as follows.

- **Descriptors** are values. A column is a `Schema.Column`. A record is the
  sequence of its fields. A member pointer is the slot of the field plus its
  declared type.
- **Statement builders** accumulate into a string in the source. Here they are
  methods with loops, each proved equal to a function that states the finished
  text.
- **Value marshalling** (binder and assigners) is a set of functions on a closed
  datatype of field types.
- **SQLite** is an abstract engine, `Engine.EngineState`, handled through the
  class `Engine.Connection`. Its status codes and result rows are scripted, and
  it records every SQL text it was given and the parameters of every statement
  that ran to DONE.
- **Driving operations** are methods on a `Connection`: `insert`, the three
  selects, `update`, `createTableIfNotExists`, `dropTableIfExists`,
  `createAllTables` and `dropAllTables`. Each is proved equal to a function that
  says, call by call, what it asks of the engine. Lemmas then state what the
  operation achieves.

Modules, one file each:

| file | module | models |
|---|---|---|
| text.dfy | Text | string joins and splits, `std::to_string` of an int, C-string truncation |
| flags.dfy | ColumnFlags | the `Flags` byte and `flagSet` |
| nullable.dfy | Nullables | `SQLT::Nullable<T>` and its `operator==` |
| schema.dfy | Schema | types, column, table and database descriptors, `makeColumnInfo`, counts, lookups, `dbFilePath` |
| ddl.dfy | Ddl | `DATATYPE()`, `defaultValueString`, the primary-key clause, the CREATE / DROP / INSERT / SELECT texts |
| engine.dfy | Engine | the abstract engine and `Connection` |
| marshal.dfy | Marshal | `SQLiteValueBinder`, `SQLiteMemberAssigner`, `SQLiteValueAssigner`, `SQLiteColumnTraverser` |
| orchestration.dfy | Orchestration | the driving operations listed above |
| fixtures.dfy | Fixtures | the tables of the library's own test programs, and what those programs expect of them |

Where the code and its comments disagree, the model follows the code:

- The DDL comments in tests/all-types.cpp (lines 110-125) are not the
  generator's output. The key is emitted as a separate `PRIMARY KEY(...)`
  clause. `enabled4`, a `Nullable<bool>`, gets `INTEGER DEFAULT 1`, not
  `NOT NULL`. `Fixtures.AllTypesNullableDefaultDdl` states the generated text.
- The doc comment of `insert` promises an SQLite status. When a bind fails, the
  code returns that status without finalizing the statement. See Findings.

## Model

| member | source | states |
|---|---|---|
| ColumnFlags.OrSetsFlag | include/sqlite_tools.h:171-199 | a flag is set in `f \| g` exactly when it is set in f or in g |
| Nullables.Null | include/sqlite_tools.h:238-240 | the default constructor gives a null Nullable |
| Nullables.Present | include/sqlite_tools.h:242-245 | the value constructor gives a present Nullable holding that value |
| Nullables.AgreeImpliesEqual | include/sqlite_tools.h:252-255 | two Nullables that agree (same marker, same value when present) are `==` |
| Nullables.EqualIgnoresMarkerWhenValuesMatch | include/sqlite_tools.h:252-255 | a null and a present Nullable with the same stored value compare equal, though they do not agree |
| Nullables.EqualNotTransitive | include/sqlite_tools.h:289-292 | `==` is not transitive: two nulls with different values link two different present values |
| Text.JoinSnoc | include/sqlite_tools.h:877-929 | a comma list built item by item is the join of the items |
| Text.SplitJoin | include/sqlite_tools.h:932-938 | splitting a joined list of comma-free names at ',' gives the names back |
| Text.PlaceholderList | include/sqlite_tools.h:887-891 | the `?` list for n columns holds exactly n question marks and is 2n-1 characters long |
| Text.IntRoundTrip | include/sqlite_tools.h:483 | the decimal text of an int reads back as the same int |
| Text.CString | include/sqlite_tools.h:1097-1103 | a string made from a C string is the longest prefix without NUL; a cut happens only at a NUL |
| Text.CStringOfPlainText | include/sqlite_tools.h:1097-1103 | text without NUL passes through unchanged |
| Schema.MakeColumn | include/sqlite_tools.h:603-630 | makeColumnInfo without a default: NOT_NULL is set iff the type is not Nullable or the caller passed it; PRIMARY_KEY and DEFAULT as the caller passed them |
| Schema.MakeColumnWithDefault | include/sqlite_tools.h:610-642 | the same for a column with a default; DEFAULT-flag consistency holds iff the caller passed DEFAULT |
| Schema.PrimaryKeyNamesAppend | include/sqlite_tools.h:769-795 | the key names of a concatenation are the key names of each part, in order |
| Schema.PrimaryKeyCount | include/sqlite_tools.h:769-795 | primaryKeyCount, summed from the last column down, is the number of key columns and at most the column count |
| Schema.ColumnCount | include/sqlite_tools.h:966-971 | columnCount equals the number of columns |
| Schema.ColumnNames | include/sqlite_tools.h:879-912 | the names in declaration order, one per column |
| Schema.GetColumnName | include/sqlite_tools.h:644-736 | the name of the first column whose member matches, or "" when none does; always "" for a bool member, which has no comparer |
| Schema.GetColumnInfoPosition | include/sqlite_tools.h:738-767 | scanning from the last column: a found position holds that name and no later column does; (size_t)-1 iff no column has the name |
| Schema.DbFilePath | include/sqlite_tools.h:1953-1956 | the override path when it is non-empty, else path followed by name |
| Ddl.SqlType | include/sqlite_tools.h:298-315 | int and bool give INTEGER, double gives REAL, string gives TEXT, each in both directions |
| Ddl.DefaultLiteral | include/sqlite_tools.h:483-590 | defaultValueString: an int's text parses back to the int; a string is wrapped in double quotes; a bool is "1" iff true and "0" iff false |
| Ddl.LiteralRoundTrip | include/sqlite_tools.h:483-590 | every int, text and bool default literal reads back as the same value (text in double quotes, bool as 1/0) |
| Ddl.ColumnDdl | include/sqlite_tools.h:320-339 | a declaration starts with the column name and a space |
| Ddl.SqlTypeRoundTrip | include/sqlite_tools.h:320-339 | the type keyword is recovered from the front of what follows the name |
| Ddl.ModifiersRoundTrip | include/sqlite_tools.h:320-339 | " NOT NULL" and " DEFAULT lit" are recovered from what follows the type |
| Ddl.DeclRoundTrip | include/sqlite_tools.h:320-339 | a declaration assembled from name, type and modifiers parses back into those parts |
| Ddl.ColumnDdlRoundTrip | include/sqlite_tools.h:316-339 | DATATYPE() of a column parses back to its name, SQL type, NOT NULL flag and default literal |
| Ddl.ColumnDdls | include/sqlite_tools.h:847-875 | one declaration per column, in order |
| Ddl.BuildTableContents | include/sqlite_tools.h:847-875 | createTableContents is the comma join of the declarations |
| Ddl.BuildColumnNameList | include/sqlite_tools.h:877-938 | the column-name list is the comma join of the names |
| Ddl.BuildQuestionMarkList | include/sqlite_tools.h:886-947 | the `?` list is the comma join of one `?` per column |
| Ddl.BuildPrimaryKeyStatement | include/sqlite_tools.h:797-845 | createPrimaryKeyStatement is "" without keys, else `PRIMARY KEY(` + key names comma-joined in declaration order + `)`, with the last column written without a test |
| Ddl.CreateTableBody | include/sqlite_tools.h:1398-1410 | the CREATE body is the join of the declarations, followed by the key clause iff some column is a key |
| Ddl.PrimaryKeyCountPositive | include/sqlite_tools.h:769-795 | the key count is positive iff some column has the PRIMARY_KEY bit |
| Ddl.BuildCreateTableStatement | include/sqlite_tools.h:1398-1410 | the statement is `CREATE TABLE IF NOT EXISTS ` + name + `(` + body + `);` |
| Ddl.DropTableText | include/sqlite_tools.h:1425-1429 | `DROP TABLE IF EXISTS ` + name + `;`, with the name recoverable from it |
| Ddl.BuildInsertStatement | include/sqlite_tools.h:950-964 | createInsertPreparedStatement equals the INSERT text over the name list and the `?` list |
| Ddl.InsertPlaceholders | include/sqlite_tools.h:950-964 | the INSERT text holds exactly one `?` per column when no name contains one |
| Ddl.InsertColumnList | include/sqlite_tools.h:932-938 | the column list of the INSERT splits back into the column names |
| Engine.ColumnType | include/sqlite_tools.h:1120-1122 | sqlite3_column_type reports NULL exactly for a NULL cell |
| Engine.Wrap32 | include/sqlite_tools.h:1083 | sqlite3_column_int keeps an int that fits, and the low 32 bits otherwise |
| Engine.ColumnText | include/sqlite_tools.h:1101 | sqlite3_column_text is the NULL pointer exactly for a NULL cell |
| Engine.Prepare | include/sqlite_tools.h:1450 | prepare logs the SQL and leaves a live statement iff it answers OK |
| Engine.Bind | include/sqlite_tools.h:1300-1305 | a successful bind sets that parameter; a failed one changes no parameter |
| Engine.Reset | include/sqlite_tools.h:1456 | sqlite3_reset keeps the bindings, the completed runs and the script |
| Engine.Step | include/sqlite_tools.h:1462 | a step consumes one scripted outcome: ROW exposes a row, DONE records the bound parameters, an exhausted script answers DONE |
| Engine.Finalize | include/sqlite_tools.h:1470 | finalize leaves no live statement; on a never-prepared statement it is a no-op answering OK |
| Engine.Exec | include/sqlite_tools.h:1410 | exec logs the SQL and answers the next scripted code, OK once the script is exhausted |
| Engine.Close | include/sqlite_tools.h:1675 | sqlite3_close marks the connection closed and counts one more close call |
| Engine.Connection.PrepareV2 | include/sqlite_tools.h:1450 | the connection's new state and code are those of Prepare |
| Engine.Connection.BindCell | include/sqlite_tools.h:1010-1058 | the connection's new state and code are those of Bind |
| Engine.Connection.ResetStatement | include/sqlite_tools.h:1456 | the connection's new state is that of Reset |
| Engine.Connection.StepStatement | include/sqlite_tools.h:1462 | the connection's new state and code are those of Step |
| Engine.Connection.FinalizeStatement | include/sqlite_tools.h:1470 | the connection's new state and code are those of Finalize |
| Engine.Connection.ExecSql | include/sqlite_tools.h:1410 | the connection's new state and code are those of Exec |
| Engine.Connection.CloseConnection | include/sqlite_tools.h:1675 | the connection's new state is that of Close |
| Marshal.BindValue | include/sqlite_tools.h:974-1067 | a null Nullable binds NULL and nothing else does; a present Nullable binds its value as the plain type would; a bool, plain or inside a Nullable, binds 1 or 0 |
| Marshal.ReadScalar | include/sqlite_tools.h:1079-1114 | a non-NULL read produces a value of the field's type |
| Marshal.AssignMember | include/sqlite_tools.h:1070-1203 | a NULL into a Nullable sets only its marker and keeps its value; a non-NULL clears the marker; a bool reads int != 0 |
| Marshal.AssignValue | include/sqlite_tools.h:1205-1295 | assignValue: a plain int, double or string is read directly from a non-NULL cell; a Nullable's marker is set iff the cell is NULL, its value kept on NULL and read otherwise; and this agrees with the member assigner on every cell both accept |
| Marshal.ScalarRoundTrip | include/sqlite_tools.h:974-1114 | a value without NUL bound and read back is the same value |
| Marshal.BindAssignRoundTrip | include/sqlite_tools.h:974-1203 | a field bound and read back into any field of its type is observed unchanged: marker, and value when present |
| Marshal.TextWithNulIsCut | include/sqlite_tools.h:1097-1103 | any text with a NUL is bound whole and read back cut before its first NUL, so it comes back strictly shorter |
| Marshal.BindFromOutcome | include/sqlite_tools.h:1298-1332 | iterateAndBindValues succeeds iff every bind does, and then has bound column i at position i+1 |
| Marshal.BoundFromValues | include/sqlite_tools.h:1298-1332 | position p holds the binding of column p-1; other parameters are untouched |
| Marshal.BindFromFirstRefusal | include/sqlite_tools.h:1298-1306 | when a bind is refused, iterateAndBindValues returns that bind's own status and has bound exactly the columns before it |
| Marshal.BoundUpToAll | include/sqlite_tools.h:1298-1332 | binding up to the last column is the full binding |
| Marshal.AssignFrom | include/sqlite_tools.h:1308-1336 | ordinal assignment keeps the record's shape and types |
| Marshal.AssignFromFields | include/sqlite_tools.h:1308-1336 | each mapped field is read from result column of its own index; unmapped fields are unchanged |
| Marshal.BoundRow | include/sqlite_tools.h:1298-1332 | the row the engine returns for a bound record, one column per declared column |
| Marshal.RecordRoundTrip | include/sqlite_tools.h:1298-1336 | a record inserted and read back by position is observed unchanged in every mapped field |
| Marshal.ColNameEqualsIsEquality | include/sqlite_tools.h:214-217 | ColName `==` (same length, same bytes) is string equality |
| Marshal.PrefixIsNotAMatch | include/sqlite_tools.h:214-217 | `portions` and `portions_unit` do not match, in either order |
| Marshal.FirstNamed | include/sqlite_tools.h:1314-1348 | the by-name scan finds the first declared column of that name |
| Marshal.AssignByNameOutcome | include/sqlite_tools.h:1314-1348 | by-name assignment answers true iff a declared column has the name, and then sets that column's field from the result column; otherwise the record is unchanged |
| Marshal.AssignRowByName | include/sqlite_tools.h:1586-1590 | assigning a result row by name keeps the record's shape and types |
| Marshal.AssignRowByNameKeeps | include/sqlite_tools.h:1575-1590 | a field that no result column names keeps its previous value (the record is reused across rows), also when result columns repeat a name |
| Marshal.AssignRowByNameFields | include/sqlite_tools.h:1586-1590 | each declared column named by a result column is set from that column, whatever the order of either side |
| Orchestration.CreateTableIfNotExists | include/sqlite_tools.h:1398-1411 | executes exactly the CREATE text and returns exec's status |
| Orchestration.DropTableIfExists | include/sqlite_tools.h:1425-1429 | executes exactly the DROP text and returns exec's status |
| Engine.FirstFailure | include/sqlite_tools.h:1300-1305 | the index of the first failing status of a run of calls that stops at the first failure: the earlier statuses are OK |
| Orchestration.ExecAllStopsAtFailure | include/sqlite_tools.h:1968-2006 | the table traverser returns the first failing status, having executed the statements up to and including it and no more |
| Orchestration.ExecAllRunsAll | include/sqlite_tools.h:1968-2006 | when no status fails, every statement is executed in order and OK is returned |
| Orchestration.CreateAllTables | include/sqlite_tools.h:2140-2145 | createAllTables runs the CREATE texts of the tables in order, stopping at the first failure |
| Orchestration.DropAllTables | include/sqlite_tools.h:2191-2196 | dropAllTables runs the DROP texts of the tables in order, stopping at the first failure |
| Orchestration.BindValues | include/sqlite_tools.h:1298-1356 | binding a record on the connection does what BindFrom states |
| Orchestration.Insert | include/sqlite_tools.h:1444-1471 | insert prepares once, then resets, binds and steps each row, as InsertSpec states call by call |
| Orchestration.RowsParams | include/sqlite_tools.h:1454-1467 | one parameter map per inserted row |
| Orchestration.InsertRowsPrefix | include/sqlite_tools.h:1454-1467 | insert stops at the first failure: what was recorded is exactly the rows before it, each with its own values; OK means all rows, and a loop that stopped early is not OK |
| Orchestration.InsertRowsContinue | include/sqlite_tools.h:1454-1467 | a row that binds and steps to DONE is recorded with its own values, and the loop goes on with the next row |
| Orchestration.InsertRowsStop | include/sqlite_tools.h:1456-1466 | a row whose bind fails or whose step is not DONE ends insert with that bind's or that step's own status, recording nothing more |
| Orchestration.InsertRowsHealthy | include/sqlite_tools.h:1454-1470 | on an engine that accepts every call, insert records every row in order and answers OK |
| Orchestration.InsertLeaksOnBindFailure | include/sqlite_tools.h:1457-1459 | as written, a bind failure returns its status with the statement still live |
| Orchestration.InsertRowsReleasingFinalizes | include/sqlite_tools.h:1454-1470 | the corrected loop never leaves a live statement, and returns the same status and records the same rows |
| Orchestration.AssignMembers | include/sqlite_tools.h:1308-1363 | reading the current row by position on the connection gives AssignFrom |
| Orchestration.SelectAll | include/sqlite_tools.h:1666-1704 | selectAll as SelectAllSpec states: a failed prepare closes the connection; then one positional read per ROW |
| Orchestration.LeadingRows | include/sqlite_tools.h:1683-1700 | the ROW steps before the first other outcome |
| Orchestration.ReadsByPosition | include/sqlite_tools.h:1682-1690 | one record per result row, each read into the record the previous row left |
| Orchestration.RowsOf | include/sqlite_tools.h:1683-1690 | the result rows of the leading ROW steps, in engine order |
| Orchestration.SelectAllLoopOutcome | include/sqlite_tools.h:1682-1703 | selectAll appends one record per leading ROW, in order; releases the statement; returns a failing step's status; OK only after DONE |
| Orchestration.SelectAllLoopKeepsOpen | include/sqlite_tools.h:1682-1703 | selectAll's row loop never closes the connection |
| Orchestration.SelectAllClosesTwice | include/sqlite_tools.h:1672-1677 | as written, when the prepare fails, selectAll and then the overload that owns the handle (1735-1739) each close it: two closes, and the prepare's status |
| Orchestration.SelectAllClosesOnce | include/sqlite_tools.h:1721-1742 | corrected, the owning overload closes the handle exactly once on every path, with the same status and rows |
| Orchestration.AssignByColumnName | include/sqlite_tools.h:1314-1370 | the by-name scan on the connection returns what AssignByNameFrom states |
| Orchestration.AssignRowByColumnNames | include/sqlite_tools.h:1586-1590 | the column loop over the current row gives AssignRowByName |
| Orchestration.Select | include/sqlite_tools.h:1562-1607 | the custom select as SelectSpec states: a ROW without columns is skipped, any other is read by name into the reused record |
| Orchestration.ReadsByName | include/sqlite_tools.h:1578-1593 | at most one record per result row, exactly one when no row is empty |
| Orchestration.SelectLoopOutcome | include/sqlite_tools.h:1575-1606 | the custom select appends the by-name reads of the leading ROWs, releases the statement, returns a failing step's status, and is OK only after DONE |
| Orchestration.SelectColumn | include/sqlite_tools.h:1762-1810 | select(member) as SelectColumnSpec states |
| Orchestration.ReadsFirstColumn | include/sqlite_tools.h:1780-1788 | one value per result row, read from its first column |
| Orchestration.SelectColumnLoopOutcome | include/sqlite_tools.h:1780-1806 | select(member) appends the first column of each leading ROW, releases the statement, returns a failing step's status, OK only after DONE |
| Orchestration.SelectColumnOfBool | include/sqlite_tools.h:1765-1771 | a bool member gives SQLITE_ERROR with the engine and output untouched |
| Orchestration.SelectColumnHidesPrepareFailure | include/sqlite_tools.h:1777-1804 | as written, a failed prepare is reported as OK with nothing selected |
| Orchestration.SelectColumnCheckedOk | include/sqlite_tools.h:1744-1810 | the corrected select(member) answers OK only when the member has a column, the prepare succeeded and DONE was reached; it leaves no statement live |
| Orchestration.Update | include/sqlite_tools.h:1861-1879 | update prepares, steps once and finalizes, as UpdateSpec states |
| Orchestration.UpdateOutcome | include/sqlite_tools.h:1861-1879 | update logs the query; OK means one completed run; a failing step's status is returned with nothing recorded; a prepared statement is always released |
| Fixtures.AllTypesShape | tests/all-types.cpp:109-133 | AllTypes has the keys id, id2, id3, id4 (count 4), the name "AllTypes", 16 columns, and every column is DEFAULT-consistent |
| Fixtures.AllTypesPlainDdl | tests/all-types.cpp:110-113 | the plain columns are declared NOT NULL |
| Fixtures.AllTypesDefaultDdl | tests/all-types.cpp:114-117 | the defaulted columns are NOT NULL with their literals: 123, the double's text, "second" in quotes, 0 |
| Fixtures.AllTypesNullableDdl | tests/all-types.cpp:118-121 | the Nullable columns carry no NOT NULL |
| Fixtures.AllTypesNullableDefaultDdl | tests/all-types.cpp:122-125 | the Nullable defaulted columns carry a DEFAULT and no NOT NULL, enabled4 included |
| Fixtures.RecipesDeclarations | tests/recipes-db.h:28-36 | recipes has the key clause PRIMARY KEY(id); portions_unit is TEXT NOT NULL, description TEXT, favorite INTEGER DEFAULT 0 |
| Fixtures.AllergensRow | tests/insert-select.cpp:378-383 | the query's result row has distinct column names, each readable into AllergensInRecipe |
| Fixtures.AllergensInRecipeByName | tests/recipes-db.h:162-178 | a result row in query order lands in the members of the same names, although they are declared in another order |

## Left out

- Real SQLite. The engine is scripted; SQL is not parsed or executed, so the model does not know what a SELECT returns for an earlier INSERT.
- The engine's own conversions between storage classes, for example sqlite3_column_int of a TEXT cell. They are parameters (`Engine.Conversions`).
- `std::to_string(double)`. It is a parameter `realText`, and doubles are opaque bit patterns.
- Floating-point comparison in the tests (tests/assert.h).
- The wrappers that open and close a connection around each call, and open / close / begin / commit / rollback. They are resource plumbing. The selectAll wrapper is modelled from its successful sqlite3_open on, to show the double close.
- The status of sqlite3_close is not modelled. Close always succeeds in the model, so a wrapper's final `return sqlite3_close(db)` is taken to be OK.
- The compile-time tuple machinery, the member-pointer templates and the `SQLT_*` macros. Descriptor sequences and field slots replace them.
- The JSON TypeHandler integration. It belongs to another library.
- The 1e6-row performance test and the JSON parts of the tests.
- `approximate_row_count` and `reserve`. They change capacity only.
- The `errMsg` out-parameter of exec. It has no effect on the status.
- `ColumnTraverser::insert` (include/sqlite_tools.h:893-898). It is never called and builds the same text as createTableContents.
- C++ `assert`s and undefined behaviour become preconditions:
  - `Marshal.Readable` and `Marshal.ValueReadable` cover a Nullable's storage-class check and the NULL text pointer turned into a std::string.
  - The generic assigners' `assert(false)` for bool in `SQLiteValueAssigner` means `select(member)` of a bool is never reached: `getColumnName` already yields "".
- The static_asserts of `hasDefaultValue` (include/sqlite_tools.h:319, 331) are never instantiated by the library. They are the predicate `Schema.DefaultConsistent`, proved for the test tables and not enforced by the constructors.
- An indeterminate default-constructed record is not modelled. The caller supplies the initial record (`init`).
- Schema.DbFilePath: its contract restates the source's one expression, because nothing else is promised about it.
- Ddl.ColumnDdl: its own contract states only the name prefix; the full text is stated by Ddl.ColumnDdlRoundTrip and the Fixtures lemmas.
- Orchestration.Insert, Orchestration.SelectColumn, Orchestration.SelectAll: the methods model the code as written. The corrected variants are stated only as functions (`InsertRowsReleasing`, `SelectColumnChecked`, `SelectAllKeepingHandle`) with their lemmas.

## Findings

| source | as written | input that shows it | evidently intended | confidence | as-written member | corrected member |
|---|---|---|---|---|---|---|
| include/sqlite_tools.h:1777-1804 | when sqlite3_prepare_v2 fails, select(member) returns the status of sqlite3_finalize on the NULL statement, which is SQLITE_OK | a member with a column name and an engine whose prepare answers SQLITE_ERROR: the call answers SQLITE_OK with no rows | return the prepare's status, as the doc comment's "SQLITE_OK if the rows were successfully selected" says | not executed | Orchestration.SelectColumnHidesPrepareFailure | Orchestration.SelectColumnCheckedOk |
| include/sqlite_tools.h:1457-1459 | when a bind fails, insert returns without sqlite3_finalize, so the prepared statement is never released | a row whose first bind answers SQLITE_ERROR: the status is returned and the statement stays live | finalize before returning, as on the step-failure path at 1462-1466 | not executed | Orchestration.InsertLeaksOnBindFailure | Orchestration.InsertRowsReleasingFinalizes |
| include/sqlite_tools.h:1672-1677 | when the prepare fails, selectAll closes the handle it was given, and the overload that opened that handle closes it again at 1736-1739 | the owning overload of selectAll with an engine whose prepare answers SQLITE_ERROR: sqlite3_close is called twice on one handle | only the owner of the handle closes it: selectAll returns the prepare's status without closing | not executed | Orchestration.SelectAllClosesTwice | Orchestration.SelectAllClosesOnce |
