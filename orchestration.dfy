/** The operations that drive the engine: creating and dropping tables,
    inserting rows, the three selects and update
    (include/sqlite_tools.h:1297-1348, 1397-1471, 1562-1607, 1666-1704,
    1762-1810, 1861-1879, 1968-2006, 2140-2196). Each method is proved
    equal to a function that states, call by call, what it asks of the
    engine and what it returns. */
module Orchestration {
  import opened Text
  import opened Schema
  import opened Ddl
  import opened Engine
  import opened Marshal

  /** A select's status, the engine afterwards and the output vector. */
  datatype Selected<R> = Selected(code: int, st: EngineState, out: seq<R>)

  // ---------------------------------------------------------------------
  // createTableIfNotExists, dropTableIfExists

  method CreateTableIfNotExists(conn: Connection, t: Table, realText: Real -> string) returns (rc: int)
    requires ValidTable(t)
    modifies conn
    ensures Reply(rc, conn.State()) == Exec(old(conn.State()), CreateTableText(t, realText))
  {
    var query := BuildCreateTableStatement(t, realText);
    rc := conn.ExecSql(query);
  }

  method DropTableIfExists(conn: Connection, t: Table) returns (rc: int)
    modifies conn
    ensures Reply(rc, conn.State()) == Exec(old(conn.State()), DropTableText(t))
  {
    var query := DROP_PREFIX + t.name + ";";
    rc := conn.ExecSql(query);
  }

  // ---------------------------------------------------------------------
  // SQLiteTableTraverser, createAllTables, dropAllTables

  /** Runs the statements in order and stops at the first that fails. */
  function ExecAll(st: EngineState, sqls: seq<string>): Reply
    decreases |sqls|
  {
    if |sqls| == 0 then Reply(SQLITE_OK, st)
    else
      var r := Exec(st, sqls[0]);
      if r.code != SQLITE_OK then r else ExecAll(r.st, sqls[1..])
  }

  /** When some statement fails, the ones up to and including the first
      failing one are run, in order, and the status is that failure's. */
  lemma {:induction false} ExecAllStopsAtFailure(st: EngineState, sqls: seq<string>)
    requires FirstFailure(st.script.exec, |sqls|) < |sqls|
    ensures var k := FirstFailure(st.script.exec, |sqls|);
      var r := ExecAll(st, sqls);
      r.code == st.script.exec[k] && r.code != SQLITE_OK && r.st.log == st.log + sqls[..k + 1]
    decreases |sqls|
  {
    var codes := st.script.exec;
    var r := Exec(st, sqls[0]);
    if |codes| > 0 && codes[0] != SQLITE_OK {
      assert sqls[..1] == [sqls[0]];
    } else {
      var j := FirstFailure(r.st.script.exec, |sqls| - 1) + 1;
      ExecAllStopsAtFailure(r.st, sqls[1..]);
      assert codes[j] == r.st.script.exec[j - 1];
      assert sqls[..j + 1] == [sqls[0]] + sqls[1..][..j];
      assert st.log + [sqls[0]] + sqls[1..][..j] == st.log + ([sqls[0]] + sqls[1..][..j]);
    }
  }

  /** When none fails, all statements are run, in order, and the status
      is OK. */
  lemma {:induction false} ExecAllRunsAll(st: EngineState, sqls: seq<string>)
    requires FirstFailure(st.script.exec, |sqls|) == |sqls|
    ensures ExecAll(st, sqls).code == SQLITE_OK && ExecAll(st, sqls).st.log == st.log + sqls
    decreases |sqls|
  {
    var codes := st.script.exec;
    if |sqls| > 0 {
      var r := Exec(st, sqls[0]);
      ExecAllRunsAll(r.st, sqls[1..]);
      assert sqls == [sqls[0]] + sqls[1..];
      assert st.log + [sqls[0]] + sqls[1..] == st.log + ([sqls[0]] + sqls[1..]);
    }
  }

  function CreateTexts(tables: seq<Table>, realText: Real -> string): (s: seq<string>)
    requires forall i :: 0 <= i < |tables| ==> ValidTable(tables[i])
    ensures |s| == |tables|
  {
    seq(|tables|, i requires 0 <= i < |tables| => CreateTableText(tables[i], realText))
  }

  function DropTexts(tables: seq<Table>): (s: seq<string>)
    ensures |s| == |tables|
  {
    seq(|tables|, i requires 0 <= i < |tables| => DropTableText(tables[i]))
  }

  /** createAllTables: the tables' CREATE statements in declaration order,
      stopping at the first one that does not answer OK. */
  method CreateAllTables(conn: Connection, db: Database, realText: Real -> string) returns (rc: int)
    requires ValidDatabase(db)
    modifies conn
    ensures Reply(rc, conn.State()) == ExecAll(old(conn.State()), CreateTexts(db.tables, realText))
  {
    ghost var texts := CreateTexts(db.tables, realText);
    rc := SQLITE_OK;
    var i := 0;
    while i < |db.tables|
      invariant 0 <= i <= |db.tables| && rc == SQLITE_OK
      invariant ExecAll(conn.State(), texts[i..]) == ExecAll(old(conn.State()), texts)
    {
      assert texts[i..][1..] == texts[i + 1..];
      rc := CreateTableIfNotExists(conn, db.tables[i], realText);
      if rc != SQLITE_OK {
        return;
      }
      i := i + 1;
    }
  }

  /** dropAllTables, likewise with the DROP statements. */
  method DropAllTables(conn: Connection, db: Database) returns (rc: int)
    requires ValidDatabase(db)
    modifies conn
    ensures Reply(rc, conn.State()) == ExecAll(old(conn.State()), DropTexts(db.tables))
  {
    ghost var texts := DropTexts(db.tables);
    rc := SQLITE_OK;
    var i := 0;
    while i < |db.tables|
      invariant 0 <= i <= |db.tables| && rc == SQLITE_OK
      invariant ExecAll(conn.State(), texts[i..]) == ExecAll(old(conn.State()), texts)
    {
      assert texts[i..][1..] == texts[i + 1..];
      rc := DropTableIfExists(conn, db.tables[i]);
      if rc != SQLITE_OK {
        return;
      }
      i := i + 1;
    }
  }

  // ---------------------------------------------------------------------
  // insert

  /** iterateAndBindValues on the connection's statement. */
  method BindValues(conn: Connection, cols: seq<Column>, rec: Record) returns (rc: int)
    requires FieldsIn(cols, rec)
    modifies conn
    ensures Reply(rc, conn.State()) == BindFrom(old(conn.State()), cols, rec, 0)
  {
    rc := SQLITE_OK;
    var i := 0;
    while i < |cols|
      invariant 0 <= i <= |cols| && rc == SQLITE_OK
      invariant BindFrom(conn.State(), cols, rec, i) == BindFrom(old(conn.State()), cols, rec, 0)
    {
      rc := conn.BindCell(i + 1, BindValue(rec[cols[i].field]));
      if rc != SQLITE_OK {
        return;
      }
      i := i + 1;
    }
  }

  predicate AllFieldsIn(cols: seq<Column>, rows: seq<Record>)
  {
    forall k :: 0 <= k < |rows| ==> FieldsIn(cols, rows[k])
  }

  /** The row loop of insert, as written: a bind failure returns at once,
      without finalizing the statement; a step that is not DONE finalizes
      and returns the step's status; after the last row the status of
      finalize is returned. */
  function InsertRows(st: EngineState, cols: seq<Column>, rows: seq<Record>): Reply
    requires AllFieldsIn(cols, rows)
    decreases |rows|
  {
    if |rows| == 0 then Finalize(st)
    else
      var b := BindFrom(Reset(st), cols, rows[0], 0);
      if b.code != SQLITE_OK then b
      else
        var s := Step(b.st);
        if s.code != SQLITE_DONE then Reply(s.code, Finalize(s.st).st)
        else InsertRows(s.st, cols, rows[1..])
  }

  function InsertSpec(st: EngineState, t: Table, rows: seq<Record>): Reply
    requires ValidTable(t) && AllFieldsIn(t.columns, rows)
  {
    var p := Prepare(st, InsertText(t));
    if p.code != SQLITE_OK then p else InsertRows(p.st, t.columns, rows)
  }

  method Insert(conn: Connection, t: Table, rows: seq<Record>) returns (rc: int)
    requires ValidTable(t) && AllFieldsIn(t.columns, rows)
    modifies conn
    ensures Reply(rc, conn.State()) == InsertSpec(old(conn.State()), t, rows)
  {
    var query := BuildInsertStatement(t);
    rc := conn.PrepareV2(query);
    if rc != SQLITE_OK {
      return;
    }
    ghost var st0 := conn.State();
    var k := 0;
    while k < |rows|
      invariant 0 <= k <= |rows|
      invariant InsertRows(conn.State(), t.columns, rows[k..]) == InsertRows(st0, t.columns, rows)
    {
      assert rows[k..][0] == rows[k] && rows[k..][1..] == rows[k + 1..];
      conn.ResetStatement();
      rc := BindValues(conn, t.columns, rows[k]);
      if rc != SQLITE_OK {
        return;
      }
      rc := conn.StepStatement();
      if rc != SQLITE_DONE {
        var ignored := conn.FinalizeStatement();
        return;
      }
      k := k + 1;
    }
    rc := conn.FinalizeStatement();
  }

  /** The parameters one row leaves bound. */
  function RowParams(cols: seq<Column>, rec: Record): map<int, Cell>
    requires FieldsIn(cols, rec)
  {
    BoundFrom(map[], cols, rec, 0)
  }

  function RowsParams(cols: seq<Column>, rows: seq<Record>): (ps: seq<map<int, Cell>>)
    requires AllFieldsIn(cols, rows)
    ensures |ps| == |rows|
    decreases |rows|
  {
    if |rows| == 0 then [] else [RowParams(cols, rows[0])] + RowsParams(cols, rows[1..])
  }

  /** Only the positions of the columns are bound. */
  predicate ParamsWithin(params: map<int, Cell>, n: nat)
  {
    forall p :: p in params ==> 1 <= p <= n
  }

  /** Binding every column overwrites every earlier binding. */
  lemma RebindAll(params: map<int, Cell>, cols: seq<Column>, rec: Record)
    requires FieldsIn(cols, rec) && ParamsWithin(params, |cols|)
    ensures BoundFrom(params, cols, rec, 0) == RowParams(cols, rec)
    ensures ParamsWithin(RowParams(cols, rec), |cols|)
  {
    var m1 := BoundFrom(params, cols, rec, 0);
    var m2 := RowParams(cols, rec);
    BoundFromValues(params, cols, rec, 0);
    BoundFromValues(map[], cols, rec, 0);
    BoundFromKeys(params, cols, rec, 0);
    BoundFromKeys(map[], cols, rec, 0);
    assert forall p :: p in m1 <==> p in m2;
    forall p | p in m1
      ensures m1[p] == m2[p]
    {
      assert 1 <= p <= |cols|;
      assert m1[p] == BindValue(rec[cols[p - 1].field]);
      assert m2[p] == BindValue(rec[cols[p - 1].field]);
    }
  }

  lemma {:induction false} BoundFromKeys(params: map<int, Cell>, cols: seq<Column>, rec: Record, i: nat)
    requires i <= |cols| && FieldsIn(cols, rec)
    ensures forall p :: p in BoundFrom(params, cols, rec, i) <==> p in params || i + 1 <= p <= |cols|
    decreases |cols| - i
  {
    if i < |cols| {
      BoundFromKeys(params[i + 1 := BindValue(rec[cols[i].field])], cols, rec, i + 1);
    }
  }

  /** Scripted status at position k; past the end it is OK. */
  function CodeAt(codes: seq<int>, k: nat): int
  {
    if k < |codes| then codes[k] else SQLITE_OK
  }

  /** An engine that accepts everything insert asks of it for n rows:
      every bind, n steps that end in DONE, and the finalize. */
  predicate InsertHealthy(s: Script, n: nat)
  {
    && BindsSucceed(s.bind, |s.bind|)
    && (n <= LeadingDone(s.steps) || LeadingDone(s.steps) == |s.steps|)
    && CodeAt(s.finalize, 0) == SQLITE_OK
  }

  /** Number of DONE steps at the front of the script. */
  function LeadingDone(steps: seq<StepResult>): (n: nat)
    ensures n <= |steps|
    decreases |steps|
  {
    if |steps| == 0 || !steps[0].Done? then 0 else 1 + LeadingDone(steps[1..])
  }

  /** The script left after dropping its first n codes. */
  function Drop<T>(s: seq<T>, n: nat): seq<T>
  {
    if n <= |s| then s[n..] else []
  }

  /** Binding all columns consumes one bind status per column. */
  lemma {:induction false} BindFromConsumes(st: EngineState, cols: seq<Column>, rec: Record, i: nat)
    requires i <= |cols| && FieldsIn(cols, rec)
    requires BindsSucceed(st.script.bind, |cols| - i)
    ensures BindFrom(st, cols, rec, i).st.script.bind == Drop(st.script.bind, |cols| - i)
    ensures BindFrom(st, cols, rec, i).st.script.finalize == st.script.finalize
    decreases |cols| - i
  {
    if i < |cols| {
      var b := Bind(st, i + 1, BindValue(rec[cols[i].field]));
      if |st.script.bind| > 0 {
        assert b.st.script.bind == Drop(st.script.bind, 1);
        BindFromConsumes(b.st, cols, rec, i + 1);
      } else {
        assert b.st.script.bind == [];
        BindFromConsumes(b.st, cols, rec, i + 1);
      }
      assert Drop(Drop(st.script.bind, 1), |cols| - i - 1) == Drop(st.script.bind, |cols| - i);
    }
  }

  /** One row through reset, bind and step: when all succeed the engine
      has recorded exactly that row's values, and otherwise nothing. */
  lemma InsertOneRow(st: EngineState, cols: seq<Column>, rec: Record)
    requires FieldsIn(cols, rec) && ParamsWithin(st.params, |cols|)
    ensures var b := BindFrom(Reset(st), cols, rec, 0);
      && b.st.completed == st.completed && b.st.conv == st.conv
      && b.st.script.steps == st.script.steps
      && (b.code == SQLITE_OK ==> b.st.params == RowParams(cols, rec) && ParamsWithin(b.st.params, |cols|))
      && (b.code == SQLITE_OK && Step(b.st).code == SQLITE_DONE ==>
            Step(b.st).st.completed == st.completed + [RowParams(cols, rec)])
      && (Step(b.st).code != SQLITE_DONE ==> Step(b.st).st.completed == st.completed)
      && Step(b.st).code != SQLITE_OK
  {
    var st1 := Reset(st);
    BindFromOutcome(st1, cols, rec, 0);
    RebindAll(st1.params, cols, rec);
  }

  /** On a healthy engine the first row binds, steps to DONE, and leaves a
      healthy engine for the remaining rows. */
  lemma InsertHealthyStep(st: EngineState, cols: seq<Column>, rec: Record, n: nat)
    requires FieldsIn(cols, rec) && n > 0 && InsertHealthy(st.script, n)
    ensures var b := BindFrom(Reset(st), cols, rec, 0);
      && b.code == SQLITE_OK && Step(b.st).code == SQLITE_DONE
      && InsertHealthy(Step(b.st).st.script, n - 1)
  {
    var st1 := Reset(st);
    BindFromOutcome(st1, cols, rec, 0);
    BindFromConsumes(st1, cols, rec, 0);
    var b := BindFrom(st1, cols, rec, 0);
    var rest := Drop(st.script.bind, |cols|);
    assert b.st.script.bind == rest;
    forall k | 0 <= k < |rest|
      ensures rest[k] == SQLITE_OK
    {
      assert rest[k] == st.script.bind[|cols| + k];
    }
  }

  /** insert's row loop stops at the first failure: the rows before it stay
      inserted, each with exactly its own values bound, and the status is
      OK only when every row was inserted. */
  lemma {:induction false} InsertRowsPrefix(st: EngineState, cols: seq<Column>, rows: seq<Record>)
    requires AllFieldsIn(cols, rows) && ParamsWithin(st.params, |cols|)
    ensures var r := InsertRows(st, cols, rows);
      exists k :: 0 <= k <= |rows| && r.st.completed == st.completed + RowsParams(cols, rows[..k])
                  && (r.code == SQLITE_OK ==> k == |rows|) && (k < |rows| ==> r.code != SQLITE_OK)
    decreases |rows|
  {
    var r := InsertRows(st, cols, rows);
    assert rows[..0] == [];
    assert st.completed + RowsParams(cols, rows[..0]) == st.completed;
    if |rows| > 0 {
      var b := BindFrom(Reset(st), cols, rows[0], 0);
      if b.code != SQLITE_OK || Step(b.st).code != SQLITE_DONE {
        InsertRowsStop(st, cols, rows);
      } else {
        InsertRowsContinue(st, cols, rows);
        var s := Step(b.st);
        InsertRowsPrefix(s.st, cols, rows[1..]);
        var k' :| 0 <= k' <= |rows| - 1 && r.st.completed == s.st.completed + RowsParams(cols, rows[1..][..k'])
                  && (r.code == SQLITE_OK ==> k' == |rows| - 1) && (k' < |rows| - 1 ==> r.code != SQLITE_OK);
        ExtendPrefix(st.completed, cols, rows, k', r.code, r.st.completed);
      }
    }
  }

  lemma ExtendPrefix(c0: seq<map<int, Cell>>, cols: seq<Column>, rows: seq<Record>, k: nat, code: int, completed: seq<map<int, Cell>>)
    requires AllFieldsIn(cols, rows) && k < |rows|
    requires completed == c0 + [RowParams(cols, rows[0])] + RowsParams(cols, rows[1..][..k])
    requires code == SQLITE_OK ==> k == |rows| - 1
    requires k < |rows| - 1 ==> code != SQLITE_OK
    ensures exists j :: 0 <= j <= |rows| && completed == c0 + RowsParams(cols, rows[..j])
                        && (code == SQLITE_OK ==> j == |rows|) && (j < |rows| ==> code != SQLITE_OK)
  {
    RowsParamsCons(cols, rows, k);
    assert completed == c0 + RowsParams(cols, rows[..k + 1]);
  }

  /** The first row of insert's loop: once it is bound and stepped to
      DONE it is inserted and the loop goes on with the rest. */
  lemma InsertRowsContinue(st: EngineState, cols: seq<Column>, rows: seq<Record>)
    requires AllFieldsIn(cols, rows) && ParamsWithin(st.params, |cols|) && |rows| > 0
    requires BindFrom(Reset(st), cols, rows[0], 0).code == SQLITE_OK
    requires Step(BindFrom(Reset(st), cols, rows[0], 0).st).code == SQLITE_DONE
    ensures var s := Step(BindFrom(Reset(st), cols, rows[0], 0).st);
      && InsertRows(st, cols, rows) == InsertRows(s.st, cols, rows[1..])
      && s.st.completed == st.completed + [RowParams(cols, rows[0])]
      && ParamsWithin(s.st.params, |cols|)
  {
    InsertOneRow(st, cols, rows[0]);
  }

  /** Otherwise the loop ends at the first row, which is not inserted, with
      a status that is not OK. */
  lemma InsertRowsStop(st: EngineState, cols: seq<Column>, rows: seq<Record>)
    requires AllFieldsIn(cols, rows) && ParamsWithin(st.params, |cols|) && |rows| > 0
    requires BindFrom(Reset(st), cols, rows[0], 0).code != SQLITE_OK
             || Step(BindFrom(Reset(st), cols, rows[0], 0).st).code != SQLITE_DONE
    ensures InsertRows(st, cols, rows).st.completed == st.completed
    ensures InsertRows(st, cols, rows).code != SQLITE_OK
    ensures var b := BindFrom(Reset(st), cols, rows[0], 0);
      InsertRows(st, cols, rows).code == (if b.code != SQLITE_OK then b.code else Step(b.st).code)
  {
    InsertOneRow(st, cols, rows[0]);
  }

  lemma RowsParamsCons(cols: seq<Column>, rows: seq<Record>, k: nat)
    requires AllFieldsIn(cols, rows) && k < |rows|
    ensures RowsParams(cols, rows[..k + 1]) == [RowParams(cols, rows[0])] + RowsParams(cols, rows[1..][..k])
  {
    assert rows[..k + 1][0] == rows[0];
    assert rows[..k + 1][1..] == rows[1..][..k];
  }

  /** On an engine that accepts every bind, steps each row to DONE and
      finalizes, insert inserts every row, in order, and answers OK. */
  lemma {:induction false} InsertRowsHealthy(st: EngineState, cols: seq<Column>, rows: seq<Record>)
    requires AllFieldsIn(cols, rows) && ParamsWithin(st.params, |cols|)
    requires InsertHealthy(st.script, |rows|)
    ensures var r := InsertRows(st, cols, rows);
      r.code == SQLITE_OK && r.st.completed == st.completed + RowsParams(cols, rows)
    decreases |rows|
  {
    if |rows| > 0 {
      InsertHealthyStep(st, cols, rows[0], |rows|);
      InsertRowsContinue(st, cols, rows);
      var s := Step(BindFrom(Reset(st), cols, rows[0], 0).st);
      InsertRowsHealthy(s.st, cols, rows[1..]);
      AppendAssoc(st.completed, [RowParams(cols, rows[0])], RowsParams(cols, rows[1..]));
    }
  }

  /** As written, a bind failure returns with the statement still
      prepared: it is never finalized. */
  lemma InsertLeaksOnBindFailure(st: EngineState, cols: seq<Column>, rows: seq<Record>)
    requires AllFieldsIn(cols, rows) && st.live && |rows| > 0 && |cols| > 0
    requires CodeAt(st.script.bind, 0) != SQLITE_OK
    ensures var r := InsertRows(st, cols, rows);
      r.code == CodeAt(st.script.bind, 0) && r.st.live
  {
    BindFromOutcome(Reset(st), cols, rows[0], 0);
  }

  /** The row loop with the statement finalized on every path out of it,
      the bind failure included; the status is the same. */
  function InsertRowsReleasing(st: EngineState, cols: seq<Column>, rows: seq<Record>): Reply
    requires AllFieldsIn(cols, rows)
    decreases |rows|
  {
    if |rows| == 0 then Finalize(st)
    else
      var b := BindFrom(Reset(st), cols, rows[0], 0);
      if b.code != SQLITE_OK then Reply(b.code, Finalize(b.st).st)
      else
        var s := Step(b.st);
        if s.code != SQLITE_DONE then Reply(s.code, Finalize(s.st).st)
        else InsertRowsReleasing(s.st, cols, rows[1..])
  }

  /** The corrected loop leaves no statement prepared and reports what the
      loop as written reports, and records the same completed rows. */
  lemma {:induction false} InsertRowsReleasingFinalizes(st: EngineState, cols: seq<Column>, rows: seq<Record>)
    requires AllFieldsIn(cols, rows)
    ensures var r := InsertRowsReleasing(st, cols, rows);
      && !r.st.live
      && r.code == InsertRows(st, cols, rows).code
      && r.st.completed == InsertRows(st, cols, rows).st.completed
    decreases |rows|
  {
    if |rows| > 0 {
      var b := BindFrom(Reset(st), cols, rows[0], 0);
      if b.code == SQLITE_OK {
        var s := Step(b.st);
        if s.code == SQLITE_DONE {
          InsertRowsReleasingFinalizes(s.st, cols, rows[1..]);
        }
      }
    }
  }


  lemma AppendAssoc<T>(a: seq<T>, b: seq<T>, c: seq<T>)
    ensures (a + b) + c == a + (b + c)
  {
  }

  // ---------------------------------------------------------------------
  // selectAll

  /** Every result row can be read into the record by position. */
  predicate StepsFit(steps: seq<StepResult>, cols: seq<Column>)
  {
    forall k :: 0 <= k < |steps| && steps[k].Row? ==> RowFits(cols, steps[k].columns)
  }

  lemma StepsFitTail(steps: seq<StepResult>, cols: seq<Column>)
    requires |steps| > 0 && StepsFit(steps, cols)
    ensures StepsFit(steps[1..], cols)
  {
    forall k | 0 <= k < |steps| - 1 && steps[1..][k].Row?
      ensures RowFits(cols, steps[1..][k].columns)
    {
      assert steps[1..][k] == steps[k + 1];
    }
  }

  /** selectAll's loop: one ordinal read into the reused record per ROW,
      appended to the output; DONE ends with finalize's status; any other
      status finalizes and is returned. */
  function SelectAllLoop(st: EngineState, cols: seq<Column>, row: Record, out: seq<Record>): Selected<Record>
    requires Conforms(cols, row) && StepsFit(st.script.steps, cols)
    decreases |st.script.steps|
  {
    var s := Step(st);
    if s.code == SQLITE_ROW then
      StepsFitTail(st.script.steps, cols);
      var next := AssignFrom(st.conv, cols, row, s.st.row, 0);
      SelectAllLoop(s.st, cols, next, out + [next])
    else if s.code == SQLITE_DONE then
      var f := Finalize(s.st);
      Selected(f.code, f.st, out)
    else Selected(s.code, Finalize(s.st).st, out)
  }

  /** selectAll: a failed prepare closes the connection. */
  function SelectAllSpec(st: EngineState, t: Table, init: Record, out: seq<Record>): Selected<Record>
    requires Conforms(t.columns, init) && StepsFit(st.script.steps, t.columns)
  {
    var p := Prepare(st, SelectAllText(t));
    if p.code != SQLITE_OK then Selected(p.code, Close(p.st), out)
    else SelectAllLoop(p.st, t.columns, init, out)
  }

  /** iterateAndAssignMembers on the current result row. */
  method AssignMembers(conn: Connection, cols: seq<Column>, row: Record) returns (r: Record)
    requires Conforms(cols, row) && RowFits(cols, conn.row)
    ensures r == AssignFrom(conn.conv, cols, row, conn.row, 0)
  {
    r := row;
    var i := 0;
    while i < |cols|
      invariant 0 <= i <= |cols| && Conforms(cols, r) && |r| == |row|
      invariant AssignFrom(conn.conv, cols, r, conn.row, i) == AssignFrom(conn.conv, cols, row, conn.row, 0)
    {
      var f := cols[i].field;
      var v := AssignMember(conn.conv, r[f], cols[i].ty, conn.row[i].cell);
      ConformsUpdate(cols, r, i, v);
      r := r[f := v];
      i := i + 1;
    }
  }

  method SelectAll(conn: Connection, t: Table, init: Record, output: seq<Record>) returns (rc: int, out: seq<Record>)
    requires Conforms(t.columns, init) && StepsFit(conn.script.steps, t.columns)
    modifies conn
    ensures Selected(rc, conn.State(), out) == SelectAllSpec(old(conn.State()), t, init, output)
  {
    out := output;
    var query := "SELECT * FROM " + t.name + ";";
    rc := conn.PrepareV2(query);
    if rc != SQLITE_OK {
      conn.CloseConnection();
      return;
    }
    var row := init;
    while true
      invariant Conforms(t.columns, row) && StepsFit(conn.script.steps, t.columns)
      invariant SelectAllLoop(conn.State(), t.columns, row, out) == SelectAllSpec(old(conn.State()), t, init, output)
      decreases |conn.script.steps|
    {
      ghost var before := conn.State();
      rc := conn.StepStatement();
      if rc == SQLITE_ROW {
        StepsFitTail(before.script.steps, t.columns);
        row := AssignMembers(conn, t.columns, row);
        out := out + [row];
      } else if rc == SQLITE_DONE {
        break;
      } else {
        var ignored := conn.FinalizeStatement();
        return;
      }
    }
    rc := conn.FinalizeStatement();
  }

  /** Stepping through the rows never closes the connection. */
  lemma {:induction false} SelectAllLoopKeepsOpen(st: EngineState, cols: seq<Column>, row: Record, out: seq<Record>)
    requires Conforms(cols, row) && StepsFit(st.script.steps, cols)
    ensures SelectAllLoop(st, cols, row, out).st.closes == st.closes
    decreases |st.script.steps|
  {
    var s := Step(st);
    if s.code == SQLITE_ROW {
      StepsFitTail(st.script.steps, cols);
      SelectAllLoopKeepsOpen(s.st, cols, AssignFrom(st.conv, cols, row, s.st.row, 0), out + [AssignFrom(st.conv, cols, row, s.st.row, 0)]);
    }
  }

  /** The selectAll overload that opens its own connection, from a
      successful open on: it runs selectAll on the handle, then closes the
      handle on either path and returns selectAll's status (the status of
      the final close is not modelled). */
  function SelectAllOwnConnection(st: EngineState, t: Table, init: Record, out: seq<Record>): Selected<Record>
    requires Conforms(t.columns, init) && StepsFit(st.script.steps, t.columns)
  {
    var r := SelectAllSpec(st, t, init, out);
    Selected(r.code, Close(r.st), r.out)
  }

  /** As written, a failed prepare closes the handle twice: once inside
      selectAll and once more in the overload that owns the handle. */
  lemma SelectAllClosesTwice(st: EngineState, t: Table, init: Record, out: seq<Record>)
    requires Conforms(t.columns, init) && StepsFit(st.script.steps, t.columns)
    requires CodeAt(st.script.prepare, 0) != SQLITE_OK
    ensures var r := SelectAllOwnConnection(st, t, init, out);
      r.code == CodeAt(st.script.prepare, 0) && r.st.closes == st.closes + 2 && r.out == out
  {
  }

  /** selectAll leaving the handle to its owner: a failed prepare returns
      its status and closes nothing. */
  function SelectAllKeepingHandle(st: EngineState, t: Table, init: Record, out: seq<Record>): Selected<Record>
    requires Conforms(t.columns, init) && StepsFit(st.script.steps, t.columns)
  {
    var p := Prepare(st, SelectAllText(t));
    if p.code != SQLITE_OK then Selected(p.code, p.st, out)
    else SelectAllLoop(p.st, t.columns, init, out)
  }

  function SelectAllOwnConnectionOnce(st: EngineState, t: Table, init: Record, out: seq<Record>): Selected<Record>
    requires Conforms(t.columns, init) && StepsFit(st.script.steps, t.columns)
  {
    var r := SelectAllKeepingHandle(st, t, init, out);
    Selected(r.code, Close(r.st), r.out)
  }

  /** Corrected, the handle is closed exactly once on every path, and the
      status and the rows are those of the code as written. */
  lemma SelectAllClosesOnce(st: EngineState, t: Table, init: Record, out: seq<Record>)
    requires Conforms(t.columns, init) && StepsFit(st.script.steps, t.columns)
    ensures var r := SelectAllOwnConnectionOnce(st, t, init, out);
      && r.st.closes == st.closes + 1
      && r.code == SelectAllOwnConnection(st, t, init, out).code
      && r.out == SelectAllOwnConnection(st, t, init, out).out
  {
    var p := Prepare(st, SelectAllText(t));
    if p.code == SQLITE_OK {
      SelectAllLoopKeepsOpen(p.st, t.columns, init, out);
    }
  }

  /** Number of ROW steps at the front of the script. */
  function LeadingRows(steps: seq<StepResult>): (n: nat)
    ensures n <= |steps|
    ensures forall k :: 0 <= k < n ==> steps[k].Row?
    ensures n < |steps| ==> !steps[n].Row?
    decreases |steps|
  {
    if |steps| == 0 || !steps[0].Row? then 0
    else
      var n := 1 + LeadingRows(steps[1..]);
      assert forall k :: 1 <= k < n ==> steps[k] == steps[1..][k - 1];
      n
  }

  /** The records selectAll appends for result rows rows[0..]: each read
      into the record that the previous row left behind. */
  function ReadsByPosition(conv: Conversions, cols: seq<Column>, prev: Record, rows: seq<seq<ResultColumn>>): (rs: seq<Record>)
    requires Conforms(cols, prev) && forall k :: 0 <= k < |rows| ==> RowFits(cols, rows[k])
    ensures |rs| == |rows|
    decreases |rows|
  {
    if |rows| == 0 then []
    else
      var next := AssignFrom(conv, cols, prev, rows[0], 0);
      [next] + ReadsByPosition(conv, cols, next, rows[1..])
  }

  function RowsOf(steps: seq<StepResult>, n: nat): (rows: seq<seq<ResultColumn>>)
    requires n <= |steps| && forall k :: 0 <= k < n ==> steps[k].Row?
    ensures |rows| == n
    ensures forall k :: 0 <= k < n ==> rows[k] == steps[k].columns
  {
    seq(n, k requires 0 <= k < n => steps[k].columns)
  }

  /** selectAll appends one record per leading ROW step, in engine order,
      to what the output already held; it reports OK only if the engine
      then reached DONE, reports a failing step's own status, and always
      releases the statement. */
  lemma {:induction false} SelectAllLoopOutcome(st: EngineState, cols: seq<Column>, row: Record, out: seq<Record>)
    requires Conforms(cols, row) && StepsFit(st.script.steps, cols)
    ensures var steps := st.script.steps;
      var n := LeadingRows(steps);
      var r := SelectAllLoop(st, cols, row, out);
      && (forall k :: 0 <= k < n ==> RowFits(cols, steps[k].columns))
      && r.out == out + ReadsByPosition(st.conv, cols, row, RowsOf(steps, n))
      && !r.st.live
      && (n < |steps| && steps[n].Fail? ==> r.code == steps[n].code)
      && (r.code == SQLITE_OK ==> n == |steps| || steps[n].Done?)
    decreases |st.script.steps|
  {
    var steps := st.script.steps;
    var n := LeadingRows(steps);
    var s := Step(st);
    if s.code == SQLITE_ROW {
      StepsFitTail(steps, cols);
      var next := AssignFrom(st.conv, cols, row, s.st.row, 0);
      SelectAllLoopOutcome(s.st, cols, next, out + [next]);
      assert s.st.script.steps == steps[1..];
      assert LeadingRows(steps) == 1 + LeadingRows(steps[1..]);
      assert RowsOf(steps, n) == [steps[0].columns] + RowsOf(steps[1..], n - 1);
      AppendAssoc(out, [next], ReadsByPosition(st.conv, cols, next, RowsOf(steps[1..], n - 1)));
    } else {
      assert n == 0;
      assert RowsOf(steps, 0) == [];
    }
  }

  // ---------------------------------------------------------------------
  // select with a custom query

  /** Every result column can be read into the declared column of its name. */
  predicate StepsFitByName(steps: seq<StepResult>, cols: seq<Column>)
  {
    forall k, j :: 0 <= k < |steps| && steps[k].Row? && 0 <= j < |steps[k].columns| ==> NamedFits(cols, steps[k].columns[j])
  }

  lemma StepsFitByNameTail(steps: seq<StepResult>, cols: seq<Column>)
    requires |steps| > 0 && StepsFitByName(steps, cols)
    ensures StepsFitByName(steps[1..], cols)
    ensures steps[0].Row? ==> forall j :: 0 <= j < |steps[0].columns| ==> NamedFits(cols, steps[0].columns[j])
  {
    forall k, j | 0 <= k < |steps| - 1 && steps[1..][k].Row? && 0 <= j < |steps[1..][k].columns|
      ensures NamedFits(cols, steps[1..][k].columns[j])
    {
      assert steps[1..][k] == steps[k + 1];
    }
  }

  /** The custom select's loop: a ROW with no columns is skipped; any other
      ROW offers each result column to the by-name assigner, in engine
      order, and appends the reused record. */
  function SelectLoop(st: EngineState, cols: seq<Column>, row: Record, out: seq<Record>): Selected<Record>
    requires Conforms(cols, row) && StepsFitByName(st.script.steps, cols)
    decreases |st.script.steps|
  {
    var s := Step(st);
    if s.code == SQLITE_ROW then
      StepsFitByNameTail(st.script.steps, cols);
      if |s.st.row| == 0 then SelectLoop(s.st, cols, row, out)
      else
        var next := AssignRowByName(st.conv, cols, row, s.st.row);
        SelectLoop(s.st, cols, next, out + [next])
    else if s.code == SQLITE_DONE then
      var f := Finalize(s.st);
      Selected(f.code, f.st, out)
    else Selected(s.code, Finalize(s.st).st, out)
  }

  /** The records the custom select appends for result rows rows[0..]:
      a row without columns adds nothing; any other is read by name into
      the record the previous row left behind. */
  function ReadsByName(conv: Conversions, cols: seq<Column>, prev: Record, rows: seq<seq<ResultColumn>>): (rs: seq<Record>)
    requires Conforms(cols, prev)
    requires forall k, j :: 0 <= k < |rows| && 0 <= j < |rows[k]| ==> NamedFits(cols, rows[k][j])
    ensures |rs| <= |rows|
    ensures (forall k :: 0 <= k < |rows| ==> |rows[k]| > 0) ==> |rs| == |rows|
    decreases |rows|
  {
    if |rows| == 0 then []
    else
      assert forall k :: 0 <= k < |rows| - 1 ==> rows[1..][k] == rows[k + 1];
      if |rows[0]| == 0 then ReadsByName(conv, cols, prev, rows[1..])
      else
        var next := AssignRowByName(conv, cols, prev, rows[0]);
        [next] + ReadsByName(conv, cols, next, rows[1..])
  }

  /** The statuses of the custom select's loop: the statement is released,
      a failing step's status is returned, and OK only after DONE. */
  lemma {:induction false} SelectLoopStatus(st: EngineState, cols: seq<Column>, row: Record, out: seq<Record>)
    requires Conforms(cols, row) && StepsFitByName(st.script.steps, cols)
    ensures var steps := st.script.steps;
      var n := LeadingRows(steps);
      var r := SelectLoop(st, cols, row, out);
      && !r.st.live
      && (n < |steps| && steps[n].Fail? ==> r.code == steps[n].code)
      && (r.code == SQLITE_OK ==> n == |steps| || steps[n].Done?)
    decreases |st.script.steps|
  {
    var steps := st.script.steps;
    var n := LeadingRows(steps);
    var s := Step(st);
    if s.code == SQLITE_ROW {
      StepsFitByNameTail(steps, cols);
      assert s.st.script.steps == steps[1..];
      assert LeadingRows(steps) == 1 + LeadingRows(steps[1..]);
      assert n < |steps| ==> steps[n] == steps[1..][n - 1];
      if |s.st.row| == 0 {
        SelectLoopStatus(s.st, cols, row, out);
      } else {
        var next := AssignRowByName(st.conv, cols, row, s.st.row);
        SelectLoopStatus(s.st, cols, next, out + [next]);
      }
    } else {
      assert n == 0;
    }
  }

  /** The custom select appends what the leading ROW steps read by name,
      reports OK only if the engine then reached DONE, reports a failing
      step's own status, and always releases the statement. */
  lemma {:induction false} SelectLoopOutcome(st: EngineState, cols: seq<Column>, row: Record, out: seq<Record>)
    requires Conforms(cols, row) && StepsFitByName(st.script.steps, cols)
    ensures var steps := st.script.steps;
      var n := LeadingRows(steps);
      var r := SelectLoop(st, cols, row, out);
      && (forall k, j :: 0 <= k < n && 0 <= j < |steps[k].columns| ==> NamedFits(cols, steps[k].columns[j]))
      && r.out == out + ReadsByName(st.conv, cols, row, RowsOf(steps, n))
      && !r.st.live
      && (n < |steps| && steps[n].Fail? ==> r.code == steps[n].code)
      && (r.code == SQLITE_OK ==> n == |steps| || steps[n].Done?)
  {
    SelectLoopStatus(st, cols, row, out);
    SelectLoopReads(st, cols, row, out);
  }

  /** The records the custom select's loop appends. */
  lemma {:induction false} SelectLoopReads(st: EngineState, cols: seq<Column>, row: Record, out: seq<Record>)
    requires Conforms(cols, row) && StepsFitByName(st.script.steps, cols)
    ensures var steps := st.script.steps;
      var n := LeadingRows(steps);
      && (forall k, j :: 0 <= k < n && 0 <= j < |steps[k].columns| ==> NamedFits(cols, steps[k].columns[j]))
      && SelectLoop(st, cols, row, out).out == out + ReadsByName(st.conv, cols, row, RowsOf(steps, n))
    decreases |st.script.steps|
  {
    var steps := st.script.steps;
    var n := LeadingRows(steps);
    var s := Step(st);
    if s.code == SQLITE_ROW {
      StepsFitByNameTail(steps, cols);
      assert s.st.script.steps == steps[1..];
      assert LeadingRows(steps) == 1 + LeadingRows(steps[1..]);
      var rows := RowsOf(steps, n);
      var tail := RowsOf(s.st.script.steps, LeadingRows(s.st.script.steps));
      assert rows[1..] == tail;
      assert rows[0] == s.st.row;
      if |s.st.row| == 0 {
        SelectLoopReads(s.st, cols, row, out);
        assert SelectLoop(st, cols, row, out) == SelectLoop(s.st, cols, row, out);
        assert ReadsByName(st.conv, cols, row, rows) == ReadsByName(st.conv, cols, row, tail);
      } else {
        var next := AssignRowByName(st.conv, cols, row, s.st.row);
        SelectLoopReads(s.st, cols, next, out + [next]);
        assert SelectLoop(st, cols, row, out) == SelectLoop(s.st, cols, next, out + [next]);
        assert ReadsByName(st.conv, cols, row, rows) == [next] + ReadsByName(st.conv, cols, next, tail);
        AppendAssoc(out, [next], ReadsByName(st.conv, cols, next, tail));
      }
    } else {
      assert n == 0;
      assert RowsOf(steps, 0) == [];
    }
  }

  function SelectSpec(st: EngineState, query: string, cols: seq<Column>, init: Record, out: seq<Record>): Selected<Record>
    requires Conforms(cols, init) && StepsFitByName(st.script.steps, cols)
  {
    var p := Prepare(st, query);
    if p.code != SQLITE_OK then Selected(p.code, p.st, out)
    else SelectLoop(p.st, cols, init, out)
  }

  /** iterateAndAssignMembersByColumnName for result column colIndex. */
  method AssignByColumnName(conn: Connection, cols: seq<Column>, row: Record, colIndex: nat) returns (matched: bool, r: Record)
    requires colIndex < |conn.row| && Conforms(cols, row) && NamedFits(cols, conn.row[colIndex])
    ensures (matched, r) == AssignByNameFrom(conn.conv, cols, row, conn.row[colIndex], 0)
  {
    var rcol := conn.row[colIndex];
    var i := 0;
    while i < |cols|
      invariant 0 <= i <= |cols|
      invariant forall j :: 0 <= j < i ==> cols[j].name != rcol.name
      invariant AssignByNameFrom(conn.conv, cols, row, rcol, i) == AssignByNameFrom(conn.conv, cols, row, rcol, 0)
    {
      ColNameEqualsIsEquality(cols[i].name, rcol.name);
      if ColNameEquals(cols[i].name, rcol.name) {
        var v := AssignMember(conn.conv, row[cols[i].field], cols[i].ty, rcol.cell);
        matched, r := true, row[cols[i].field := v];
        return;
      }
      i := i + 1;
    }
    matched, r := false, row;
  }

  /** The column loop of the custom select: each result column in turn
      is offered to the by-name assigner. */
  method AssignRowByColumnNames(conn: Connection, cols: seq<Column>, row: Record) returns (r: Record)
    requires Conforms(cols, row) && forall j :: 0 <= j < |conn.row| ==> NamedFits(cols, conn.row[j])
    ensures r == AssignRowByName(conn.conv, cols, row, conn.row)
  {
    r := row;
    var colIndex := 0;
    while colIndex < |conn.row|
      invariant 0 <= colIndex <= |conn.row|
      invariant Conforms(cols, r)
      invariant AssignRowByName(conn.conv, cols, r, conn.row[colIndex..]) == AssignRowByName(conn.conv, cols, row, conn.row)
    {
      assert conn.row[colIndex..][0] == conn.row[colIndex];
      assert conn.row[colIndex..][1..] == conn.row[colIndex + 1..];
      AssignByNameScan(conn.conv, cols, r, conn.row[colIndex], 0);
      var matched, next := AssignByColumnName(conn, cols, r, colIndex);
      r := next;
      colIndex := colIndex + 1;
    }
  }

  method Select(conn: Connection, query: string, cols: seq<Column>, init: Record, output: seq<Record>) returns (rc: int, out: seq<Record>)
    requires Conforms(cols, init) && StepsFitByName(conn.script.steps, cols)
    modifies conn
    ensures Selected(rc, conn.State(), out) == SelectSpec(old(conn.State()), query, cols, init, output)
  {
    out := output;
    rc := conn.PrepareV2(query);
    if rc != SQLITE_OK {
      return;
    }
    var row := init;
    while true
      invariant Conforms(cols, row) && StepsFitByName(conn.script.steps, cols)
      invariant SelectLoop(conn.State(), cols, row, out) == SelectSpec(old(conn.State()), query, cols, init, output)
      decreases |conn.script.steps|
    {
      ghost var before := conn.State();
      rc := conn.StepStatement();
      if rc == SQLITE_ROW {
        StepsFitByNameTail(before.script.steps, cols);
        var count := |conn.row|;
        if count == 0 {
          continue;
        }
        row := AssignRowByColumnNames(conn, cols, row);
        out := out + [row];
      } else if rc == SQLITE_DONE {
        break;
      } else {
        var ignored := conn.FinalizeStatement();
        return;
      }
    }
    rc := conn.FinalizeStatement();
  }

  // ---------------------------------------------------------------------
  // select of a single column

  /** Every result row has a first column the value assigner can read. */
  predicate StepsFitValue(steps: seq<StepResult>, ty: ColType)
  {
    forall k :: 0 <= k < |steps| && steps[k].Row? ==> |steps[k].columns| > 0 && ValueReadable(ty, steps[k].columns[0].cell)
  }

  lemma StepsFitValueTail(steps: seq<StepResult>, ty: ColType)
    requires |steps| > 0 && StepsFitValue(steps, ty)
    ensures StepsFitValue(steps[1..], ty)
  {
    forall k | 0 <= k < |steps| - 1 && steps[1..][k].Row?
      ensures |steps[1..][k].columns| > 0 && ValueReadable(ty, steps[1..][k].columns[0].cell)
    {
      assert steps[1..][k] == steps[k + 1];
    }
  }

  function SelectColumnLoop(st: EngineState, ty: ColType, v: Field, out: seq<Field>): Selected<Field>
    requires FieldHasType(v, ty) && StepsFitValue(st.script.steps, ty)
    decreases |st.script.steps|
  {
    var s := Step(st);
    if s.code == SQLITE_ROW then
      StepsFitValueTail(st.script.steps, ty);
      var next := AssignValue(st.conv, v, ty, s.st.row[0].cell);
      SelectColumnLoop(s.st, ty, next, out + [next])
    else if s.code == SQLITE_DONE then
      var f := Finalize(s.st);
      Selected(f.code, f.st, out)
    else Selected(s.code, Finalize(s.st).st, out)
  }

  /** select(member), as written: no column name (a bool member, or one of
      no column) gives ERROR without touching the engine; a failed prepare
      returns the status of finalizing the statement it never got. */
  function SelectColumnSpec(st: EngineState, t: Table, m: Member, init: Field, out: seq<Field>): Selected<Field>
    requires FieldHasType(init, m.ty)
    requires GetColumnName(t.columns, m) != "" ==> StepsFitValue(st.script.steps, m.ty)
  {
    var name := GetColumnName(t.columns, m);
    if |name| == 0 then Selected(SQLITE_ERROR, st, out)
    else
      var p := Prepare(st, SelectColumnText(name, t));
      if p.code == SQLITE_OK then SelectColumnLoop(p.st, m.ty, init, out)
      else
        var f := Finalize(p.st);
        Selected(f.code, f.st, out)
  }

  method SelectColumn(conn: Connection, t: Table, m: Member, init: Field, output: seq<Field>) returns (rc: int, out: seq<Field>)
    requires FieldHasType(init, m.ty)
    requires GetColumnName(t.columns, m) != "" ==> StepsFitValue(conn.script.steps, m.ty)
    modifies conn
    ensures Selected(rc, conn.State(), out) == SelectColumnSpec(old(conn.State()), t, m, init, output)
  {
    rc := SQLITE_ERROR;
    out := output;
    var colName := GetColumnName(t.columns, m);
    if |colName| > 0 {
      var query := "SELECT " + colName + " FROM " + t.name + ";";
      rc := conn.PrepareV2(query);
      if rc == SQLITE_OK {
        var selected := init;
        while true
          invariant FieldHasType(selected, m.ty) && StepsFitValue(conn.script.steps, m.ty)
          invariant SelectColumnLoop(conn.State(), m.ty, selected, out) == SelectColumnSpec(old(conn.State()), t, m, init, output)
          decreases |conn.script.steps|
        {
          ghost var before := conn.State();
          rc := conn.StepStatement();
          if rc == SQLITE_ROW {
            StepsFitValueTail(before.script.steps, m.ty);
            selected := AssignValue(conn.conv, selected, m.ty, conn.row[0].cell);
            out := out + [selected];
          } else if rc == SQLITE_DONE {
            break;
          } else {
            var ignored := conn.FinalizeStatement();
            return;
          }
        }
      } else {
        rc := conn.FinalizeStatement();
        return;
      }
      rc := conn.FinalizeStatement();
    }
  }

  /** A bool or Nullable<bool> member has no column name, so the select
      answers ERROR, leaves the engine alone and appends nothing. */
  lemma SelectColumnOfBool(st: EngineState, t: Table, m: Member, init: Field, out: seq<Field>)
    requires FieldHasType(init, m.ty) && m.ty.base == BoolType
    ensures SelectColumnSpec(st, t, m, init, out) == Selected(SQLITE_ERROR, st, out)
  {
  }

  /** When preparing the single-column query fails, select(member) answers
      OK: finalize of the never-prepared statement succeeds. Nothing was
      selected and the prepare's failure is lost. */
  lemma SelectColumnHidesPrepareFailure(st: EngineState, t: Table, m: Member, init: Field, out: seq<Field>)
    requires FieldHasType(init, m.ty) && GetColumnName(t.columns, m) != ""
    requires StepsFitValue(st.script.steps, m.ty)
    requires CodeAt(st.script.prepare, 0) != SQLITE_OK
    ensures SelectColumnSpec(st, t, m, init, out).code == SQLITE_OK
    ensures SelectColumnSpec(st, t, m, init, out).out == out
  {
  }

  /** select(member) returning the prepare's status when it fails. */
  function SelectColumnChecked(st: EngineState, t: Table, m: Member, init: Field, out: seq<Field>): Selected<Field>
    requires FieldHasType(init, m.ty)
    requires GetColumnName(t.columns, m) != "" ==> StepsFitValue(st.script.steps, m.ty)
  {
    var name := GetColumnName(t.columns, m);
    if |name| == 0 then Selected(SQLITE_ERROR, st, out)
    else
      var p := Prepare(st, SelectColumnText(name, t));
      if p.code == SQLITE_OK then SelectColumnLoop(p.st, m.ty, init, out)
      else Selected(p.code, p.st, out)
  }

  /** The corrected select(member) reports OK only when the member has a
      column, the query was prepared and the engine reached DONE; it
      always leaves no statement behind. */
  lemma SelectColumnCheckedOk(st: EngineState, t: Table, m: Member, init: Field, out: seq<Field>)
    requires FieldHasType(init, m.ty)
    requires GetColumnName(t.columns, m) != "" ==> StepsFitValue(st.script.steps, m.ty)
    requires !st.live
    ensures var r := SelectColumnChecked(st, t, m, init, out);
      && !r.st.live
      && (r.code == SQLITE_OK ==>
            && GetColumnName(t.columns, m) != ""
            && CodeAt(st.script.prepare, 0) == SQLITE_OK
            && |r.st.completed| == |st.completed| + 1)
  {
    var name := GetColumnName(t.columns, m);
    if |name| > 0 {
      var p := Prepare(st, SelectColumnText(name, t));
      if p.code == SQLITE_OK {
        SelectColumnLoopOutcome(p.st, m.ty, init, out);
      }
    }
  }

  /** The values select(member) appends for result rows rows[0..]: the
      first result column of each, read into the value the previous row
      left behind. */
  function ReadsFirstColumn(conv: Conversions, ty: ColType, prev: Field, rows: seq<seq<ResultColumn>>): (vs: seq<Field>)
    requires FieldHasType(prev, ty)
    requires forall k :: 0 <= k < |rows| ==> |rows[k]| > 0 && ValueReadable(ty, rows[k][0].cell)
    ensures |vs| == |rows|
    decreases |rows|
  {
    if |rows| == 0 then []
    else
      var next := AssignValue(conv, prev, ty, rows[0][0].cell);
      [next] + ReadsFirstColumn(conv, ty, next, rows[1..])
  }

  /** The single-column loop appends the first column of every leading
      ROW step, in engine order; it releases the statement, reports a
      failing step's own status, and reports OK only once the engine
      reached DONE. */
  lemma {:induction false} SelectColumnLoopOutcome(st: EngineState, ty: ColType, v: Field, out: seq<Field>)
    requires FieldHasType(v, ty) && StepsFitValue(st.script.steps, ty)
    ensures var steps := st.script.steps;
      var n := LeadingRows(steps);
      var r := SelectColumnLoop(st, ty, v, out);
      && (forall k :: 0 <= k < n ==> |steps[k].columns| > 0 && ValueReadable(ty, steps[k].columns[0].cell))
      && r.out == out + ReadsFirstColumn(st.conv, ty, v, RowsOf(steps, n))
      && !r.st.live
      && (n < |steps| && steps[n].Fail? ==> r.code == steps[n].code)
      && (r.code == SQLITE_OK ==> (n == |steps| || steps[n].Done?) && |r.st.completed| == |st.completed| + 1)
      && (r.code != SQLITE_OK ==> |r.st.completed| <= |st.completed| + 1)
    decreases |st.script.steps|
  {
    var steps := st.script.steps;
    var n := LeadingRows(steps);
    var s := Step(st);
    if s.code == SQLITE_ROW {
      StepsFitValueTail(steps, ty);
      var next := AssignValue(st.conv, v, ty, s.st.row[0].cell);
      SelectColumnLoopOutcome(s.st, ty, next, out + [next]);
      assert s.st.script.steps == steps[1..];
      assert LeadingRows(steps) == 1 + LeadingRows(steps[1..]);
      assert RowsOf(steps, n) == [steps[0].columns] + RowsOf(steps[1..], n - 1);
      AppendAssoc(out, [next], ReadsFirstColumn(st.conv, ty, next, RowsOf(steps[1..], n - 1)));
    } else {
      assert n == 0;
      assert RowsOf(steps, 0) == [];
    }
  }

  // ---------------------------------------------------------------------
  // update

  function UpdateSpec(st: EngineState, query: string): Reply
  {
    var p := Prepare(st, query);
    if p.code != SQLITE_OK then p
    else
      var s := Step(p.st);
      if s.code != SQLITE_DONE then Reply(s.code, Finalize(s.st).st)
      else Finalize(s.st)
  }

  method Update(conn: Connection, query: string) returns (rc: int)
    modifies conn
    ensures Reply(rc, conn.State()) == UpdateSpec(old(conn.State()), query)
  {
    rc := conn.PrepareV2(query);
    if rc != SQLITE_OK {
      return;
    }
    rc := conn.StepStatement();
    if rc != SQLITE_DONE {
      var ignored := conn.FinalizeStatement();
      return;
    }
    rc := conn.FinalizeStatement();
  }

  /** update answers OK only when the statement was prepared, ran to DONE
      (with no parameters bound) and was finalized; a failing step's own
      status is returned, and a prepared statement is always released. */
  lemma UpdateOutcome(st: EngineState, query: string)
    ensures var r := UpdateSpec(st, query);
      && r.st.log == st.log + [query]
      && (r.code == SQLITE_OK ==> r.st.completed == st.completed + [map[]] && !r.st.live)
      && (CodeAt(st.script.prepare, 0) == SQLITE_OK ==> !r.st.live)
      && (CodeAt(st.script.prepare, 0) == SQLITE_OK && |st.script.steps| > 0 && st.script.steps[0].Fail? ==>
            r.code == st.script.steps[0].code && r.st.completed == st.completed)
  {
  }
}
