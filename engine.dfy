/** An abstract SQLite engine: what the library asks of sqlite3_prepare_v2,
    sqlite3_bind_*, sqlite3_reset, sqlite3_step, sqlite3_column_*,
    sqlite3_finalize, sqlite3_exec and sqlite3_close. SQL is not parsed or
    executed: every status code and every result row is scripted, and the
    engine records the statements it was given and the parameters of every
    statement that ran to completion. */
module Engine {
  import opened Text
  import opened Schema

  const SQLITE_OK: int := 0
  const SQLITE_ERROR: int := 1
  const SQLITE_ROW: int := 100
  const SQLITE_DONE: int := 101

  /** Storage-class codes of sqlite3_column_type. */
  const SQLITE_INTEGER: int := 1
  const SQLITE_FLOAT: int := 2
  const SQLITE_TEXT: int := 3
  const SQLITE_NULL: int := 5

  /** The engine's INTEGER storage class. */
  newtype Int64 = x: int | -0x8000_0000_0000_0000 <= x < 0x8000_0000_0000_0000

  /** A value as the engine stores it. */
  datatype Cell = IntCell(i: Int64) | RealCell(r: Real) | TextCell(s: string) | NullCell

  function ColumnType(c: Cell): (code: int)
    ensures code == SQLITE_NULL <==> c.NullCell?
  {
    match c
    case IntCell(_) => SQLITE_INTEGER
    case RealCell(_) => SQLITE_FLOAT
    case TextCell(_) => SQLITE_TEXT
    case NullCell => SQLITE_NULL
  }

  /** The engine's conversions between storage classes that the model does
      not compute: from REAL and from TEXT, and the text of a REAL. */
  datatype Conversions = Conversions(
    realToInt: Real -> Int64, textToInt: string -> Int64,
    intToReal: Int64 -> Real, textToReal: string -> Real,
    realToText: Real -> string)

  /** (int) of a 64-bit integer: its low 32 bits, read as two's complement. */
  function Wrap32(x: int): (r: Int32)
    ensures -0x8000_0000 <= x < 0x8000_0000 ==> r as int == x
    ensures (r as int - x) % 0x1_0000_0000 == 0
  {
    (((x + 0x8000_0000) % 0x1_0000_0000) - 0x8000_0000) as Int32
  }

  function ColumnInt64(conv: Conversions, c: Cell): Int64
  {
    match c
    case IntCell(i) => i
    case RealCell(r) => conv.realToInt(r)
    case TextCell(s) => conv.textToInt(s)
    case NullCell => 0
  }

  /** sqlite3_column_int. */
  function ColumnInt(conv: Conversions, c: Cell): Int32
  {
    Wrap32(ColumnInt64(conv, c) as int)
  }

  /** The bit pattern of 0.0. */
  const ZERO_REAL: Real := Real(0)

  /** sqlite3_column_double. */
  function ColumnDouble(conv: Conversions, c: Cell): Real
  {
    match c
    case IntCell(i) => conv.intToReal(i)
    case RealCell(r) => r
    case TextCell(s) => conv.textToReal(s)
    case NullCell => ZERO_REAL
  }

  /** sqlite3_column_text; None is the NULL pointer. */
  function ColumnText(conv: Conversions, c: Cell): (t: Option<string>)
    ensures t.None? <==> c.NullCell?
  {
    match c
    case IntCell(i) => Some(IntToString(i as int))
    case RealCell(r) => Some(conv.realToText(r))
    case TextCell(s) => Some(s)
    case NullCell => None
  }

  /** One result column: the name sqlite3_column_name reports, and the value. */
  datatype ResultColumn = ResultColumn(name: string, cell: Cell)

  /** A failing step never reports OK, ROW or DONE. */
  type FailCode = c: int | c != SQLITE_OK && c != SQLITE_ROW && c != SQLITE_DONE witness SQLITE_ERROR

  /** What one call of sqlite3_step does. */
  datatype StepResult = Row(columns: seq<ResultColumn>) | Done | Fail(code: FailCode)

  /** Scripted outcomes, consumed front to back. An exhausted list of codes
      answers SQLITE_OK, an exhausted list of steps answers DONE. */
  datatype Script = Script(prepare: seq<int>, bind: seq<int>, steps: seq<StepResult>, finalize: seq<int>, exec: seq<int>)

  datatype EngineState = EngineState(
    script: Script,
    conv: Conversions,
    log: seq<string>,                      // every SQL text prepared or executed
    params: map<int, Cell>,                // bound parameters of the statement
    completed: seq<map<int, Cell>>,        // parameters of each statement run to DONE
    row: seq<ResultColumn>,                // the current result row
    live: bool,                            // a prepared statement is not yet finalized
    open: bool,                            // the connection is not closed
    closes: nat)                           // sqlite3_close calls made on the handle

  datatype Reply = Reply(code: int, st: EngineState)

  function Pop(codes: seq<int>): (int, seq<int>)
  {
    if |codes| == 0 then (SQLITE_OK, []) else (codes[0], codes[1..])
  }

  /** The index of the first failing code among the first n, n if none;
      codes past the end of the script are OK. */
  function FirstFailure(codes: seq<int>, n: nat): (k: nat)
    ensures k <= n
    ensures k < n ==> k < |codes| && codes[k] != SQLITE_OK
    ensures forall j :: 0 <= j < k && j < |codes| ==> codes[j] == SQLITE_OK
    decreases n
  {
    if n == 0 || |codes| == 0 then (if n == 0 then 0 else n)
    else if codes[0] != SQLITE_OK then 0
    else
      var k := 1 + FirstFailure(codes[1..], n - 1);
      assert forall j :: 1 <= j < k && j < |codes| ==> codes[j] == codes[1..][j - 1];
      k
  }

  function Prepare(st: EngineState, sql: string): (r: Reply)
    ensures r.st.log == st.log + [sql] && r.st.completed == st.completed && r.st.open == st.open
    ensures r.st.live <==> r.code == SQLITE_OK
    ensures r.st.script.steps == st.script.steps && r.st.conv == st.conv && r.st.closes == st.closes
  {
    var (rc, rest) := Pop(st.script.prepare);
    Reply(rc, st.(script := st.script.(prepare := rest), log := st.log + [sql],
                  params := map[], row := [], live := rc == SQLITE_OK))
  }

  /** sqlite3_bind_*: binds the value at a 1-based position when it succeeds. */
  function Bind(st: EngineState, pos: int, v: Cell): (r: Reply)
    ensures r.code == SQLITE_OK ==> r.st.params == st.params[pos := v]
    ensures r.code != SQLITE_OK ==> r.st.params == st.params
    ensures r.st.completed == st.completed && r.st.log == st.log && r.st.live == st.live
    ensures r.st.script.steps == st.script.steps && r.st.conv == st.conv
  {
    var (rc, rest) := Pop(st.script.bind);
    Reply(rc, st.(script := st.script.(bind := rest),
                  params := if rc == SQLITE_OK then st.params[pos := v] else st.params))
  }

  /** sqlite3_reset: the statement can be stepped again; bindings stay. */
  function Reset(st: EngineState): (s: EngineState)
    ensures s.params == st.params && s.completed == st.completed && s.script == st.script
  {
    st.(row := [])
  }

  function Step(st: EngineState): (r: Reply)
    ensures |st.script.steps| > 0 ==> r.st.script.steps == st.script.steps[1..]
    ensures |st.script.steps| == 0 ==> r.st.script.steps == [] && r.code == SQLITE_DONE
    ensures r.code == SQLITE_ROW ==> |st.script.steps| > 0 && st.script.steps[0].Row?
                                     && r.st.row == st.script.steps[0].columns
    ensures r.code == SQLITE_DONE ==> r.st.completed == st.completed + [st.params]
    ensures r.code != SQLITE_DONE ==> r.st.completed == st.completed
    ensures r.st.log == st.log && r.st.params == st.params && r.st.live == st.live && r.st.conv == st.conv
    ensures r.st.closes == st.closes
  {
    if |st.script.steps| == 0 then
      Reply(SQLITE_DONE, st.(row := [], completed := st.completed + [st.params]))
    else
      var next := st.(script := st.script.(steps := st.script.steps[1..]));
      match st.script.steps[0]
      case Row(cols) => Reply(SQLITE_ROW, next.(row := cols))
      case Done => Reply(SQLITE_DONE, next.(row := [], completed := st.completed + [st.params]))
      case Fail(c) => Reply(c, next.(row := []))
  }

  /** sqlite3_finalize: releases a live statement; on a statement that was
      never prepared (a NULL handle) it does nothing and answers OK. */
  function Finalize(st: EngineState): (r: Reply)
    ensures !r.st.live
    ensures !st.live ==> r == Reply(SQLITE_OK, st)
    ensures r.st.completed == st.completed && r.st.log == st.log && r.st.open == st.open
    ensures r.st.script.steps == st.script.steps && r.st.conv == st.conv && r.st.closes == st.closes
  {
    if !st.live then Reply(SQLITE_OK, st)
    else
      var (rc, rest) := Pop(st.script.finalize);
      Reply(rc, st.(script := st.script.(finalize := rest), live := false))
  }

  /** sqlite3_exec: one statement run to completion in a single call. */
  function Exec(st: EngineState, sql: string): (r: Reply)
    ensures r.st.log == st.log + [sql]
    ensures |st.script.exec| == 0 ==> r.code == SQLITE_OK
    ensures |st.script.exec| > 0 ==> r.code == st.script.exec[0] && r.st.script.exec == st.script.exec[1..]
  {
    var (rc, rest) := Pop(st.script.exec);
    Reply(rc, st.(script := st.script.(exec := rest), log := st.log + [sql]))
  }

  /** sqlite3_close: every call is counted, so that closing a handle twice
      shows. */
  function Close(st: EngineState): (s: EngineState)
    ensures !s.open && s.closes == st.closes + 1
    ensures s.completed == st.completed && s.log == st.log && s.live == st.live
  {
    st.(open := false, closes := st.closes + 1)
  }

  /** A fresh connection with nothing prepared. */
  function Opened(script: Script, conv: Conversions): (st: EngineState)
    ensures st.open && !st.live && st.log == [] && st.completed == [] && st.closes == 0
  {
    EngineState(script, conv, [], map[], [], [], false, true, 0)
  }

  /** A sqlite3 connection together with the statement in use. */
  class Connection {
    var script: Script
    var conv: Conversions
    var log: seq<string>
    var params: map<int, Cell>
    var completed: seq<map<int, Cell>>
    var row: seq<ResultColumn>
    var live: bool
    var open: bool
    var closes: nat

    function State(): EngineState
      reads this
    {
      EngineState(script, conv, log, params, completed, row, live, open, closes)
    }

    constructor (s: Script, c: Conversions)
      ensures State() == Opened(s, c)
    {
      script, conv, log, params, completed, row, live, open, closes := s, c, [], map[], [], [], false, true, 0;
    }

    method Load(st: EngineState)
      modifies this
      ensures State() == st
    {
      script, conv, log, params, completed, row, live, open, closes
        := st.script, st.conv, st.log, st.params, st.completed, st.row, st.live, st.open, st.closes;
    }

    method PrepareV2(sql: string) returns (rc: int)
      modifies this
      ensures Reply(rc, State()) == Prepare(old(State()), sql)
    {
      var r := Prepare(State(), sql);
      Load(r.st);
      rc := r.code;
    }

    method BindCell(pos: int, v: Cell) returns (rc: int)
      modifies this
      ensures Reply(rc, State()) == Bind(old(State()), pos, v)
    {
      var r := Bind(State(), pos, v);
      Load(r.st);
      rc := r.code;
    }

    method ResetStatement()
      modifies this
      ensures State() == Reset(old(State()))
    {
      row := [];
    }

    method StepStatement() returns (rc: int)
      modifies this
      ensures Reply(rc, State()) == Step(old(State()))
    {
      var r := Step(State());
      Load(r.st);
      rc := r.code;
    }

    method FinalizeStatement() returns (rc: int)
      modifies this
      ensures Reply(rc, State()) == Finalize(old(State()))
    {
      var r := Finalize(State());
      Load(r.st);
      rc := r.code;
    }

    method ExecSql(sql: string) returns (rc: int)
      modifies this
      ensures Reply(rc, State()) == Exec(old(State()), sql)
    {
      var r := Exec(State(), sql);
      Load(r.st);
      rc := r.code;
    }

    method CloseConnection()
      modifies this
      ensures State() == Close(old(State()))
    {
      open, closes := false, closes + 1;
    }
  }
}
