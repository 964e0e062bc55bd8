/** SQL text generation: the per-column declaration, the composite
    primary-key clause, and the CREATE / DROP / INSERT / SELECT statements
    (include/sqlite_tools.h:298-339, 483-590, 797-964, 1379-1429).
    The builders that accumulate into a string are methods proved equal to
    the functions that state their output. */
module Ddl {
  import opened Text
  import opened ColumnFlags
  import opened Schema

  /** The SQL type keyword of a field type; bool is stored as INTEGER. */
  function SqlType(b: BaseType): (k: string)
    ensures k in {"INTEGER", "REAL", "TEXT"}
    ensures k == "INTEGER" <==> b == IntType || b == BoolType
    ensures k == "REAL" <==> b == DoubleType
    ensures k == "TEXT" <==> b == TextType
  {
    match b
    case IntType => "INTEGER"
    case BoolType => "INTEGER"
    case DoubleType => "REAL"
    case TextType => "TEXT"
  }

  /** defaultValueString. std::to_string(double) is not modelled: the
      caller supplies it as realText. */
  function DefaultLiteral(v: Scalar, realText: Real -> string): (lit: string)
    ensures v.IntVal? ==> IsIntText(lit) && ParseInt(lit) == v.i as int
    ensures v.TextVal? ==> |lit| == |v.s| + 2 && lit[0] == '"' && lit[|lit| - 1] == '"' && lit[1..|lit| - 1] == v.s
    ensures v.BoolVal? ==> |lit| == 1 && (lit == "1" <==> v.b) && (lit == "0" <==> !v.b)
  {
    match v
    case IntVal(i) => IntRoundTrip(i as int); IntToString(i as int)
    case DoubleVal(d) => realText(d)
    case TextVal(s) => "\"" + s + "\""
    case BoolVal(b) => if b then "1" else "0"
  }

  /** Reads a default literal back as a value of the given type. REAL
      literals are not read: their text is not modelled. */
  function ReadLiteral(b: BaseType, lit: string): Option<Scalar>
  {
    match b
    case IntType =>
      if IsIntText(lit) && -0x8000_0000 <= ParseInt(lit) < 0x8000_0000
      then Some(IntVal(ParseInt(lit) as Int32)) else None
    case TextType =>
      if |lit| >= 2 && lit[0] == '"' && lit[|lit| - 1] == '"'
      then Some(TextVal(lit[1..|lit| - 1])) else None
    case BoolType =>
      if lit == "1" then Some(BoolVal(true))
      else if lit == "0" then Some(BoolVal(false))
      else None
    case DoubleType => None
  }

  /** Every integer, text and bool default is written so that it reads back
      as the same value. */
  lemma LiteralRoundTrip(v: Scalar, realText: Real -> string)
    requires !v.DoubleVal?
    ensures ReadLiteral(TypeOf(v), DefaultLiteral(v, realText)) == Some(v)
  {
    match v
    case IntVal(i) =>
      IntRoundTrip(i as int);
    case TextVal(s) =>
    case BoolVal(_) =>
  }

  const NOT_NULL_SUFFIX: string := " NOT NULL"
  const DEFAULT_INFIX: string := " DEFAULT "

  /** DATATYPE(): name, a space, the SQL type, " NOT NULL" when the flag is
      set, and for a column with a default " DEFAULT " and its literal. */
  function ColumnDdl(c: Column, realText: Real -> string): (s: string)
    ensures |s| > |c.name| && s[..|c.name| + 1] == c.name + " "
  {
    c.name + " " + SqlType(c.ty.base)
    + (if IsNotNull(c) then NOT_NULL_SUFFIX else "")
    + (if c.default.Some? then DEFAULT_INFIX + DefaultLiteral(c.default.value, realText) else "")
  }

  // ---------------------------------------------------------------------
  // Reading a column declaration back

  /** The parts a column declaration is made of. */
  datatype ColumnDecl = ColumnDecl(name: string, sqlType: string, notNull: bool, literal: Option<string>)

  predicate StartsWith(p: string, s: string)
  {
    |p| <= |s| && s[..|p|] == p
  }

  /** Position of the first c in s, |s| when there is none. */
  function IndexOf(c: char, s: string): (k: nat)
    ensures k <= |s|
    ensures forall j :: 0 <= j < k ==> s[j] != c
    ensures k < |s| ==> s[k] == c
    decreases |s|
  {
    if |s| == 0 then 0
    else if s[0] == c then 0
    else
      var k := 1 + IndexOf(c, s[1..]);
      assert forall j :: 1 <= j < k ==> s[j] == s[1..][j - 1];
      k
  }

  function ParseSqlType(s: string): Option<string>
  {
    if StartsWith("INTEGER", s) then Some("INTEGER")
    else if StartsWith("REAL", s) then Some("REAL")
    else if StartsWith("TEXT", s) then Some("TEXT")
    else None
  }

  /** What may follow the type keyword. */
  datatype Modifiers = Modifiers(notNull: bool, literal: Option<string>)

  function ParseModifiers(s: string): Option<Modifiers>
  {
    var notNull := StartsWith(NOT_NULL_SUFFIX, s);
    var afterNull := if notNull then s[|NOT_NULL_SUFFIX|..] else s;
    if afterNull == "" then Some(Modifiers(notNull, None))
    else if StartsWith(DEFAULT_INFIX, afterNull) then Some(Modifiers(notNull, Some(afterNull[|DEFAULT_INFIX|..])))
    else None
  }

  /** Splits a declaration as DATATYPE() lays it out. */
  function ParseColumnDdl(s: string): Option<ColumnDecl>
  {
    var k := IndexOf(' ', s);
    if k == |s| then None
    else
      var rest := s[k + 1..];
      match ParseSqlType(rest)
      case None => None
      case Some(ty) =>
        match ParseModifiers(rest[|ty|..])
        case None => None
        case Some(m) => Some(ColumnDecl(s[..k], ty, m.notNull, m.literal))
  }

  lemma IndexOfPrefix(c: char, x: string, rest: string)
    requires c !in x
    ensures IndexOf(c, x + [c] + rest) == |x|
  {
    var s := x + [c] + rest;
    assert s[|x|] == c;
    assert forall j :: 0 <= j < |x| ==> s[j] == x[j];
  }

  lemma SqlTypeRoundTrip(b: BaseType, m: string)
    ensures ParseSqlType(SqlType(b) + m) == Some(SqlType(b))
  {
    var ty := SqlType(b);
    var rest := ty + m;
    assert rest[..|ty|] == ty;
    if ty == "REAL" {
      assert rest[0] == 'R';
    } else if ty == "TEXT" {
      assert rest[0] == 'T';
    }
  }

  /** What follows the type keyword in a declaration. */
  function ModifierText(notNull: bool, literal: Option<string>): string
  {
    (if notNull then NOT_NULL_SUFFIX else "") + (if literal.Some? then DEFAULT_INFIX + literal.value else "")
  }

  lemma ModifiersRoundTrip(notNull: bool, literal: Option<string>)
    ensures ParseModifiers(ModifierText(notNull, literal)) == Some(Modifiers(notNull, literal))
  {
    var nn := if notNull then NOT_NULL_SUFFIX else "";
    var df := if literal.Some? then DEFAULT_INFIX + literal.value else "";
    var s := nn + df;
    assert s == ModifierText(notNull, literal);
    var afterNull := if notNull then s[|NOT_NULL_SUFFIX|..] else s;
    if notNull {
      assert s[..|NOT_NULL_SUFFIX|] == NOT_NULL_SUFFIX;
      assert StartsWith(NOT_NULL_SUFFIX, s);
      assert afterNull == df;
    } else {
      assert s == df;
      if literal.Some? {
        assert s[1] == 'D' != NOT_NULL_SUFFIX[1];
      }
      assert !StartsWith(NOT_NULL_SUFFIX, s);
      assert afterNull == df;
    }
    if literal.Some? {
      assert df[..|DEFAULT_INFIX|] == DEFAULT_INFIX;
      assert StartsWith(DEFAULT_INFIX, afterNull);
      assert afterNull[|DEFAULT_INFIX|..] == literal.value;
      assert afterNull != "";
    } else {
      assert afterNull == "";
    }
  }

  /** A declaration laid out from its parts is split back into them. */
  lemma DeclRoundTrip(name: string, b: BaseType, notNull: bool, literal: Option<string>)
    requires ' ' !in name
    ensures ParseColumnDdl(name + " " + (SqlType(b) + ModifierText(notNull, literal)))
            == Some(ColumnDecl(name, SqlType(b), notNull, literal))
  {
    var ty := SqlType(b);
    var mods := ModifierText(notNull, literal);
    var s := name + " " + (ty + mods);
    assert s == name + [' '] + (ty + mods);
    IndexOfPrefix(' ', name, ty + mods);
    assert s[..|name|] == name;
    var rest := s[|name| + 1..];
    assert rest == ty + mods;
    SqlTypeRoundTrip(b, mods);
    assert rest[|ty|..] == mods;
    ModifiersRoundTrip(notNull, literal);
  }

  /** A declaration whose column name holds no space is read back into its
      name, type keyword, NOT NULL marker and default literal. */
  lemma ColumnDdlRoundTrip(c: Column, realText: Real -> string)
    requires ' ' !in c.name
    ensures ParseColumnDdl(ColumnDdl(c, realText)) == Some(ColumnDecl(
      c.name, SqlType(c.ty.base), IsNotNull(c),
      if c.default.Some? then Some(DefaultLiteral(c.default.value, realText)) else None))
  {
    var literal := if c.default.Some? then Some(DefaultLiteral(c.default.value, realText)) else None;
    assert ColumnDdl(c, realText) == c.name + " " + (SqlType(c.ty.base) + ModifierText(IsNotNull(c), literal));
    DeclRoundTrip(c.name, c.ty.base, IsNotNull(c), literal);
  }

  // ---------------------------------------------------------------------
  // Table contents

  function ColumnDdls(cols: seq<Column>, realText: Real -> string): (ds: seq<string>)
    ensures |ds| == |cols|
    ensures forall i :: 0 <= i < |cols| ==> ds[i] == ColumnDdl(cols[i], realText)
  {
    if |cols| == 0 then [] else [ColumnDdl(cols[0], realText)] + ColumnDdls(cols[1..], realText)
  }

  /** The column declarations, comma-separated. */
  function TableContents(cols: seq<Column>, realText: Real -> string): string
  {
    Join(",", ColumnDdls(cols, realText))
  }

  /** Join with sep of a sequence, seen element by element. */
  function JoinPrefix(sep: string, xs: seq<string>, n: nat): string
    requires 0 < n <= |xs|
  {
    Join(sep, xs[..n])
  }

  lemma JoinPrefixStep(sep: string, xs: seq<string>, n: nat)
    requires 0 < n < |xs|
    ensures JoinPrefix(sep, xs, n + 1) == JoinPrefix(sep, xs, n) + sep + xs[n]
  {
    assert xs[..n + 1] == xs[..n] + [xs[n]];
    JoinSnoc(sep, xs[..n], xs[n]);
  }

  /** createTableContents: every declaration but the last followed by ",",
      then the last one. */
  method BuildTableContents(cols: seq<Column>, realText: Real -> string) returns (query: string)
    requires |cols| > 0
    ensures query == TableContents(cols, realText)
  {
    var ds := ColumnDdls(cols, realText);
    query := "";
    var i := 0;
    while i < |cols| - 1
      invariant 0 <= i <= |cols| - 1
      invariant i == 0 ==> query == ""
      invariant i > 0 ==> query == JoinPrefix(",", ds, i) + ","
    {
      if i > 0 {
        JoinPrefixStep(",", ds, i);
      }
      query := query + ColumnDdl(cols[i], realText) + ",";
      i := i + 1;
    }
    query := query + ColumnDdl(cols[i], realText);
    if i > 0 {
      JoinPrefixStep(",", ds, i);
    }
    assert ds[..|cols|] == ds;
  }

  /** createColumnNameList: the column names, comma-separated. */
  method BuildColumnNameList(cols: seq<Column>) returns (query: string)
    requires |cols| > 0
    ensures query == Join(",", ColumnNames(cols))
  {
    var names := ColumnNames(cols);
    query := "";
    var i := 0;
    while i < |cols| - 1
      invariant 0 <= i <= |cols| - 1
      invariant i == 0 ==> query == ""
      invariant i > 0 ==> query == JoinPrefix(",", names, i) + ","
    {
      if i > 0 {
        JoinPrefixStep(",", names, i);
      }
      query := query + cols[i].name + ",";
      i := i + 1;
    }
    query := query + cols[i].name;
    if i > 0 {
      JoinPrefixStep(",", names, i);
    }
    assert names[..|cols|] == names;
  }

  /** createColumnNameQuestionMarkList: one "?" per column, comma-separated. */
  method BuildQuestionMarkList(n: nat) returns (query: string)
    requires n > 0
    ensures query == Join(",", Repeat("?", n))
  {
    var marks := Repeat("?", n);
    query := "";
    var i := 0;
    while i < n - 1
      invariant 0 <= i <= n - 1
      invariant i == 0 ==> query == ""
      invariant i > 0 ==> query == JoinPrefix(",", marks, i) + ","
    {
      if i > 0 {
        JoinPrefixStep(",", marks, i);
      }
      query := query + "?,";
      i := i + 1;
    }
    query := query + "?";
    if i > 0 {
      JoinPrefixStep(",", marks, i);
    }
    assert marks[..n] == marks;
  }

  // ---------------------------------------------------------------------
  // Primary key clause

  /** The clause the primary-key builder is meant to produce: empty when
      there is no key column, otherwise the key names in declaration order. */
  function PrimaryKeyClause(cols: seq<Column>): string
  {
    if PrimaryKeyCount(cols) == 0 then ""
    else "PRIMARY KEY(" + Join(",", PrimaryKeyNames(cols)) + ")"
  }

  lemma {:induction false} PrimaryKeyNamesSnoc(cols: seq<Column>, i: nat)
    requires i < |cols|
    ensures PrimaryKeyNames(cols[..i + 1])
         == PrimaryKeyNames(cols[..i]) + (if IsPrimaryKey(cols[i]) then [cols[i].name] else [])
  {
    assert cols[..i + 1] == cols[..i] + [cols[i]];
    PrimaryKeyNamesAppend(cols[..i], [cols[i]]);
    assert [cols[i]][1..] == [];
  }

  lemma Regroup(p: string, w: string, name: string)
    ensures p + w + name + "," == p + (w + name + ",")
    ensures p + w + name == p + (w + name)
  {
  }

  /** The key names written so far, each followed by a comma. */
  function KeysWritten(names: seq<string>): string
  {
    if |names| == 0 then "" else Join(",", names) + ","
  }

  /** Writing one more key name, with or without the comma after it. */
  lemma KeyWrittenStep(names: seq<string>, name: string)
    ensures KeysWritten(names) + name + "," == KeysWritten(names + [name])
    ensures KeysWritten(names) + name == Join(",", names + [name])
  {
    if |names| > 0 {
      JoinSnoc(",", names, name);
    } else {
      assert names + [name] == [name];
    }
  }

  /** How the key names of cols[..i + 1] and of all of cols relate to those
      of cols[..i]. */
  lemma {:induction false} KeyNamesStep(cols: seq<Column>, i: nat)
    requires i < |cols|
    ensures PrimaryKeyNames(cols[..i + 1])
         == PrimaryKeyNames(cols[..i]) + (if IsPrimaryKey(cols[i]) then [cols[i].name] else [])
    ensures PrimaryKeyNames(cols) == PrimaryKeyNames(cols[..i + 1]) + PrimaryKeyNames(cols[i + 1..])
    ensures i == |cols| - 1 ==> cols[..i + 1] == cols
  {
    PrimaryKeyNamesSnoc(cols, i);
    KeyNamesSplit(cols, i + 1);
  }

  lemma {:induction false} KeyNamesSplit(cols: seq<Column>, j: nat)
    requires j <= |cols|
    ensures PrimaryKeyNames(cols) == PrimaryKeyNames(cols[..j]) + PrimaryKeyNames(cols[j..])
  {
    PrimaryKeyNamesAppend(cols[..j], cols[j..]);
    assert cols[..j] + cols[j..] == cols;
  }

  /** createPrimaryKeyStatement with its traverser: walks the columns from
      the first, counting the keys used so far in usedPks; the key that
      makes usedPks reach the total is written without a trailing comma and
      ends the walk; the last column is written without a test. */
  method BuildPrimaryKeyStatement(cols: seq<Column>) returns (statement: string)
    requires |cols| > 0
    ensures statement == PrimaryKeyClause(cols)
  {
    statement := "";
    var pkCount := PrimaryKeyCount(cols);
    if pkCount > 0 {
      statement := statement + "PRIMARY KEY(";
      var usedPks := 0;
      var i := 0;
      var done := false;
      while !done
        invariant 0 <= i < |cols|
        invariant !done ==> usedPks == |PrimaryKeyNames(cols[..i])| < pkCount
        invariant !done ==> statement == "PRIMARY KEY(" + KeysWritten(PrimaryKeyNames(cols[..i]))
        invariant done ==> statement == "PRIMARY KEY(" + Join(",", PrimaryKeyNames(cols))
        decreases |cols| - i, !done
      {
        ghost var before := PrimaryKeyNames(cols[..i]);
        KeyNamesStep(cols, i);
        KeyWrittenStep(before, cols[i].name);
        Regroup("PRIMARY KEY(", KeysWritten(before), cols[i].name);
        if i == |cols| - 1 {
          // Reached with usedPks < pkCount, so this last column is a key.
          assert PrimaryKeyNames(cols) == before + [cols[i].name];
          statement := statement + cols[i].name;
          done := true;
        } else if usedPks == pkCount {
          done := true;
        } else if IsPrimaryKey(cols[i]) {
          usedPks := usedPks + 1;
          if usedPks == pkCount {
            assert PrimaryKeyNames(cols[i + 1..]) == [];
            assert PrimaryKeyNames(cols) == before + [cols[i].name];
            statement := statement + cols[i].name;
            done := true;
          } else {
            statement := statement + cols[i].name + ",";
            assert statement == "PRIMARY KEY(" + KeysWritten(PrimaryKeyNames(cols[..i + 1]));
            i := i + 1;
          }
        } else {
          assert PrimaryKeyNames(cols[..i + 1]) == before;
          i := i + 1;
        }
      }
      statement := statement + ")";
    }
  }

  // ---------------------------------------------------------------------
  // Statements

  const CREATE_PREFIX: string := "CREATE TABLE IF NOT EXISTS "
  const DROP_PREFIX: string := "DROP TABLE IF EXISTS "

  /** What goes between the parentheses of CREATE TABLE: the contents,
      then "," and the key clause when the table has a key. */
  function CreateTableBodyText(cols: seq<Column>, realText: Real -> string): string
  {
    TableContents(cols, realText)
    + (if PrimaryKeyCount(cols) > 0 then "," + PrimaryKeyClause(cols) else "")
  }

  /** createTableIfNotExists' query. */
  function CreateTableText(t: Table, realText: Real -> string): string
  {
    CREATE_PREFIX + t.name + "(" + CreateTableBodyText(t.columns, realText) + ");"
  }

  /** The key clause is one more comma-separated element of the body, and
      it is present exactly when some column carries the PRIMARY_KEY flag. */
  lemma CreateTableBody(cols: seq<Column>, realText: Real -> string)
    requires |cols| > 0
    ensures (exists i :: 0 <= i < |cols| && IsPrimaryKey(cols[i]))
      ==> CreateTableBodyText(cols, realText) == Join(",", ColumnDdls(cols, realText) + [PrimaryKeyClause(cols)])
    ensures (forall i :: 0 <= i < |cols| ==> !IsPrimaryKey(cols[i]))
      ==> CreateTableBodyText(cols, realText) == Join(",", ColumnDdls(cols, realText))
  {
    PrimaryKeyCountPositive(cols);
    if PrimaryKeyCount(cols) > 0 {
      BodyWithKey(cols, realText);
    }
  }

  lemma BodyWithKey(cols: seq<Column>, realText: Real -> string)
    requires |cols| > 0 && PrimaryKeyCount(cols) > 0
    ensures CreateTableBodyText(cols, realText) == Join(",", ColumnDdls(cols, realText) + [PrimaryKeyClause(cols)])
  {
    assert CreateTableBodyText(cols, realText) == TableContents(cols, realText) + ("," + PrimaryKeyClause(cols));
    JoinAppend(",", ColumnDdls(cols, realText), PrimaryKeyClause(cols));
  }

  lemma JoinAppend(sep: string, xs: seq<string>, y: string)
    requires |xs| > 0
    ensures Join(sep, xs) + (sep + y) == Join(sep, xs + [y])
  {
    JoinSnoc(sep, xs, y);
  }

  /** primaryKeyCount is positive exactly when some column is a key. */
  lemma {:induction false} PrimaryKeyCountPositive(cols: seq<Column>)
    ensures PrimaryKeyCount(cols) > 0 <==> exists i :: 0 <= i < |cols| && IsPrimaryKey(cols[i])
    decreases |cols|
  {
    if |cols| > 0 {
      PrimaryKeyCountPositive(cols[1..]);
      assert PrimaryKeyNames(cols) == (if IsPrimaryKey(cols[0]) then [cols[0].name] else []) + PrimaryKeyNames(cols[1..]);
      assert PrimaryKeyCount(cols) == (if IsPrimaryKey(cols[0]) then 1 else 0) + PrimaryKeyCount(cols[1..]);
      if exists i :: 0 <= i < |cols| && IsPrimaryKey(cols[i]) {
        var i :| 0 <= i < |cols| && IsPrimaryKey(cols[i]);
        if i > 0 {
          assert IsPrimaryKey(cols[1..][i - 1]);
        }
      }
      if exists i :: 0 <= i < |cols| - 1 && IsPrimaryKey(cols[1..][i]) {
        var i :| 0 <= i < |cols| - 1 && IsPrimaryKey(cols[1..][i]);
        assert IsPrimaryKey(cols[i + 1]);
      }
    }
  }

  /** The query createTableIfNotExists hands to the engine. */
  method BuildCreateTableStatement(t: Table, realText: Real -> string) returns (query: string)
    requires ValidTable(t)
    ensures query == CreateTableText(t, realText)
  {
    ghost var head := CREATE_PREFIX + t.name + "(";
    query := CREATE_PREFIX + t.name;
    query := query + "(";
    var contents := BuildTableContents(t.columns, realText);
    query := query + contents;
    var pkCount := PrimaryKeyCount(t.columns);
    if pkCount > 0 {
      query := query + ",";
      var pk := BuildPrimaryKeyStatement(t.columns);
      query := query + pk;
      assert query == head + (contents + ("," + pk));
    } else {
      assert query == head + contents;
    }
    assert query == head + CreateTableBodyText(t.columns, realText);
    query := query + ");";
  }

  /** dropTableIfExists' statement; the table name is read back from it. */
  function DropTableText(t: Table): (s: string)
    ensures StartsWith(DROP_PREFIX, s) && s[|s| - 1] == ';'
    ensures s[|DROP_PREFIX|..|s| - 1] == t.name
  {
    DROP_PREFIX + t.name + ";"
  }

  const INSERT_PREFIX: string := "INSERT INTO "
  const VALUES_INFIX: string := ") VALUES("

  /** createInsertPreparedStatement's text. */
  function InsertText(t: Table): string
    requires ValidTable(t)
  {
    INSERT_PREFIX + t.name + "(" + Join(",", ColumnNames(t.columns))
    + VALUES_INFIX + Join(",", Repeat("?", |t.columns|)) + ");"
  }

  method BuildInsertStatement(t: Table) returns (query: string)
    requires ValidTable(t)
    ensures query == InsertText(t)
  {
    query := INSERT_PREFIX;
    query := query + t.name;
    query := query + "(";
    var names := BuildColumnNameList(t.columns);
    query := query + names;
    query := query + VALUES_INFIX;
    var marks := BuildQuestionMarkList(|t.columns|);
    query := query + marks;
    query := query + ");";
  }

  /** The insert statement carries exactly one parameter mark per column,
      as long as no table or column name contains a '?'. */
  lemma {:induction false} InsertPlaceholders(t: Table)
    requires ValidTable(t)
    requires '?' !in t.name
    requires forall i :: 0 <= i < |t.columns| ==> '?' !in t.columns[i].name
    ensures Occurrences('?', InsertText(t)) == |t.columns|
  {
    var names := Join(",", ColumnNames(t.columns));
    var marks := Join(",", Repeat("?", |t.columns|));
    NoMarkInJoin(ColumnNames(t.columns));
    PlaceholderList(|t.columns|);
    OccurrencesAbsent('?', INSERT_PREFIX + t.name + "(" + names + VALUES_INFIX);
    OccurrencesAbsent('?', ");");
    OccurrencesAppend('?', INSERT_PREFIX + t.name + "(" + names + VALUES_INFIX, marks);
    OccurrencesAppend('?', INSERT_PREFIX + t.name + "(" + names + VALUES_INFIX + marks, ");");
  }

  lemma {:induction false} NoMarkInJoin(xs: seq<string>)
    requires forall i :: 0 <= i < |xs| ==> '?' !in xs[i]
    ensures '?' !in Join(",", xs)
    decreases |xs|
  {
    if |xs| > 1 {
      NoMarkInJoin(xs[1..]);
    }
  }

  /** The column list of the insert statement splits back into the column
      names when none contains a comma. */
  lemma InsertColumnList(t: Table)
    requires ValidTable(t)
    requires forall i :: 0 <= i < |t.columns| ==> ',' !in t.columns[i].name
    ensures Split(',', Join(",", ColumnNames(t.columns))) == ColumnNames(t.columns)
  {
    SplitJoin(',', ColumnNames(t.columns));
  }

  /** selectAll's query. */
  function SelectAllText(t: Table): string
  {
    "SELECT * FROM " + t.name + ";"
  }

  /** The query of the single-column select. */
  function SelectColumnText(column: string, t: Table): string
  {
    "SELECT " + column + " FROM " + t.name + ";"
  }
}
