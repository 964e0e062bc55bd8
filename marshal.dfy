/** Value marshaling between record fields and engine values: the binders,
    the member assigners used by selectAll and the custom select, the single
    value assigner, and the column traversers that apply them to a whole
    record (include/sqlite_tools.h:973-1370). */
module Marshal {
  import opened Text
  import opened Nullables
  import opened Schema
  import opened Engine

  // ---------------------------------------------------------------------
  // SQLiteValueBinder

  function ScalarCell(v: Scalar): Cell
  {
    match v
    case IntVal(i) => IntCell(i as int as Int64)
    case DoubleVal(d) => RealCell(d)
    case TextVal(s) => TextCell(s)
    case BoolVal(b) => IntCell(if b then 1 else 0)
  }

  /** The engine value a field is bound as: NULL for a null Nullable, the
      inner value otherwise, and 1 or 0 for a bool. Text is bound with its
      explicit length, so it is passed whole. */
  function BindValue(f: Field): (c: Cell)
    ensures c.NullCell? <==> f.Wrapped? && f.n.isNull
    ensures f.Plain? && f.v.BoolVal? ==> c == IntCell(if f.v.b then 1 else 0)
    ensures f.Wrapped? && !f.n.isNull ==> c == ScalarCell(f.n.value)
    ensures f.Wrapped? && !f.n.isNull && f.n.value.BoolVal? ==> c == IntCell(if f.n.value.b then 1 else 0)
  {
    match f
    case Plain(v) => ScalarCell(v)
    case Wrapped(n) => if n.isNull then NullCell else ScalarCell(n.value)
  }

  // ---------------------------------------------------------------------
  // SQLiteMemberAssigner and SQLiteValueAssigner

  /** The storage class a field type is read from when it is not NULL. */
  predicate StorageMatches(b: BaseType, c: Cell)
  {
    match b
    case IntType => c.IntCell?
    case BoolType => c.IntCell?
    case DoubleType => c.RealCell?
    case TextType => c.TextCell?
  }

  /** A cell the member assigner of a field type reads without failing one
      of its asserts (a Nullable checks the storage class) and without
      building a string from a NULL text pointer (a plain string). */
  predicate Readable(ty: ColType, c: Cell)
  {
    if ty.nullable then c.NullCell? || StorageMatches(ty.base, c)
    else ty.base == TextType ==> !c.NullCell?
  }

  /** A cell the single-value assigner reads: it exists for int, double and
      string and their Nullables, not for bool; a plain type asserts the
      cell is not NULL. */
  predicate ValueReadable(ty: ColType, c: Cell)
  {
    && ty.base != BoolType
    && (if ty.nullable then c.NullCell? || StorageMatches(ty.base, c) else !c.NullCell?)
  }

  /** The value a non-NULL read produces. Text goes through a C string, so
      it ends at its first NUL character. */
  function ReadScalar(conv: Conversions, b: BaseType, c: Cell): (v: Scalar)
    requires b == TextType ==> !c.NullCell?
    ensures TypeOf(v) == b
  {
    match b
    case IntType => IntVal(ColumnInt(conv, c))
    case DoubleType => DoubleVal(ColumnDouble(conv, c))
    case TextType => TextVal(CString(ColumnText(conv, c).value))
    case BoolType => BoolVal(ColumnInt(conv, c) != 0)
  }

  /** assignMember: the new value of a field of type ty read from cell c.
      A NULL read into a Nullable only sets its marker. */
  function AssignMember(conv: Conversions, f: Field, ty: ColType, c: Cell): (r: Field)
    requires FieldHasType(f, ty) && Readable(ty, c)
    ensures FieldHasType(r, ty)
    ensures ty.nullable && c.NullCell? ==> r.n.isNull && r.n.value == f.n.value
    ensures ty.nullable && !c.NullCell? ==> !r.n.isNull
    ensures ty.base == BoolType && c.IntCell? ==> (if ty.nullable then r.n.value else r.v) == BoolVal(Wrap32(c.i as int) != 0)
  {
    if !ty.nullable then Plain(ReadScalar(conv, ty.base, c))
    else if ColumnType(c) == SQLITE_NULL then Wrapped(f.n.(isNull := true))
    else Wrapped(f.n.(isNull := false, value := ReadScalar(conv, ty.base, c)))
  }

  /** assignValue: the single-column select's read of result column 0. A
      plain type reads the cell directly; a Nullable sets its marker from
      the storage class and reads the value only when the cell is not NULL.
      Written as the value assigner is, and proved to agree with the member
      assigner on every cell it accepts. */
  function AssignValue(conv: Conversions, f: Field, ty: ColType, c: Cell): (r: Field)
    requires FieldHasType(f, ty) && ValueReadable(ty, c)
    ensures FieldHasType(r, ty)
    ensures !ty.nullable ==> r == Plain(ReadScalar(conv, ty.base, c))
    ensures ty.nullable ==> (r.n.isNull <==> c.NullCell?)
    ensures ty.nullable && c.NullCell? ==> r.n.value == f.n.value
    ensures ty.nullable && !c.NullCell? ==> r.n.value == ReadScalar(conv, ty.base, c)
    ensures r == AssignMember(conv, f, ty, c)
  {
    if !ty.nullable then Plain(ReadScalar(conv, ty.base, c))
    else
      var isNull := ColumnType(c) == SQLITE_NULL;
      Wrapped(f.n.(isNull := isNull, value := if isNull then f.n.value else ReadScalar(conv, ty.base, c)))
  }

  // ---------------------------------------------------------------------
  // Round trip of one field

  predicate NoNulScalar(v: Scalar)
  {
    v.TextVal? ==> '\0' !in v.s
  }

  /** Text in a field holds no NUL character. */
  predicate NoNul(f: Field)
  {
    match f
    case Plain(v) => NoNulScalar(v)
    case Wrapped(n) => NoNulScalar(n.value)
  }

  /** What reading a field back can preserve: a plain value exactly, a
      Nullable's marker, and its value when it is not null. */
  predicate Observed(a: Field, b: Field)
  {
    match a
    case Plain(v) => b == Plain(v)
    case Wrapped(n) => b.Wrapped? && Agree(n, b.n)
  }

  lemma ScalarRoundTrip(conv: Conversions, v: Scalar)
    requires NoNulScalar(v)
    ensures ReadScalar(conv, TypeOf(v), ScalarCell(v)) == v
  {
    match v
    case IntVal(i) =>
    case DoubleVal(_) =>
    case TextVal(s) => CStringOfPlainText(s);
    case BoolVal(b) =>
  }

  /** Binding a field and assigning the bound value back into a field of
      the same type (whatever it held) gives the field back, as far as it
      is observed. */
  lemma BindAssignRoundTrip(conv: Conversions, f: Field, g: Field, ty: ColType)
    requires FieldHasType(f, ty) && FieldHasType(g, ty) && NoNul(f)
    ensures Readable(ty, BindValue(f))
    ensures Observed(f, AssignMember(conv, g, ty, BindValue(f)))
  {
    match f
    case Plain(v) =>
      ScalarRoundTrip(conv, v);
    case Wrapped(n) =>
      if !n.isNull {
        ScalarRoundTrip(conv, n.value);
      }
  }

  /** A text with a NUL character does not survive the round trip: the
      text is bound whole, and what is read back stops at the first NUL. */
  lemma TextWithNulIsCut(conv: Conversions, g: Field, s: string)
    requires FieldHasType(g, ColType(TextType, false)) && '\0' in s
    ensures var r := AssignMember(conv, g, ColType(TextType, false), BindValue(Plain(TextVal(s))));
      && r == Plain(TextVal(CString(s))) && |r.v.s| < |s| && s[|r.v.s|] == '\0' && r.v.s == s[..|r.v.s|]
  {
  }

  // ---------------------------------------------------------------------
  // iterateAndBindValues

  /** Every column maps a field of the record. */
  predicate FieldsIn(cols: seq<Column>, rec: Record)
  {
    forall i :: 0 <= i < |cols| ==> cols[i].field < |rec|
  }

  /** Binds columns i.. to positions i+1.., stopping at the first status
      that is not OK. */
  function BindFrom(st: EngineState, cols: seq<Column>, rec: Record, i: nat): Reply
    requires i <= |cols| && FieldsIn(cols, rec)
    decreases |cols| - i
  {
    if i == |cols| then Reply(SQLITE_OK, st)
    else
      var b := Bind(st, i + 1, BindValue(rec[cols[i].field]));
      if b.code != SQLITE_OK then b else BindFrom(b.st, cols, rec, i + 1)
  }

  /** The parameters a whole record binds, columns i.. at positions i+1... */
  function BoundFrom(params: map<int, Cell>, cols: seq<Column>, rec: Record, i: nat): map<int, Cell>
    requires i <= |cols| && FieldsIn(cols, rec)
    decreases |cols| - i
  {
    if i == |cols| then params
    else BoundFrom(params[i + 1 := BindValue(rec[cols[i].field])], cols, rec, i + 1)
  }

  /** The first n scripted bind codes are all OK (an empty script is OK). */
  predicate BindsSucceed(codes: seq<int>, n: nat)
  {
    forall k :: 0 <= k < n && k < |codes| ==> codes[k] == SQLITE_OK
  }

  /** When the engine accepts every bind, binding a record succeeds and
      leaves exactly its values bound; otherwise it fails. */
  lemma {:induction false} BindFromOutcome(st: EngineState, cols: seq<Column>, rec: Record, i: nat)
    requires i <= |cols| && FieldsIn(cols, rec)
    ensures var r := BindFrom(st, cols, rec, i);
      && (BindsSucceed(st.script.bind, |cols| - i) ==> r.code == SQLITE_OK && r.st.params == BoundFrom(st.params, cols, rec, i))
      && (r.code == SQLITE_OK ==> BindsSucceed(st.script.bind, |cols| - i))
      && r.st.completed == st.completed && r.st.script.steps == st.script.steps
      && r.st.log == st.log && r.st.live == st.live && r.st.conv == st.conv
    decreases |cols| - i
  {
    if i < |cols| {
      var b := Bind(st, i + 1, BindValue(rec[cols[i].field]));
      BindFromOutcome(b.st, cols, rec, i + 1);
      if |st.script.bind| > 0 {
        assert b.st.script.bind == st.script.bind[1..];
        if BindsSucceed(st.script.bind, |cols| - i) {
          assert st.script.bind[0] == SQLITE_OK;
          assert BindsSucceed(b.st.script.bind, |cols| - (i + 1)) by {
            forall k | 0 <= k < |cols| - (i + 1) && k < |b.st.script.bind|
              ensures b.st.script.bind[k] == SQLITE_OK
            {
              assert b.st.script.bind[k] == st.script.bind[k + 1];
            }
          }
        }
        if b.code == SQLITE_OK && BindsSucceed(b.st.script.bind, |cols| - (i + 1)) {
          assert BindsSucceed(st.script.bind, |cols| - i) by {
            forall k | 0 <= k < |cols| - i && k < |st.script.bind|
              ensures st.script.bind[k] == SQLITE_OK
            {
              if k > 0 {
                assert st.script.bind[k] == b.st.script.bind[k - 1];
              }
            }
          }
        }
      } else {
        assert b.st.script.bind == [];
      }
    }
  }

  /** The parameters columns i..end-1 leave bound at positions i+1..end. */
  function BoundUpTo(params: map<int, Cell>, cols: seq<Column>, rec: Record, i: nat, end: nat): map<int, Cell>
    requires i <= end <= |cols| && FieldsIn(cols, rec)
    decreases end - i
  {
    if i == end then params
    else BoundUpTo(params[i + 1 := BindValue(rec[cols[i].field])], cols, rec, i + 1, end)
  }

  /** Up to the last column, BoundUpTo is the full binding. */
  lemma {:induction false} BoundUpToAll(params: map<int, Cell>, cols: seq<Column>, rec: Record, i: nat)
    requires i <= |cols| && FieldsIn(cols, rec)
    ensures BoundUpTo(params, cols, rec, i, |cols|) == BoundFrom(params, cols, rec, i)
    decreases |cols| - i
  {
    if i < |cols| {
      BoundUpToAll(params[i + 1 := BindValue(rec[cols[i].field])], cols, rec, i + 1);
    }
  }

  /** Binding stops at the first refusal: its code is returned, and only
      the columns before it are bound. */
  lemma {:induction false} BindFromFirstRefusal(st: EngineState, cols: seq<Column>, rec: Record, i: nat)
    requires i <= |cols| && FieldsIn(cols, rec)
    ensures var r := BindFrom(st, cols, rec, i);
      var k := FirstFailure(st.script.bind, |cols| - i);
      k < |cols| - i ==> r.code == st.script.bind[k] && r.st.params == BoundUpTo(st.params, cols, rec, i, i + k)
    decreases |cols| - i
  {
    var k := FirstFailure(st.script.bind, |cols| - i);
    if i < |cols| && k < |cols| - i {
      var b := Bind(st, i + 1, BindValue(rec[cols[i].field]));
      if k > 0 {
        assert st.script.bind[0] == SQLITE_OK;
        assert b.code == SQLITE_OK && b.st.script.bind == st.script.bind[1..];
        assert k - 1 == FirstFailure(b.st.script.bind, |cols| - (i + 1));
        BindFromFirstRefusal(b.st, cols, rec, i + 1);
        assert st.script.bind[k] == b.st.script.bind[k - 1];
      } else {
        assert b.code == st.script.bind[0] != SQLITE_OK;
      }
    }
  }

  /** Position p holds the value of column p-1 after a full bind. */
  lemma {:induction false} BoundFromValues(params: map<int, Cell>, cols: seq<Column>, rec: Record, i: nat)
    requires i <= |cols| && FieldsIn(cols, rec)
    ensures forall p :: i + 1 <= p <= |cols| ==> p in BoundFrom(params, cols, rec, i)
    ensures forall p :: i + 1 <= p <= |cols| ==> BoundFrom(params, cols, rec, i)[p] == BindValue(rec[cols[p - 1].field])
    ensures forall p :: p in params && !(i + 1 <= p <= |cols|) ==> p in BoundFrom(params, cols, rec, i) && BoundFrom(params, cols, rec, i)[p] == params[p]
    decreases |cols| - i
  {
    if i < |cols| {
      var next := params[i + 1 := BindValue(rec[cols[i].field])];
      BoundFromValues(next, cols, rec, i + 1);
      assert i + 1 in next;
    }
  }

  // ---------------------------------------------------------------------
  // iterateAndAssignMembers

  /** Columns i.. of the result row can be read into their fields. */
  predicate RowFits(cols: seq<Column>, row: seq<ResultColumn>)
  {
    |row| >= |cols| && forall i :: 0 <= i < |cols| ==> Readable(cols[i].ty, row[i].cell)
  }

  /** Each column's type is the type of the field it maps, so two columns
      that share a field share its type. */
  lemma FieldTypeUnique(f: Field, t1: ColType, t2: ColType)
    requires FieldHasType(f, t1) && FieldHasType(f, t2)
    ensures t1 == t2
  {
  }

  lemma ConformsUpdate(cols: seq<Column>, rec: Record, i: nat, v: Field)
    requires Conforms(cols, rec) && i < |cols| && FieldHasType(v, cols[i].ty)
    ensures Conforms(cols, rec[cols[i].field := v])
  {
    var r := rec[cols[i].field := v];
    forall k | 0 <= k < |cols|
      ensures cols[k].field < |r| && FieldHasType(r[cols[k].field], cols[k].ty)
    {
      if cols[k].field == cols[i].field {
        FieldTypeUnique(rec[cols[i].field], cols[k].ty, cols[i].ty);
      }
    }
  }

  /** Ordinal assignment of columns i..: column k reads result column k. */
  function AssignFrom(conv: Conversions, cols: seq<Column>, rec: Record, row: seq<ResultColumn>, i: nat): (r: Record)
    requires i <= |cols| && Conforms(cols, rec) && RowFits(cols, row)
    ensures |r| == |rec| && Conforms(cols, r)
    decreases |cols| - i
  {
    if i == |cols| then rec
    else
      var f := cols[i].field;
      var v := AssignMember(conv, rec[f], cols[i].ty, row[i].cell);
      ConformsUpdate(cols, rec, i, v);
      AssignFrom(conv, cols, rec[f := v], row, i + 1)
  }

  /** No two columns map the same field. */
  predicate DistinctFields(cols: seq<Column>)
  {
    forall i, j :: 0 <= i < j < |cols| ==> cols[i].field != cols[j].field
  }

  /** With distinct fields, ordinal assignment sets each mapped field from
      its own result column and leaves every other field as it was. */
  lemma {:induction false} AssignFromFields(conv: Conversions, cols: seq<Column>, rec: Record, row: seq<ResultColumn>, i: nat)
    requires i <= |cols| && Conforms(cols, rec) && RowFits(cols, row) && DistinctFields(cols)
    ensures var r := AssignFrom(conv, cols, rec, row, i);
      && (forall k :: i <= k < |cols| ==> r[cols[k].field] == AssignMember(conv, rec[cols[k].field], cols[k].ty, row[k].cell))
      && (forall f :: 0 <= f < |rec| && (forall k :: i <= k < |cols| ==> cols[k].field != f) ==> r[f] == rec[f])
    decreases |cols| - i
  {
    if i < |cols| {
      var f := cols[i].field;
      var v := AssignMember(conv, rec[f], cols[i].ty, row[i].cell);
      ConformsUpdate(cols, rec, i, v);
      AssignFromFields(conv, cols, rec[f := v], row, i + 1);
    }
  }

  /** The result row a bound record would come back as. */
  function BoundRow(cols: seq<Column>, rec: Record): (row: seq<ResultColumn>)
    requires FieldsIn(cols, rec)
    ensures |row| == |cols|
    ensures forall i :: 0 <= i < |cols| ==> row[i] == ResultColumn(cols[i].name, BindValue(rec[cols[i].field]))
  {
    seq(|cols|, i requires 0 <= i < |cols| => ResultColumn(cols[i].name, BindValue(rec[cols[i].field])))
  }

  /** A record read back by selectAll from the values it was bound with is
      the record again, as far as it is observed, whatever the reused row
      held before. */
  lemma RecordRoundTrip(conv: Conversions, cols: seq<Column>, rec: Record, prev: Record)
    requires Conforms(cols, rec) && Conforms(cols, prev) && |prev| == |rec| && DistinctFields(cols)
    requires forall i :: 0 <= i < |cols| ==> NoNul(rec[cols[i].field])
    ensures RowFits(cols, BoundRow(cols, rec))
    ensures var r := AssignFrom(conv, cols, prev, BoundRow(cols, rec), 0);
      forall i :: 0 <= i < |cols| ==> Observed(rec[cols[i].field], r[cols[i].field])
  {
    var row := BoundRow(cols, rec);
    forall i | 0 <= i < |cols|
      ensures Readable(cols[i].ty, row[i].cell)
    {
      BindAssignRoundTrip(conv, rec[cols[i].field], prev[cols[i].field], cols[i].ty);
    }
    AssignFromFields(conv, cols, prev, row, 0);
    forall i | 0 <= i < |cols|
      ensures Observed(rec[cols[i].field], AssignFrom(conv, cols, prev, row, 0)[cols[i].field])
    {
      BindAssignRoundTrip(conv, rec[cols[i].field], prev[cols[i].field], cols[i].ty);
    }
  }

  // ---------------------------------------------------------------------
  // iterateAndAssignMembersByColumnName

  /** ColName == : same length and the same characters. */
  predicate ColNameEquals(name: string, other: string)
  {
    |other| == |name| && forall i :: 0 <= i < |name| ==> other[i] == name[i]
  }

  lemma ColNameEqualsIsEquality(name: string, other: string)
    ensures ColNameEquals(name, other) <==> name == other
  {
    if ColNameEquals(name, other) {
      assert name == other;
    }
  }

  /** A shared prefix is not enough: "portions" does not name the
      column "portions_unit" nor the other way round. */
  lemma PrefixIsNotAMatch()
    ensures !ColNameEquals("portions", "portions_unit") && !ColNameEquals("portions_unit", "portions")
  {
  }

  /** The first declared column with the given name, |cols| when none. */
  function FirstNamed(cols: seq<Column>, name: string): (k: nat)
    ensures k <= |cols|
    ensures k < |cols| ==> cols[k].name == name
    ensures forall j :: 0 <= j < k ==> cols[j].name != name
    decreases |cols|
  {
    if |cols| == 0 then 0
    else if ColNameEquals(cols[0].name, name) then (ColNameEqualsIsEquality(cols[0].name, name); 0)
    else
      ColNameEqualsIsEquality(cols[0].name, name);
      var k := 1 + FirstNamed(cols[1..], name);
      assert forall j :: 1 <= j < k ==> cols[j] == cols[1..][j - 1];
      k
  }

  /** A result column can be read into the first declared column of its
      name, when there is one. */
  predicate NamedFits(cols: seq<Column>, rc: ResultColumn)
  {
    var k := FirstNamed(cols, rc.name);
    k < |cols| ==> Readable(cols[k].ty, rc.cell)
  }

  /** By-name assignment of one result column, scanning the declared
      columns from i: the first whose name equals the result column's takes
      the value and the scan answers true; none answers false. */
  function AssignByNameFrom(conv: Conversions, cols: seq<Column>, rec: Record, rc: ResultColumn, i: nat): (r: (bool, Record))
    requires i <= |cols| && Conforms(cols, rec) && NamedFits(cols, rc)
    requires forall j :: 0 <= j < i ==> cols[j].name != rc.name
    ensures |r.1| == |rec| && Conforms(cols, r.1)
    decreases |cols| - i
  {
    if i == |cols| then (false, rec)
    else if ColNameEquals(cols[i].name, rc.name) then
      ColNameEqualsIsEquality(cols[i].name, rc.name);
      var v := AssignMember(conv, rec[cols[i].field], cols[i].ty, rc.cell);
      ConformsUpdate(cols, rec, i, v);
      (true, rec[cols[i].field := v])
    else
      ColNameEqualsIsEquality(cols[i].name, rc.name);
      AssignByNameFrom(conv, cols, rec, rc, i + 1)
  }

  /** The scan answers true exactly when some declared column has the
      name; it then writes the first such column's field and nothing else,
      and otherwise leaves the record as it was. */
  lemma {:induction false} AssignByNameOutcome(conv: Conversions, cols: seq<Column>, rec: Record, rc: ResultColumn)
    requires Conforms(cols, rec) && NamedFits(cols, rc)
    ensures var k := FirstNamed(cols, rc.name);
      var r := AssignByNameFrom(conv, cols, rec, rc, 0);
      && (r.0 <==> k < |cols|)
      && (k == |cols| ==> r.1 == rec)
      && (k < |cols| ==> r.1 == rec[cols[k].field := AssignMember(conv, rec[cols[k].field], cols[k].ty, rc.cell)])
  {
    AssignByNameScan(conv, cols, rec, rc, 0);
  }

  lemma {:induction false} AssignByNameScan(conv: Conversions, cols: seq<Column>, rec: Record, rc: ResultColumn, i: nat)
    requires i <= |cols| && Conforms(cols, rec) && NamedFits(cols, rc)
    requires forall j :: 0 <= j < i ==> cols[j].name != rc.name
    ensures var k := FirstNamed(cols, rc.name);
      var r := AssignByNameFrom(conv, cols, rec, rc, i);
      && (r.0 <==> k < |cols|)
      && (k == |cols| ==> r.1 == rec)
      && (k < |cols| ==> r.1 == rec[cols[k].field := AssignMember(conv, rec[cols[k].field], cols[k].ty, rc.cell)])
    decreases |cols| - i
  {
    var k := FirstNamed(cols, rc.name);
    assert k >= i;
    if i < |cols| {
      ColNameEqualsIsEquality(cols[i].name, rc.name);
      if cols[i].name != rc.name {
        AssignByNameScan(conv, cols, rec, rc, i + 1);
      }
    }
  }

  /** The custom select's inner loop: every result column j, in engine
      order, offered to the by-name scan. */
  function AssignRowByName(conv: Conversions, cols: seq<Column>, rec: Record, row: seq<ResultColumn>): (r: Record)
    requires Conforms(cols, rec)
    requires forall j :: 0 <= j < |row| ==> NamedFits(cols, row[j])
    ensures |r| == |rec| && Conforms(cols, r)
    decreases |row|
  {
    if |row| == 0 then rec
    else
      AssignByNameScan(conv, cols, rec, row[0], 0);
      AssignRowByName(conv, cols, AssignByNameFrom(conv, cols, rec, row[0], 0).1, row[1..])
  }

  /** Names and fields both distinct. */
  predicate DistinctColumns(cols: seq<Column>)
  {
    DistinctFields(cols) && forall i, j :: 0 <= i < j < |cols| ==> cols[i].name != cols[j].name
  }

  predicate DistinctNames(row: seq<ResultColumn>)
  {
    forall i, j :: 0 <= i < j < |row| ==> row[i].name != row[j].name
  }

  /** No result column carries the name of any column that maps field f. */
  predicate Unnamed(cols: seq<Column>, row: seq<ResultColumn>, f: nat)
  {
    forall k, j :: 0 <= k < |cols| && cols[k].field == f && 0 <= j < |row| ==> row[j].name != cols[k].name
  }

  /** What the by-name loop knows about the rest of a result row. */
  lemma RowTailFits(cols: seq<Column>, row: seq<ResultColumn>)
    requires |row| > 0 && forall j :: 0 <= j < |row| ==> NamedFits(cols, row[j])
    ensures forall j :: 0 <= j < |row[1..]| ==> NamedFits(cols, row[1..][j])
    ensures forall f :: Unnamed(cols, row, f) ==> Unnamed(cols, row[1..], f)
  {
    forall j | 0 <= j < |row[1..]|
      ensures row[1..][j] == row[j + 1]
    {
    }
  }

  lemma RowTail(cols: seq<Column>, row: seq<ResultColumn>)
    requires |row| > 0 && DistinctNames(row) && forall j :: 0 <= j < |row| ==> NamedFits(cols, row[j])
    ensures DistinctNames(row[1..]) && forall j :: 0 <= j < |row[1..]| ==> NamedFits(cols, row[1..][j])
    ensures forall f :: Unnamed(cols, row, f) ==> Unnamed(cols, row[1..], f)
  {
    var rest := row[1..];
    forall i, j | 0 <= i < j < |rest|
      ensures rest[i].name != rest[j].name
    {
      assert rest[i] == row[i + 1] && rest[j] == row[j + 1];
    }
    RowTailFits(cols, row);
  }

  /** Each field that no result column names keeps the value it had, from
      the previous row, since the record is reused. */
  lemma {:induction false} AssignRowByNameKeeps(conv: Conversions, cols: seq<Column>, rec: Record, row: seq<ResultColumn>)
    requires Conforms(cols, rec)
    requires forall j :: 0 <= j < |row| ==> NamedFits(cols, row[j])
    ensures var r := AssignRowByName(conv, cols, rec, row);
      forall f :: 0 <= f < |rec| && Unnamed(cols, row, f) ==> r[f] == rec[f]
    decreases |row|
  {
    if |row| > 0 {
      AssignByNameOutcome(conv, cols, rec, row[0]);
      var k0 := FirstNamed(cols, row[0].name);
      var rec1 := AssignByNameFrom(conv, cols, rec, row[0], 0).1;
      RowTailFits(cols, row);
      AssignRowByNameKeeps(conv, cols, rec1, row[1..]);
      forall f | 0 <= f < |rec| && Unnamed(cols, row, f)
        ensures rec1[f] == rec[f]
      {
        if k0 < |cols| {
          assert cols[k0].field != f;
        }
      }
    }
  }

  /** By-name assignment does not depend on the order of either side: each
      declared column whose name the result row carries is set from that
      result column. */
  lemma {:induction false} AssignRowByNameFields(conv: Conversions, cols: seq<Column>, rec: Record, row: seq<ResultColumn>)
    requires Conforms(cols, rec) && DistinctColumns(cols) && DistinctNames(row)
    requires forall j :: 0 <= j < |row| ==> NamedFits(cols, row[j])
    ensures var r := AssignRowByName(conv, cols, rec, row);
      forall k, j :: 0 <= k < |cols| && 0 <= j < |row| && row[j].name == cols[k].name
        ==> r[cols[k].field] == AssignMember(conv, rec[cols[k].field], cols[k].ty, row[j].cell)
    decreases |row|
  {
    if |row| > 0 {
      AssignByNameOutcome(conv, cols, rec, row[0]);
      var k0 := FirstNamed(cols, row[0].name);
      var rec1 := AssignByNameFrom(conv, cols, rec, row[0], 0).1;
      var rest := row[1..];
      RowTail(cols, row);
      AssignRowByNameFields(conv, cols, rec1, rest);
      AssignRowByNameKeeps(conv, cols, rec1, rest);
      var r := AssignRowByName(conv, cols, rec1, rest);
      forall k, j | 0 <= k < |cols| && 0 <= j < |row| && row[j].name == cols[k].name
        ensures r[cols[k].field] == AssignMember(conv, rec[cols[k].field], cols[k].ty, row[j].cell)
      {
        if j == 0 {
          assert k0 == k;
          assert Unnamed(cols, rest, cols[k].field) by {
            forall k', j' | 0 <= k' < |cols| && cols[k'].field == cols[k].field && 0 <= j' < |rest|
              ensures rest[j'].name != cols[k'].name
            {
              assert k' == k;
              assert rest[j'] == row[j' + 1];
            }
          }
        } else {
          assert rest[j - 1] == row[j];
          if k0 < |cols| {
            assert k0 != k;
            assert cols[k0].field != cols[k].field;
          }
        }
      }
    }
  }
}
