/** Schema descriptors: the logical types, the column, table and database
    descriptors, and the facts derived from a table's column list
    (include/sqlite_tools.h:341-795, 1946-1966). A record is the sequence
    of its fields and a column names the slot of the field it maps, which
    stands for the C++ member pointer. */
module Schema {
  import opened ColumnFlags
  import opened Nullables

  datatype Option<T> = None | Some(value: T)

  /** C++ int. */
  newtype Int32 = x: int | -0x8000_0000 <= x < 0x8000_0000

  /** A double, kept as its bit pattern: the model passes it through
      unchanged and never computes with it. */
  datatype Real = Real(bits: bv64)

  /** The closed set of field types; bool is stored as an engine INTEGER. */
  datatype BaseType = IntType | DoubleType | TextType | BoolType

  /** T or Nullable<T> for one of the base types. */
  datatype ColType = ColType(base: BaseType, nullable: bool)

  datatype Scalar = IntVal(i: Int32) | DoubleVal(d: Real) | TextVal(s: string) | BoolVal(b: bool)

  function TypeOf(v: Scalar): BaseType
  {
    match v
    case IntVal(_) => IntType
    case DoubleVal(_) => DoubleType
    case TextVal(_) => TextType
    case BoolVal(_) => BoolType
  }

  /** One field of a record: a plain value or a Nullable wrapper. */
  datatype Field = Plain(v: Scalar) | Wrapped(n: Nullable<Scalar>)

  type Record = seq<Field>

  predicate FieldHasType(f: Field, ty: ColType)
  {
    match f
    case Plain(v) => !ty.nullable && TypeOf(v) == ty.base
    case Wrapped(n) => ty.nullable && TypeOf(n.value) == ty.base
  }

  /** ColInfo (default = None) and ColInfoWithDefault (default = Some). */
  datatype Column = Column(name: string, ty: ColType, field: nat, flags: Flags, default: Option<Scalar>)

  /** A pointer to member: which field, and of which declared type. */
  datatype Member = Member(field: nat, ty: ColType)

  datatype Table = Table(name: string, columns: seq<Column>)

  /** DatabaseInfo: the compiled-in name and path, and the tables. */
  datatype Database = Database(name: string, path: string, tables: seq<Table>)

  predicate IsPrimaryKey(c: Column) { FlagSet(c.flags, PRIMARY_KEY) }
  predicate IsNotNull(c: Column) { FlagSet(c.flags, NOT_NULL) }
  /** Decided by which descriptor struct the column is, not by its flags. */
  predicate HasDefaultValue(c: Column) { c.default.Some? }

  /** The static_asserts of hasDefaultValue: the DEFAULT flag goes with a
      default value and only with one; the default has the column's type. */
  predicate DefaultConsistent(c: Column)
  {
    && (FlagSet(c.flags, DEFAULT) <==> c.default.Some?)
    && (c.default.Some? ==> TypeOf(c.default.value) == c.ty.base)
  }

  /** What the compile-time traversers need of a table: at least one
      column (the traversal runs from index 0 to size - 1). */
  predicate ValidTable(t: Table)
  {
    |t.columns| > 0
  }

  predicate ValidDatabase(db: Database)
  {
    |db.tables| > 0 && forall i :: 0 <= i < |db.tables| ==> ValidTable(db.tables[i])
  }

  /** A record has every field a column of the table maps, with its type. */
  predicate Conforms(cols: seq<Column>, rec: Record)
  {
    forall i :: 0 <= i < |cols| ==> cols[i].field < |rec| && FieldHasType(rec[cols[i].field], cols[i].ty)
  }

  // ---------------------------------------------------------------------
  // makeColumnInfo (include/sqlite_tools.h:602-642)

  function WithNotNull(ty: ColType, flags: Flags): Flags
  {
    if ty.nullable then flags else flags | NOT_NULL
  }

  /** Column without default. A plain field always gets NOT_NULL; a
      Nullable one keeps the caller's flags. */
  function MakeColumn(name: string, ty: ColType, field: nat, flags: Flags): (c: Column)
    ensures c.name == name && c.ty == ty && c.field == field && c.default == None
    ensures IsNotNull(c) <==> !ty.nullable || FlagSet(flags, NOT_NULL)
    ensures IsPrimaryKey(c) <==> FlagSet(flags, PRIMARY_KEY)
    ensures FlagSet(c.flags, DEFAULT) <==> FlagSet(flags, DEFAULT)
  {
    Column(name, ty, field, WithNotNull(ty, flags), None)
  }

  /** Column with a default value of the field's (inner) type. */
  function MakeColumnWithDefault(name: string, ty: ColType, field: nat, default: Scalar, flags: Flags): (c: Column)
    requires TypeOf(default) == ty.base
    ensures c.name == name && c.ty == ty && c.field == field && c.default == Some(default)
    ensures IsNotNull(c) <==> !ty.nullable || FlagSet(flags, NOT_NULL)
    ensures IsPrimaryKey(c) <==> FlagSet(flags, PRIMARY_KEY)
    ensures DefaultConsistent(c) <==> FlagSet(flags, DEFAULT)
  {
    Column(name, ty, field, WithNotNull(ty, flags), Some(default))
  }

  // ---------------------------------------------------------------------
  // Derived facts

  /** Names of the primary-key columns, in declaration order. */
  function PrimaryKeyNames(cols: seq<Column>): seq<string>
  {
    if |cols| == 0 then []
    else (if IsPrimaryKey(cols[0]) then [cols[0].name] else []) + PrimaryKeyNames(cols[1..])
  }

  lemma {:induction false} PrimaryKeyNamesAppend(a: seq<Column>, b: seq<Column>)
    ensures PrimaryKeyNames(a + b) == PrimaryKeyNames(a) + PrimaryKeyNames(b)
    decreases |a|
  {
    if |a| == 0 {
      assert a + b == b;
    } else {
      assert (a + b)[0] == a[0];
      assert (a + b)[1..] == a[1..] + b;
      PrimaryKeyNamesAppend(a[1..], b);
    }
  }

  /** primaryKeyCount: summed from the last column down to the first. */
  function PrimaryKeyCount(cols: seq<Column>): (n: nat)
    ensures n == |PrimaryKeyNames(cols)|
    ensures n <= |cols|
    decreases |cols|
  {
    if |cols| == 0 then 0
    else
      var last := cols[|cols| - 1];
      var n := PrimaryKeyCount(cols[..|cols| - 1]) + (if IsPrimaryKey(last) then 1 else 0);
      PrimaryKeyNamesAppend(cols[..|cols| - 1], [last]);
      assert cols[..|cols| - 1] + [last] == cols;
      n
  }

  /** columnCount: one per column, counted from the first. */
  function ColumnCount(cols: seq<Column>): (n: nat)
    requires |cols| > 0
    ensures n == |cols|
    decreases |cols|
  {
    if |cols| == 1 then 1 else 1 + ColumnCount(cols[1..])
  }

  function ColumnNames(cols: seq<Column>): (names: seq<string>)
    ensures |names| == |cols|
    ensures forall i :: 0 <= i < |cols| ==> names[i] == cols[i].name
  {
    if |cols| == 0 then [] else [cols[0].name] + ColumnNames(cols[1..])
  }

  /** MemberPointerComparer: same member of the same type, and the type is
      one of the six it is specialised for (there is none for bool or
      Nullable<bool>). */
  predicate ComparerMatches(c: Column, m: Member)
  {
    c.field == m.field && c.ty == m.ty && c.ty.base != BoolType
  }

  /** getColumnName: the name of the first column whose member matches,
      "" when none does. */
  function GetColumnName(cols: seq<Column>, m: Member): (r: string)
    ensures (exists i :: 0 <= i < |cols| && ComparerMatches(cols[i], m) && r == cols[i].name
               && forall j :: 0 <= j < i ==> !ComparerMatches(cols[j], m))
         || (r == "" && forall i :: 0 <= i < |cols| ==> !ComparerMatches(cols[i], m))
    ensures m.ty.base == BoolType ==> r == ""
    decreases |cols|
  {
    if |cols| == 0 then ""
    else if ComparerMatches(cols[0], m) then cols[0].name
    else
      var r := GetColumnName(cols[1..], m);
      assert forall i :: 1 <= i < |cols| ==> cols[i] == cols[1..][i - 1];
      r
  }

  /** (size_t)-1 */
  const SIZE_MAX: nat := 0xFFFF_FFFF_FFFF_FFFF

  /** getColumnInfoPosition: scans from the last column to the first, so
      the last column with that name is found; SIZE_MAX when none has it. */
  function GetColumnInfoPosition(cols: seq<Column>, name: string): (p: nat)
    ensures p != SIZE_MAX ==> p < |cols| && cols[p].name == name
                              && forall j :: p < j < |cols| ==> cols[j].name != name
    ensures |cols| < SIZE_MAX ==> (p == SIZE_MAX <==> forall i :: 0 <= i < |cols| ==> cols[i].name != name)
    decreases |cols|
  {
    if |cols| == 0 then SIZE_MAX
    else if cols[|cols| - 1].name == name then |cols| - 1
    else GetColumnInfoPosition(cols[..|cols| - 1], name)
  }

  /** dbFilePath: the run-time override when it is non-empty, else the
      compiled-in path followed by the database name. */
  function DbFilePath(db: Database, overridePath: string): (p: string)
    ensures |overridePath| > 0 ==> p == overridePath
    ensures |overridePath| == 0 ==> p == db.path + db.name
  {
    if |overridePath| > 0 then overridePath else db.path + db.name
  }
}
