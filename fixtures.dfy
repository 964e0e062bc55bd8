/** The tables of the library's own test programs, as descriptors, and what
    those programs check about them (tests/all-types.cpp:67-133,
    tests/recipes-db.h:6-37, 162-178). */
module Fixtures {
  import opened Text
  import opened ColumnFlags
  import opened Nullables
  import opened Schema
  import opened Ddl
  import opened Engine
  import opened Marshal

  const INT: ColType := ColType(IntType, false)
  const DOUBLE: ColType := ColType(DoubleType, false)
  const TEXT: ColType := ColType(TextType, false)
  const BOOL: ColType := ColType(BoolType, false)
  const NULLABLE_INT: ColType := ColType(IntType, true)
  const NULLABLE_DOUBLE: ColType := ColType(DoubleType, true)
  const NULLABLE_TEXT: ColType := ColType(TextType, true)
  const NULLABLE_BOOL: ColType := ColType(BoolType, true)

  /** The doubles 1.23 and 4.44. */
  const REAL_1_23: Real := Real(0x3FF3_AE14_7AE1_47AE)
  const REAL_4_44: Real := Real(0x4011_C28F_5C28_F5C3)

  /** AllTypes: four groups of int, double, string and bool members, plain,
      plain with defaults, Nullable, and Nullable with defaults; the first
      member of each group is a key. */
  const ID: Column := MakeColumn("id", INT, 0, PRIMARY_KEY)
  const NUM: Column := MakeColumn("num", DOUBLE, 1, NONE)
  const NAME: Column := MakeColumn("name", TEXT, 2, NONE)
  const ENABLED: Column := MakeColumn("enabled", BOOL, 3, NONE)
  const ID2: Column := MakeColumnWithDefault("id2", INT, 4, IntVal(123), PRIMARY_KEY | DEFAULT)
  const NUM2: Column := MakeColumnWithDefault("num2", DOUBLE, 5, DoubleVal(REAL_1_23), DEFAULT)
  const NAME2: Column := MakeColumnWithDefault("name2", TEXT, 6, TextVal("second"), DEFAULT)
  const ENABLED2: Column := MakeColumnWithDefault("enabled2", BOOL, 7, BoolVal(false), DEFAULT)
  const ID3: Column := MakeColumn("id3", NULLABLE_INT, 8, PRIMARY_KEY)
  const NUM3: Column := MakeColumn("num3", NULLABLE_DOUBLE, 9, NONE)
  const NAME3: Column := MakeColumn("name3", NULLABLE_TEXT, 10, NONE)
  const ENABLED3: Column := MakeColumn("enabled3", NULLABLE_BOOL, 11, NONE)
  const ID4: Column := MakeColumnWithDefault("id4", NULLABLE_INT, 12, IntVal(4), PRIMARY_KEY | DEFAULT)
  const NUM4: Column := MakeColumnWithDefault("num4", NULLABLE_DOUBLE, 13, DoubleVal(REAL_4_44), DEFAULT)
  const NAME4: Column := MakeColumnWithDefault("name4", NULLABLE_TEXT, 14, TextVal("fourth"), DEFAULT)
  const ENABLED4: Column := MakeColumnWithDefault("enabled4", NULLABLE_BOOL, 15, BoolVal(true), DEFAULT)

  const ALL_TYPES: Table := Table("AllTypes",
    [ID, NUM, NAME, ENABLED] + [ID2, NUM2, NAME2, ENABLED2] + [ID3, NUM3, NAME3, ENABLED3] + [ID4, NUM4, NAME4, ENABLED4])

  /** A group of four whose first column alone is a key. */
  lemma GroupKeys(g: seq<Column>)
    requires |g| == 4 && IsPrimaryKey(g[0]) && !IsPrimaryKey(g[1]) && !IsPrimaryKey(g[2]) && !IsPrimaryKey(g[3])
    ensures PrimaryKeyNames(g) == [g[0].name]
  {
    assert g[3..][0] == g[3] && g[3..][1..] == [];
    assert PrimaryKeyNames(g[3..]) == [];
    assert g[2..][0] == g[2] && g[2..][1..] == g[3..];
    assert PrimaryKeyNames(g[2..]) == [];
    assert g[1..][0] == g[1] && g[1..][1..] == g[2..];
    assert PrimaryKeyNames(g[1..]) == [];
  }

  /** What the test program asserts before opening the database: four keys,
      the name and sixteen columns; and every column passes the
      static_assert on its DEFAULT flag. */
  lemma AllTypesShape()
    ensures PrimaryKeyNames(ALL_TYPES.columns) == ["id", "id2", "id3", "id4"]
    ensures PrimaryKeyCount(ALL_TYPES.columns) == 4
    ensures ALL_TYPES.name == "AllTypes"
    ensures ColumnCount(ALL_TYPES.columns) == 16
    ensures forall i :: 0 <= i < |ALL_TYPES.columns| ==> DefaultConsistent(ALL_TYPES.columns[i])
  {
    var g1, g2, g3, g4 := [ID, NUM, NAME, ENABLED], [ID2, NUM2, NAME2, ENABLED2], [ID3, NUM3, NAME3, ENABLED3], [ID4, NUM4, NAME4, ENABLED4];
    GroupKeys(g1);
    GroupKeys(g2);
    GroupKeys(g3);
    GroupKeys(g4);
    PrimaryKeyNamesAppend(g1 + g2 + g3, g4);
    PrimaryKeyNamesAppend(g1 + g2, g3);
    PrimaryKeyNamesAppend(g1, g2);
  }

  // Each expected declaration below is written as name, " ", type keyword,
  // then the modifiers, the way the DDL generator assembles it.

  /** The declarations of the plain group: every column NOT NULL. */
  lemma AllTypesPlainDdl(realText: Real -> string)
    ensures ColumnDdl(ID, realText) == "id" + " " + "INTEGER" + " NOT NULL"
    ensures ColumnDdl(NUM, realText) == "num" + " " + "REAL" + " NOT NULL"
    ensures ColumnDdl(NAME, realText) == "name" + " " + "TEXT" + " NOT NULL"
    ensures ColumnDdl(ENABLED, realText) == "enabled" + " " + "INTEGER" + " NOT NULL"
  {
  }

  lemma Decimal123()
    ensures IntToString(123) == "123"
  {
    assert NatToString(1) == "1";
    assert NatToString(12) == NatToString(1) + "2";
  }

  /** The defaults group: NOT NULL, then the literal; text is quoted and
      false is written 0. */
  lemma AllTypesDefaultDdl(realText: Real -> string)
    ensures ColumnDdl(ID2, realText) == "id2" + " " + "INTEGER" + " NOT NULL" + " DEFAULT " + "123"
    ensures ColumnDdl(NUM2, realText) == "num2" + " " + "REAL" + " NOT NULL" + " DEFAULT " + realText(REAL_1_23)
    ensures ColumnDdl(NAME2, realText) == "name2" + " " + "TEXT" + " NOT NULL" + " DEFAULT " + "\"second\""
    ensures ColumnDdl(ENABLED2, realText) == "enabled2" + " " + "INTEGER" + " NOT NULL" + " DEFAULT " + "0"
  {
    Decimal123();
  }

  /** The Nullable group: no NOT NULL. */
  lemma AllTypesNullableDdl(realText: Real -> string)
    ensures ColumnDdl(ID3, realText) == "id3" + " " + "INTEGER"
    ensures ColumnDdl(NUM3, realText) == "num3" + " " + "REAL"
    ensures ColumnDdl(NAME3, realText) == "name3" + " " + "TEXT"
    ensures ColumnDdl(ENABLED3, realText) == "enabled3" + " " + "INTEGER"
  {
  }

  /** The Nullable defaults group: a default and no NOT NULL, enabled4
      included. */
  lemma AllTypesNullableDefaultDdl(realText: Real -> string)
    ensures ColumnDdl(ID4, realText) == "id4" + " " + "INTEGER" + " DEFAULT " + "4"
    ensures ColumnDdl(NUM4, realText) == "num4" + " " + "REAL" + " DEFAULT " + realText(REAL_4_44)
    ensures ColumnDdl(NAME4, realText) == "name4" + " " + "TEXT" + " DEFAULT " + "\"fourth\""
    ensures ColumnDdl(ENABLED4, realText) == "enabled4" + " " + "INTEGER" + " DEFAULT " + "1"
  {
  }

  // ---------------------------------------------------------------------
  // recipes_db

  const RECIPE_ID: Column := MakeColumn("id", INT, 0, PRIMARY_KEY)
  const RECIPE_NAME: Column := MakeColumn("name", TEXT, 1, NONE)
  const COOKING_TIME: Column := MakeColumn("cooking_time", INT, 2, NONE)
  const PORTIONS: Column := MakeColumn("portions", DOUBLE, 3, NONE)
  const PORTIONS_UNIT: Column := MakeColumn("portions_unit", TEXT, 4, NONE)
  const DESCRIPTION: Column := MakeColumn("description", NULLABLE_TEXT, 5, NONE)
  const FAVORITE: Column := MakeColumnWithDefault("favorite", NULLABLE_INT, 6, IntVal(0), DEFAULT)

  const RECIPES: Table := Table("recipes",
    [RECIPE_ID] + [RECIPE_NAME, COOKING_TIME, PORTIONS, PORTIONS_UNIT, DESCRIPTION, FAVORITE])

  /** Columns none of which is a key contribute no key name. */
  lemma {:induction false} NoKeyNames(cols: seq<Column>)
    requires forall i :: 0 <= i < |cols| ==> !IsPrimaryKey(cols[i])
    ensures PrimaryKeyNames(cols) == []
    decreases |cols|
  {
    if |cols| > 0 {
      assert !IsPrimaryKey(cols[0]);
      NoKeyNames(cols[1..]);
    }
  }

  /** The recipes table has the single key id; its text, Nullable and
      defaulted columns are declared as the generator writes them. */
  lemma RecipesDeclarations(realText: Real -> string)
    ensures PrimaryKeyClause(RECIPES.columns) == "PRIMARY KEY(" + "id" + ")"
    ensures ColumnDdl(PORTIONS_UNIT, realText) == "portions_unit" + " " + "TEXT" + " NOT NULL"
    ensures ColumnDdl(DESCRIPTION, realText) == "description" + " " + "TEXT"
    ensures ColumnDdl(FAVORITE, realText) == "favorite" + " " + "INTEGER" + " DEFAULT " + "0"
  {
    var rest := [RECIPE_NAME, COOKING_TIME, PORTIONS, PORTIONS_UNIT, DESCRIPTION, FAVORITE];
    NoKeyNames(rest);
    PrimaryKeyNamesAppend([RECIPE_ID], rest);
    assert [RECIPE_ID][1..] == [];
    assert PrimaryKeyNames(RECIPES.columns) == ["id"];
  }

  /** AllergensInRecipe declares its result columns in another order than
      its members: allergen_name, ingredient_name, recipe_name, recipe_id,
      ingredient_id. */
  const ALLERGENS_IN_RECIPE: seq<Column> := [
    MakeColumn("allergen_name", TEXT, 4, NONE),
    MakeColumn("ingredient_name", TEXT, 3, NONE),
    MakeColumn("recipe_name", TEXT, 1, NONE),
    MakeColumn("recipe_id", INT, 0, NONE),
    MakeColumn("ingredient_id", INT, 2, NONE)]

  lemma AllergensInRecipeDistinct()
    ensures DistinctColumns(ALLERGENS_IN_RECIPE)
  {
  }

  /** Any non-NULL cell fits a column that is not Nullable. */
  lemma PlainColumnsFit(cols: seq<Column>, row: seq<ResultColumn>)
    requires forall k :: 0 <= k < |cols| ==> !cols[k].ty.nullable
    requires forall j :: 0 <= j < |row| ==> !row[j].cell.NullCell?
    ensures forall j :: 0 <= j < |row| ==> NamedFits(cols, row[j])
  {
  }

  /** A result row in query order: recipe_id, recipe_name, ingredient_id,
      ingredient_name, allergen_name. */
  function AllergensRow(recipeId: Int64, recipe: string, ingredientId: Int64, ingredient: string, allergen: string): (row: seq<ResultColumn>)
    ensures |row| == 5 && DistinctNames(row)
    ensures forall j :: 0 <= j < |row| ==> NamedFits(ALLERGENS_IN_RECIPE, row[j])
  {
    var row := [ResultColumn("recipe_id", IntCell(recipeId)), ResultColumn("recipe_name", TextCell(recipe)),
                ResultColumn("ingredient_id", IntCell(ingredientId)), ResultColumn("ingredient_name", TextCell(ingredient)),
                ResultColumn("allergen_name", TextCell(allergen))];
    PlainColumnsFit(ALLERGENS_IN_RECIPE, row);
    row
  }

  /** The row lands in the members of the same names, whatever the
      declaration order. */
  lemma AllergensInRecipeByName(conv: Conversions, rec: Record, recipeId: Int64, recipe: string,
                                ingredientId: Int64, ingredient: string, allergen: string)
    requires Conforms(ALLERGENS_IN_RECIPE, rec)
    ensures var row := AllergensRow(recipeId, recipe, ingredientId, ingredient, allergen);
      var r := AssignRowByName(conv, ALLERGENS_IN_RECIPE, rec, row);
      && r[0] == Plain(IntVal(Wrap32(recipeId as int)))
      && r[1] == Plain(TextVal(CString(recipe)))
      && r[2] == Plain(IntVal(Wrap32(ingredientId as int)))
      && r[3] == Plain(TextVal(CString(ingredient)))
      && r[4] == Plain(TextVal(CString(allergen)))
  {
    var cols := ALLERGENS_IN_RECIPE;
    var row := AllergensRow(recipeId, recipe, ingredientId, ingredient, allergen);
    AllergensInRecipeDistinct();
    AssignRowByNameFields(conv, cols, rec, row);
    assert row[0].name == cols[3].name && row[1].name == cols[2].name && row[2].name == cols[4].name;
    assert row[3].name == cols[1].name && row[4].name == cols[0].name;
  }
}
