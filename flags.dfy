/** The column flags of a schema declaration: one byte, combined and checked
    bit by bit (include/sqlite_tools.h:163-199). */
module ColumnFlags {

  type Flags = bv8

  const NONE: Flags := 0x00
  const PRIMARY_KEY: Flags := 0x01
  const DEFAULT: Flags := 0x02
  /** Set by the column constructors for every field that is not Nullable;
      callers are not meant to pass it themselves. */
  const NOT_NULL: Flags := 0x04

  /** flagSet: true when f and check share a set bit. */
  predicate FlagSet(f: Flags, check: Flags)
  {
    f & check != 0
  }

  /** OR-ing in a flag makes it set and leaves every other single flag as
      it was. */
  lemma OrSetsFlag(f: Flags, g: Flags, check: Flags)
    ensures FlagSet(f | g, check) <==> FlagSet(f, check) || FlagSet(g, check)
  {
  }
}
