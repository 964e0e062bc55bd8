/** SQLT::Nullable<T>: a value together with a null marker
    (include/sqlite_tools.h:235-296). */
module Nullables {

  datatype Nullable<T> = Nullable(value: T, isNull: bool)

  /** Nullable(): null. The C++ value member is left default-initialised
      (indeterminate for int, double and bool), so the caller names it. */
  function Null<T>(unspecified: T): (n: Nullable<T>)
    ensures n.isNull && n.value == unspecified
  {
    Nullable(unspecified, true)
  }

  /** Nullable(const T&) (and the const char* conversion for text): present. */
  function Present<T>(v: T): (n: Nullable<T>)
    ensures !n.isNull && n.value == v
  {
    Nullable(v, false)
  }

  /** operator==: both null, or equal values. The null markers are not
      compared when the values agree. */
  predicate Equal<T(==)>(a: Nullable<T>, b: Nullable<T>)
  {
    (a.isNull && b.isNull) || a.value == b.value
  }

  /** What a reader of a Nullable observes: the marker, and the value only
      when it is not null. */
  predicate Agree<T(==)>(a: Nullable<T>, b: Nullable<T>)
  {
    a.isNull == b.isNull && (!a.isNull ==> a.value == b.value)
  }

  lemma AgreeImpliesEqual<T>(a: Nullable<T>, b: Nullable<T>)
    requires Agree(a, b)
    ensures Equal(a, b)
  {
  }

  /** operator== holds between a null and a present Nullable whose values
      happen to coincide. */
  lemma EqualIgnoresMarkerWhenValuesMatch<T>(v: T)
    ensures Equal(Null(v), Present(v)) && !Agree(Null(v), Present(v))
  {
  }

  /** Hence operator== is not transitive: two nulls are equal whatever
      their values, and each may equal a different present value. */
  lemma EqualNotTransitive()
    ensures Equal(Present(1), Null(1)) && Equal(Null(1), Null(2)) && Equal(Null(2), Present(2))
    ensures !Equal(Present(1), Present(2))
  {
  }
}
