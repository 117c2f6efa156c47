// ClassUtils: the type predicates over the primitive-wrapper table.
module ClassUtils {
  import opened Wrappers
  import opened Classes

  /** The static wrapper-to-primitive table, filled once with the eight pairs. */
  const PrimitiveWrapperTypeMap: map<Class, Class> := map[
    Wrapper(Boolean) := Primitive(Boolean), Wrapper(Byte) := Primitive(Byte),
    Wrapper(Char) := Primitive(Char), Wrapper(Double) := Primitive(Double),
    Wrapper(Float) := Primitive(Float), Wrapper(Int) := Primitive(Int),
    Wrapper(Long) := Primitive(Long), Wrapper(Short) := Primitive(Short)]

  /** The table holds exactly the eight wrappers, each paired with its own primitive. */
  lemma WrapperTableIsExact(c: Class)
    ensures c in PrimitiveWrapperTypeMap <==> c.Wrapper?
    ensures c.Wrapper? ==> PrimitiveWrapperTypeMap[c] == Primitive(c.prim)
  {
    if c.Wrapper? {
      match c.prim
      case Boolean => case Byte => case Char => case Short =>
      case Int => case Long => case Float => case Double =>
    }
  }

  /**
   * `isAssignable(lhs, rhs)`: `lhs` is `rhs` or a supertype of it, or `lhs` is the
   * primitive that wrapper `rhs` boxes; a null argument throws.
   */
  function IsAssignable(table: ClassTable, lhs: Option<Class>, rhs: Option<Class>): (r: Result<bool>)
    ensures lhs.None? || rhs.None? <==> r == Err(NullPointerException)
    ensures lhs.Some? && rhs.Some? ==>
      (r == Ok(true) <==> IsAssignableFrom(table, lhs.value, rhs.value)
                          || (rhs.value.Wrapper? && lhs.value == Primitive(rhs.value.prim)))
  {
    if lhs.None? || rhs.None? then Err(NullPointerException)
    else
      WrapperTableIsExact(rhs.value);
      Ok(IsAssignableFrom(table, lhs.value, rhs.value)
         || (rhs.value in PrimitiveWrapperTypeMap && lhs.value == PrimitiveWrapperTypeMap[rhs.value]))
  }

  /** Every class is assignable to itself. */
  lemma IsAssignableReflexive(table: ClassTable, c: Class)
    ensures IsAssignable(table, Some(c), Some(c)) == Ok(true)
  {
  }

  /**
   * A primitive accepts exactly itself and its own wrapper (the class table never
   * lists a primitive as a supertype of an application class).
   */
  lemma {:induction false} PrimitiveAcceptsOnlyItsWrapper(table: ClassTable, p: Prim, rhs: Class)
    requires forall n :: n in table ==> forall q :: Primitive(q) !in table[n].supers
    ensures IsAssignable(table, Some(Primitive(p)), Some(rhs)) == Ok(true) <==> rhs == Primitive(p) || rhs == Wrapper(p)
  {
    if rhs.Named? && rhs.name in table {
      assert Primitive(p) !in table[rhs.name].supers;
    }
  }

  /**
   * `isAssignableValue(type, value)`, with the value given by its runtime class
   * (`None` for null): null fits every non-primitive type; otherwise the value's
   * class must be assignable; a null type throws.
   */
  function IsAssignableValue(table: ClassTable, t: Option<Class>, valueClass: Option<Class>): (r: Result<bool>)
    ensures t.None? <==> r == Err(NullPointerException)
    ensures t.Some? && valueClass.None? ==> r == Ok(!t.value.Primitive?)
    ensures t.Some? && valueClass.Some? ==> r == IsAssignable(table, t, valueClass)
  {
    if t.None? then Err(NullPointerException)
    else if valueClass.Some? then IsAssignable(table, t, valueClass)
    else Ok(!t.value.Primitive?)
  }

  /** `isPrimitiveWrapper`: the class is one of the eight wrappers in the table. */
  function IsPrimitiveWrapper(c: Option<Class>): (r: Result<bool>)
    ensures c.None? <==> r == Err(NullPointerException)
    ensures c.Some? ==> (r == Ok(true) <==> c.value.Wrapper?)
  {
    if c.None? then Err(NullPointerException)
    else
      WrapperTableIsExact(c.value);
      Ok(c.value in PrimitiveWrapperTypeMap)
  }

  /** `isPrimitiveOrWrapper`: a primitive or one of the eight wrappers. */
  function IsPrimitiveOrWrapper(c: Option<Class>): (r: Result<bool>)
    ensures c.None? <==> r == Err(NullPointerException)
    ensures c.Some? ==> (r == Ok(true) <==> c.value.Primitive? || IsPrimitiveWrapper(c) == Ok(true))
  {
    if c.None? then Err(NullPointerException)
    else Ok(c.value.Primitive? || IsPrimitiveWrapper(c).value)
  }

  /** `isSimpleProperty`: a primitive or `String`. */
  function IsSimpleProperty(c: Option<Class>): (r: Result<bool>)
    ensures c.None? <==> r == Err(NullPointerException)
    ensures c.Some? ==> (r == Ok(true) <==> c.value.Primitive? || c.value == StringClass)
  {
    if c.None? then Err(NullPointerException)
    else Ok(c.value.Primitive? || StringClass == c.value)
  }

  /** Every predicate rejects a null type. */
  lemma NullTypeRejected(table: ClassTable, other: Option<Class>)
    ensures IsAssignable(table, None, other) == Err(NullPointerException)
    ensures IsAssignable(table, other, None) == Err(NullPointerException)
    ensures IsAssignableValue(table, None, other) == Err(NullPointerException)
    ensures IsPrimitiveWrapper(None) == Err(NullPointerException)
    ensures IsPrimitiveOrWrapper(None) == Err(NullPointerException)
    ensures IsSimpleProperty(None) == Err(NullPointerException)
  {
  }
}
