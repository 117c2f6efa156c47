// PropertyEditorRegistrySupport: the shared default editors and a per-registry custom map.
module EditorRegistry {
  import opened Wrappers
  import opened Classes
  import opened Values

  /**
   * A property editor: the built-in kinds with their settings, or any other editor
   * object.
   */
  datatype Editor =
    | ClassEditor
    | BooleanEditor(allowEmpty: bool)
    | NumberEditor(numberClass: Class, allowEmpty: bool)
    | OtherEditor(obj: Obj)

  /** The default editors, filled once for all registries. */
  const DefaultEditors: map<Class, Editor> := map[
    ClassClass := ClassEditor,
    Primitive(Boolean) := BooleanEditor(false),
    Wrapper(Boolean) := BooleanEditor(true),
    Primitive(Byte) := NumberEditor(Wrapper(Byte), false),
    Wrapper(Byte) := NumberEditor(Wrapper(Byte), true),
    Primitive(Short) := NumberEditor(Wrapper(Short), false),
    Wrapper(Short) := NumberEditor(Wrapper(Short), true),
    Primitive(Int) := NumberEditor(Wrapper(Int), false),
    Wrapper(Int) := NumberEditor(Wrapper(Int), true),
    Primitive(Long) := NumberEditor(Wrapper(Long), false),
    Wrapper(Long) := NumberEditor(Wrapper(Long), true),
    Primitive(Float) := NumberEditor(Wrapper(Float), false),
    Wrapper(Float) := NumberEditor(Wrapper(Float), true),
    Primitive(Double) := NumberEditor(Wrapper(Double), false),
    Wrapper(Double) := NumberEditor(Wrapper(Double), true),
    BigDecimalClass := NumberEditor(BigDecimalClass, true),
    BigIntegerClass := NumberEditor(BigIntegerClass, true)]

  /** `findDefaultEditor`: the default editor for exactly that class, or null. */
  function FindDefaultEditor(t: Class): (r: Option<Editor>)
    ensures r.Some? <==> t in DefaultEditors
    ensures r.Some? ==> r.value == DefaultEditors[t]
  {
    if t in DefaultEditors then Some(DefaultEditors[t]) else None
  }

  /**
   * Primitive types get editors that refuse empty text; their wrappers, `BigDecimal`
   * and `BigInteger` get editors that map it to null. `char` and `Character` have none.
   */
  lemma DefaultEditorsAllowEmpty(p: Prim)
    ensures p == Char <==> Primitive(p) !in DefaultEditors
    ensures p == Char <==> Wrapper(p) !in DefaultEditors
    ensures p != Char ==> (!DefaultEditors[Primitive(p)].ClassEditor? && !DefaultEditors[Primitive(p)].OtherEditor?
      && !DefaultEditors[Primitive(p)].allowEmpty)
    ensures p != Char ==> (!DefaultEditors[Wrapper(p)].ClassEditor? && !DefaultEditors[Wrapper(p)].OtherEditor?
      && DefaultEditors[Wrapper(p)].allowEmpty)
    ensures p != Char && p != Boolean ==>
      DefaultEditors[Primitive(p)].numberClass == Wrapper(p) && DefaultEditors[Wrapper(p)].numberClass == Wrapper(p)
    ensures DefaultEditors[BigDecimalClass].allowEmpty && DefaultEditors[BigIntegerClass].allowEmpty
  {
  }

  /** A registry's custom editors, keyed by the exact class they edit. */
  class PropertyEditorRegistry {
    var customEditors: map<Class, Editor>

    constructor ()
      ensures customEditors == map[]
    {
      customEditors := map[];
    }

    /** `registerCustomEditor`: a null class is refused; a class already present gets the new editor. */
    method RegisterCustomEditor(requiredType: Option<Class>, editor: Editor) returns (r: Outcome)
      modifies this
      ensures requiredType.None? ==> r == Fail(IllegalArgumentException) && customEditors == old(customEditors)
      ensures requiredType.Some? ==> r == Pass && customEditors == old(customEditors)[requiredType.value := editor]
    {
      if requiredType.None? {
        return Fail(IllegalArgumentException);
      }
      customEditors := customEditors[requiredType.value := editor];
      r := Pass;
    }

    /** `containsCustomEditor`. */
    method ContainsCustomEditor(requiredType: Class) returns (b: bool)
      ensures b <==> requiredType in customEditors
    {
      b := requiredType in customEditors;
    }

    /** `findCustomEditor`: the editor registered last for exactly that class, or null. */
    method FindCustomEditor(requiredType: Class) returns (r: Option<Editor>)
      ensures r.Some? <==> requiredType in customEditors
      ensures r.Some? ==> r.value == customEditors[requiredType]
    {
      r := if requiredType in customEditors then Some(customEditors[requiredType]) else None;
    }
  }
}
