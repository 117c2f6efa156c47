// CustomNumberEditor: text to a number of a fixed class, and any number converted to that class.
module NumberEditor {
  import opened Wrappers
  import opened Classes
  import opened NumberUtils
  import opened Values
  import StringUtils

  /** A value whose number, if it holds one, lies within its width. */
  predicate WellFormed(v: Value)
  {
    v.Num? ==> ValidNumber(v.n)
  }

  /** A `CustomNumberEditor` for an integral number class, and the value it holds. */
  class CustomNumberEditor {
    const numberClass: Class
    const allowEmpty: bool
    var value: Value

    constructor Init(numberClass: Class, allowEmpty: bool)
      ensures this.numberClass == numberClass && this.allowEmpty == allowEmpty && value == Null
    {
      this.numberClass := numberClass;
      this.allowEmpty := allowEmpty;
      value := Null;
    }

    /** The public constructor: a class that is not a `Number` is refused. */
    static method New(table: ClassTable, numberClass: Class, allowEmpty: bool) returns (r: Result<CustomNumberEditor>)
      ensures r.Err? <==> !IsAssignableFrom(table, NumberClass, numberClass)
      ensures r.Err? ==> r.error == IllegalArgumentException
      ensures r.Ok? ==> (fresh(r.value) && r.value.numberClass == numberClass
        && r.value.allowEmpty == allowEmpty && r.value.value == Null)
    {
      if !IsAssignableFrom(table, NumberClass, numberClass) {
        return Err(IllegalArgumentException);
      }
      var e := new CustomNumberEditor.Init(numberClass, allowEmpty);
      return Ok(e);
    }

    /**
     * `setValue`: a number is converted to the editor's class (and refused when it does
     * not fit); any other value is stored as it is.
     */
    method SetValue(v: Value) returns (r: Outcome)
      requires WellFormed(v) && !IsFloatingTarget(numberClass)
      modifies this
      ensures !v.Num? ==> r == Pass && value == v
      ensures v.Num? ==> var c := ConvertNumberToTargetClass(v.n, numberClass);
        if c.Ok? then r == Pass && value == Num(c.value) else r == Fail(c.error) && value == old(value)
    {
      if v.Num? {
        var c := ConvertNumberToTargetClass(v.n, numberClass);
        if c.Err? {
          return Fail(c.error);
        }
        value := Num(c.value);
      } else {
        value := v;
      }
      r := Pass;
    }

    /**
     * `setAsText`: null or "" stores null when empty is allowed (blank text is not
     * empty); otherwise the text is parsed into the editor's class.
     */
    method SetAsText(text: Option<string>) returns (r: Outcome)
      requires !IsFloatingParseTarget(numberClass)
      modifies this
      ensures allowEmpty && !StringUtils.HasLength(text) ==> r == Pass && value == Null
      ensures !(allowEmpty && !StringUtils.HasLength(text)) ==>
        var p := ParseNumber(text, Some(numberClass));
        if p.Ok? then r == Pass && value == Num(p.value) else r == Fail(p.error) && value == old(value)
    {
      if allowEmpty && !StringUtils.HasLength(text) {
        value := Null;
        return Pass;
      }
      var p := ParseNumber(text, Some(numberClass));
      if p.Err? {
        return Fail(p.error);
      }
      ConvertToOwnClass(p.value, numberClass);
      r := SetValue(Num(p.value));
    }

    /** `getAsText`: "" for null, the decimal form of a number, `toString()` of anything else. */
    method GetAsText(toString: Value -> string) returns (s: string)
      ensures value.Null? ==> s == ""
      ensures value.Num? ==> s == DecimalString(value.n.value)
      ensures !value.Null? && !value.Num? ==> s == toString(value)
    {
      match value
      case Null => s := "";
      case Num(n) => s := DecimalString(n.value);
      case _ => s := toString(value);
    }
  }

  /**
   * Text written by `getAsText` for a number of the editor's class reads back as the same
   * number through `setAsText`.
   */
  lemma TextRoundTrip(numberClass: Class, allowEmpty: bool, n: Number)
    requires ValidNumber(n) && KindClass(n.kind) == numberClass
    requires IsFixedTarget(numberClass) || numberClass == BigIntegerClass
    ensures StringUtils.HasLength(Some(DecimalString(n.value)))
    ensures ParseNumber(Some(DecimalString(n.value)), Some(numberClass)) == Ok(n)
  {
    ParseDecimalString(n);
  }
}
