// PropertyAccessor: applying a list of property values through a single-property setter.
module PropertyAccessor {
  import opened Wrappers
  import opened Values
  import opened PropertyValues

  /** A single-property setter, `setPropertyValue(name, value)`: it succeeds or throws. */
  type Setter = (string, Value) -> Outcome

  /** `setPropertyValue(pv)`: the name/value form applied to the pair's parts. */
  function SetPropertyValue(setter: Setter, pv: PropertyValue): Outcome
  {
    setter(pv.name, pv.value)
  }

  /**
   * The position of the first entry whose assignment fails with an error the loop
   * does not catch: any exception when unknown properties are not ignored, and only
   * a non-`Exception` throwable otherwise. `|pvs|` when there is none.
   */
  function FirstEscaping(pvs: seq<PropertyValue>, ignoreUnknown: bool, setter: Setter): (k: nat)
    ensures k <= |pvs|
    ensures k < |pvs| ==> Escapes(SetPropertyValue(setter, pvs[k]), ignoreUnknown)
    ensures forall m :: 0 <= m < k ==> !Escapes(SetPropertyValue(setter, pvs[m]), ignoreUnknown)
  {
    if pvs == [] then 0
    else if Escapes(SetPropertyValue(setter, pvs[0]), ignoreUnknown) then 0
    else 1 + FirstEscaping(pvs[1..], ignoreUnknown, setter)
  }

  /** Whether the loop lets this outcome propagate: `catch (Exception)` never catches an `Error`. */
  predicate Escapes(o: Outcome, ignoreUnknown: bool)
  {
    o.Fail? && (!ignoreUnknown || !IsJavaException(o.error))
  }

  /**
   * `setPropertyValues(pvs, ignoreUnknown)`: the entries are assigned one at a time in
   * list order. `attempted` lists the assignments made. Without `ignoreUnknown` the first
   * failure ends the loop and is rethrown; with it every failure is swallowed.
   */
  method SetPropertyValues(pvs: seq<PropertyValue>, ignoreUnknown: bool, setter: Setter)
    returns (attempted: seq<PropertyValue>, r: Outcome)
    ensures var k := FirstEscaping(pvs, ignoreUnknown, setter);
      if k < |pvs| then attempted == pvs[..k + 1] && r == SetPropertyValue(setter, pvs[k])
      else attempted == pvs && r == Pass
  {
    attempted := [];
    var i := 0;
    while i < |pvs|
      invariant 0 <= i <= |pvs| && attempted == pvs[..i]
      invariant FirstEscaping(pvs, ignoreUnknown, setter) == i + FirstEscaping(pvs[i..], ignoreUnknown, setter)
    {
      var outcome := SetPropertyValue(setter, pvs[i]);
      attempted := attempted + [pvs[i]];
      assert pvs[..i + 1] == pvs[..i] + [pvs[i]];
      if outcome.Fail? && (!ignoreUnknown || !IsJavaException(outcome.error)) {
        return attempted, outcome;
      }
      assert pvs[i..][1..] == pvs[i + 1..];
      i := i + 1;
    }
    assert pvs[..|pvs|] == pvs;
    r := Pass;
  }

  /** `setPropertyValues(pvs)`: the same as not ignoring unknown properties. */
  method SetAllPropertyValues(pvs: seq<PropertyValue>, setter: Setter) returns (attempted: seq<PropertyValue>, r: Outcome)
    ensures var k := FirstEscaping(pvs, false, setter);
      if k < |pvs| then attempted == pvs[..k + 1] && r == SetPropertyValue(setter, pvs[k])
      else attempted == pvs && r == Pass
  {
    attempted, r := SetPropertyValues(pvs, false, setter);
  }

  /** Without `ignoreUnknown`, the loop stops exactly at the first failing entry. */
  lemma {:induction false} StrictStopsAtFirstFailure(pvs: seq<PropertyValue>, setter: Setter, k: nat)
    requires k < |pvs| && SetPropertyValue(setter, pvs[k]).Fail?
    requires forall m :: 0 <= m < k ==> SetPropertyValue(setter, pvs[m]).Pass?
    ensures FirstEscaping(pvs, false, setter) == k
    decreases k
  {
    if k > 0 {
      StrictStopsAtFirstFailure(pvs[1..], setter, k - 1);
    }
  }

  /** With `ignoreUnknown`, every entry is attempted unless a non-`Exception` throwable occurs. */
  lemma {:induction false} LenientAttemptsAll(pvs: seq<PropertyValue>, setter: Setter)
    requires forall m :: 0 <= m < |pvs| ==>
      SetPropertyValue(setter, pvs[m]).Pass? || IsJavaException(SetPropertyValue(setter, pvs[m]).error)
    ensures FirstEscaping(pvs, true, setter) == |pvs|
    decreases |pvs|
  {
    if pvs != [] {
      LenientAttemptsAll(pvs[1..], setter);
    }
  }
}
