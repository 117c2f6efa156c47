// PropertyValue (an immutable name/value pair) and MutablePropertyValues (the ordered
// list of a bean's <property> entries).
module PropertyValues {
  import opened Wrappers
  import opened Values

  /** A property name and the value to inject; both are fixed at construction. */
  datatype PropertyValue = PropertyValue(name: string, value: Value)

  /** The constructor: a null name is rejected. */
  function NewPropertyValue(name: Option<string>, value: Value): (r: Result<PropertyValue>)
    ensures name.None? <==> r == Err(NullPointerException)
    ensures name.Some? ==> r.Ok? && r.value.name == name.value && r.value.value == value
  {
    if name.None? then Err(NullPointerException) else Ok(PropertyValue(name.value, value))
  }

  /**
   * `equals(other)`, with `None` standing for an `other` that is null or not a
   * PropertyValue: equal names, and values both null or equal. When only this
   * value is null and the other is not, the value's `equals` is called on null.
   */
  function Equals(pv: PropertyValue, other: Option<PropertyValue>): (r: Result<bool>)
    ensures r == Err(NullPointerException) <==>
      other.Some? && pv.name == other.value.name && pv.value.Null? && !other.value.value.Null?
    ensures r == Ok(true) <==>
      other.Some? && pv.name == other.value.name && NullSafeEquals(pv.value, other.value.value)
  {
    if other.None? then Ok(false)
    else if pv.name != other.value.name then Ok(false)
    else if pv.value.Null? && other.value.value.Null? then Ok(true)
    else if pv.value.Null? then Err(NullPointerException)
    else Ok(ValueEquals(pv.value, other.value.value))
  }

  /** `equals` is reflexive. */
  lemma EqualsReflexive(pv: PropertyValue)
    ensures Equals(pv, Some(pv)) == Ok(true)
  {
    if !pv.value.Null? {
      ValueEqualsReflexive(pv.value);
    }
  }

  /** `x` as a Java `int`: the low-order 32 bits, signed. */
  function Wrap32(x: int): (r: int)
    ensures -0x8000_0000 <= r < 0x8000_0000
  {
    (x + 0x8000_0000) % 0x1_0000_0000 - 0x8000_0000
  }

  /** `String.hashCode()`: s[0]*31^(n-1) + ... + s[n-1] in 32-bit arithmetic. */
  function StringHash(s: string): (r: int)
    ensures -0x8000_0000 <= r < 0x8000_0000
  {
    if s == [] then 0 else Wrap32(31 * StringHash(s[..|s| - 1]) + s[|s| - 1] as int)
  }

  /**
   * `hashCode()`: the name's hash times 29 plus the value's hash (0 for null), in
   * 32-bit arithmetic. `valueHash` is the values' own `hashCode`.
   */
  function HashCode(pv: PropertyValue, valueHash: Value -> int): (r: int)
    ensures -0x8000_0000 <= r < 0x8000_0000
  {
    Wrap32(StringHash(pv.name) * 29 + (if pv.value.Null? then 0 else valueHash(pv.value)))
  }

  /** Equal property values hash equally whenever the values' own hashes respect `equals`. */
  lemma EqualsImpliesEqualHash(a: PropertyValue, b: PropertyValue, valueHash: Value -> int)
    requires forall x, y :: ValueEquals(x, y) ==> valueHash(x) == valueHash(y)
    requires Equals(a, Some(b)) == Ok(true)
    ensures HashCode(a, valueHash) == HashCode(b, valueHash)
  {
  }

  // ---------------------------------------------------------------- the entry list

  /** The index of the first entry named `name` at or after `from`, or -1. */
  function IndexOfName(pvs: seq<PropertyValue>, name: string, from: nat): (r: int)
    requires from <= |pvs|
    ensures r == -1 || (from <= r < |pvs| && pvs[r].name == name)
    ensures r == -1 <==> forall k :: from <= k < |pvs| ==> pvs[k].name != name
    ensures r != -1 ==> forall k :: from <= k < r ==> pvs[k].name != name
    decreases |pvs| - from
  {
    if from == |pvs| then -1
    else if pvs[from].name == name then from
    else IndexOfName(pvs, name, from + 1)
  }

  /** The first entry named `name`, or null. */
  function Lookup(pvs: seq<PropertyValue>, name: string): Option<PropertyValue>
  {
    var i := IndexOfName(pvs, name, 0);
    if i == -1 then None else Some(pvs[i])
  }

  /** The list after `addPropertyValue(pv)`: the first entry of that name replaced in place, or `pv` appended. */
  function WithAdded(pvs: seq<PropertyValue>, pv: PropertyValue): seq<PropertyValue>
  {
    var i := IndexOfName(pvs, pv.name, 0);
    if i == -1 then pvs + [pv] else pvs[i := pv]
  }

  /** The list a copy builds by adding every entry of `pvs` in order to an empty list. */
  function AddAll(acc: seq<PropertyValue>, pvs: seq<PropertyValue>): seq<PropertyValue>
    decreases |pvs|
  {
    if pvs == [] then acc else AddAll(WithAdded(acc, pvs[0]), pvs[1..])
  }

  /** No two entries share a name. */
  predicate DistinctNames(pvs: seq<PropertyValue>)
  {
    forall i, j :: 0 <= i < j < |pvs| ==> pvs[i].name != pvs[j].name
  }

  /** Adding a present name replaces that entry at its position; nothing else changes. */
  lemma AddReplacesInPlace(pvs: seq<PropertyValue>, pv: PropertyValue, i: nat)
    requires i < |pvs| && pvs[i].name == pv.name
    requires forall k :: 0 <= k < i ==> pvs[k].name != pv.name
    ensures |WithAdded(pvs, pv)| == |pvs| && WithAdded(pvs, pv)[i] == pv
    ensures forall k :: 0 <= k < |pvs| && k != i ==> WithAdded(pvs, pv)[k] == pvs[k]
  {
  }

  /** Adding a new name appends it at the end. */
  lemma AddAppendsNewName(pvs: seq<PropertyValue>, pv: PropertyValue)
    requires forall k :: 0 <= k < |pvs| ==> pvs[k].name != pv.name
    ensures WithAdded(pvs, pv) == pvs + [pv]
  {
  }

  /** Adding keeps the names pairwise distinct. */
  lemma AddKeepsNamesDistinct(pvs: seq<PropertyValue>, pv: PropertyValue)
    requires DistinctNames(pvs)
    ensures DistinctNames(WithAdded(pvs, pv))
  {
  }

  /** After adding `pv`, looking up its name finds `pv`. */
  lemma LookupAfterAdd(pvs: seq<PropertyValue>, pv: PropertyValue)
    ensures Lookup(WithAdded(pvs, pv), pv.name) == Some(pv)
  {
    var i := IndexOfName(pvs, pv.name, 0);
    var r := WithAdded(pvs, pv);
    var j := IndexOfName(r, pv.name, 0);
    if i == -1 {
      assert r[|pvs|].name == pv.name;
    } else {
      assert r[i].name == pv.name;
    }
  }

  /** Adding an entry leaves the lookup of every other name as it was. */
  lemma LookupOthersAfterAdd(pvs: seq<PropertyValue>, pv: PropertyValue)
    ensures forall name :: name != pv.name ==> Lookup(WithAdded(pvs, pv), name) == Lookup(pvs, name)
  {
    var r := WithAdded(pvs, pv);
    forall name | name != pv.name
      ensures Lookup(r, name) == Lookup(pvs, name)
    {
      var j := IndexOfName(pvs, name, 0);
      var j' := IndexOfName(r, name, 0);
      if j != -1 {
        assert r[j].name == name;
      }
      if j' != -1 {
        assert j' < |pvs| ==> pvs[j'].name == name;
      }
    }
  }

  /** Copying a list whose names are distinct gives the same entries in the same order. */
  lemma {:induction false} CopyKeepsEntries(acc: seq<PropertyValue>, pvs: seq<PropertyValue>)
    requires DistinctNames(acc + pvs)
    ensures AddAll(acc, pvs) == acc + pvs
    decreases |pvs|
  {
    if pvs != [] {
      assert (acc + pvs)[|acc|] == pvs[0];
      assert forall k :: 0 <= k < |acc| ==> acc[k].name != pvs[0].name by {
        forall k | 0 <= k < |acc| ensures acc[k].name != pvs[0].name {
          assert (acc + pvs)[k] == acc[k];
        }
      }
      AddAppendsNewName(acc, pvs[0]);
      assert acc + pvs == (acc + [pvs[0]]) + pvs[1..];
      CopyKeepsEntries(acc + [pvs[0]], pvs[1..]);
    }
  }

  /** A `MutablePropertyValues`: the ordered list of a bean's property entries. */
  class MutablePropertyValues {
    var values: seq<PropertyValue>

    /** `new MutablePropertyValues()`: an empty list. */
    constructor ()
      ensures values == []
    {
      values := [];
    }

    /**
     * The copy constructor, given the contents of the list it copies: null copies to an
     * empty list, otherwise each entry is re-added in order.
     */
    constructor Copy(other: Option<seq<PropertyValue>>)
      ensures values == if other.None? then [] else AddAll([], other.value)
    {
      values := [];
      new;
      if other.Some? {
        var source := other.value;
        var i := 0;
        while i < |source|
          invariant 0 <= i <= |source|
          invariant AddAll(values, source[i..]) == AddAll([], source)
        {
          assert source[i..][1..] == source[i + 1..];
          AddPropertyValue(source[i]);
          i := i + 1;
        }
      }
    }

    /**
     * `addPropertyValue`: the first entry with the same name is replaced in place;
     * a new name is appended.
     */
    method AddPropertyValue(pv: PropertyValue)
      modifies this
      ensures values == WithAdded(old(values), pv)
    {
      var i := 0;
      while i < |values|
        invariant 0 <= i <= |values| && values == old(values)
        invariant IndexOfName(values, pv.name, 0) == IndexOfName(values, pv.name, i)
      {
        if values[i].name == pv.name {
          values := values[i := pv];
          return;
        }
        i := i + 1;
      }
      values := values + [pv];
    }

    /** `setPropertyValueAtIndex`: only the entry at `index` changes; a bad index throws. */
    method SetPropertyValueAtIndex(index: int, pv: PropertyValue) returns (r: Outcome)
      modifies this
      ensures r.Fail? <==> !(0 <= index < |old(values)|)
      ensures r.Fail? ==> r.error == IndexOutOfBoundsException && values == old(values)
      ensures r.Pass? ==> values == old(values)[index := pv]
    {
      if 0 <= index < |values| {
        values := values[index := pv];
        r := Pass;
      } else {
        r := Fail(IndexOutOfBoundsException);
      }
    }

    /** `getPropertyValue`: the first entry with that name, or null when there is none. */
    method GetPropertyValue(name: string) returns (r: Option<PropertyValue>)
      ensures r == Lookup(values, name)
      ensures r.None? <==> forall k :: 0 <= k < |values| ==> values[k].name != name
    {
      for i := 0 to |values|
        invariant IndexOfName(values, name, 0) == IndexOfName(values, name, i)
      {
        if values[i].name == name {
          return Some(values[i]);
        }
      }
      return None;
    }

    /** `getPropertyValues`: the entries, in order. */
    method GetPropertyValues() returns (r: seq<PropertyValue>)
      ensures r == values
    {
      r := values;
    }

    /** `contains`: exactly when `getPropertyValue` finds an entry. */
    method Contains(name: string) returns (b: bool)
      ensures b <==> Lookup(values, name).Some?
    {
      var pv := GetPropertyValue(name);
      b := pv.Some?;
    }
  }
}
