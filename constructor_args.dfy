// ConstructorArgumentValues: the <constructor-arg> values of a definition, by index and generic.
module ConstructorArgs {
  import opened Wrappers
  import opened Classes
  import opened Values

  /** A `ValueHolder`: an argument value and the optional class name it declares. */
  datatype ValueHolder = ValueHolder(value: Value, typeName: Option<string>)

  /**
   * The contents of a `ConstructorArgumentValues` as a definition holds them. The generic
   * holders are a `HashSet` compared by identity, so every add is a new element; the
   * sequence keeps each of them and says nothing about the set's iteration order.
   */
  datatype ArgValues = ArgValues(indexed: map<int, ValueHolder>, generic: seq<ValueHolder>)

  /** The index lookup rule: the holder at `index`, if it is untyped or declares `requiredType`'s name. */
  function IndexedMatch(indexed: map<int, ValueHolder>, index: int, requiredType: Class): (r: Option<ValueHolder>)
    ensures r.Some? <==> index in indexed && (indexed[index].typeName.None? || indexed[index].typeName.value == ClassName(requiredType))
    ensures r.Some? ==> r.value == indexed[index]
  {
    if index in indexed then
      var h := indexed[index];
      if h.typeName.None? || ClassName(requiredType) == h.typeName.value then Some(h) else None
    else None
  }

  /**
   * Whether the generic lookup accepts `h`: a typed holder when its type name is the
   * required class's name; an untyped one when its value is an instance of the required
   * class, or a list while an array is required.
   */
  predicate GenericFits(table: ClassTable, h: ValueHolder, requiredType: Class)
  {
    if h.typeName.Some? then h.typeName.value == ClassName(requiredType)
    else IsInstanceOf(table, requiredType, h.value) || (requiredType.ArrayOf? && IsList(h.value))
  }

  /** `getNumberOfArguments`: indexed entries plus generic holders. */
  function NumberOfArguments(a: ArgValues): nat
  {
    |a.indexed| + |a.generic|
  }

  /** A typed holder is never taken for a class of another name, whatever its value. */
  lemma TypedHolderMatchesOnlyByName(table: ClassTable, h: ValueHolder, t: Class)
    requires h.typeName.Some? && h.typeName.value != ClassName(t)
    ensures !GenericFits(table, h, t)
    ensures forall m: map<int, ValueHolder>, i :: i in m && m[i] == h ==> IndexedMatch(m, i, t).None?
  {
  }

  /** An untyped list value fits every array parameter. */
  lemma UntypedListFitsArray(table: ClassTable, items: seq<Value>, component: Class)
    ensures GenericFits(table, ValueHolder(Managed(items), None), ArrayOf(component))
    ensures GenericFits(table, ValueHolder(JList(items), None), ArrayOf(component))
  {
  }

  /** A mutable `ConstructorArgumentValues`. */
  class ConstructorArgumentValues {
    var indexed: map<int, ValueHolder>
    var generic: seq<ValueHolder>

    constructor ()
      ensures indexed == map[] && generic == []
    {
      indexed := map[];
      generic := [];
    }

    /** The current contents as a value. */
    function Contents(): ArgValues
      reads this
    {
      ArgValues(indexed, generic)
    }

    /** `addIndexedArgumentValue`: a new holder at `index`, replacing any previous one. */
    method AddIndexedArgumentValue(index: int, value: Value, typeName: Option<string>)
      modifies this
      ensures indexed == old(indexed)[index := ValueHolder(value, typeName)]
      ensures generic == old(generic)
    {
      indexed := indexed[index := ValueHolder(value, typeName)];
    }

    /** `addGenericArgumentValue`: one more holder, even when an equal one is present. */
    method AddGenericArgumentValue(value: Value, typeName: Option<string>)
      modifies this
      ensures generic == old(generic) + [ValueHolder(value, typeName)]
      ensures indexed == old(indexed)
    {
      generic := generic + [ValueHolder(value, typeName)];
    }

    /** `getIndexedArgumentValue`. */
    method GetIndexedArgumentValue(index: int, requiredType: Class) returns (r: Option<ValueHolder>)
      ensures r == IndexedMatch(indexed, index, requiredType)
    {
      r := None;
      if index in indexed {
        var h := indexed[index];
        if h.typeName.None? || ClassName(requiredType) == h.typeName.value {
          r := Some(h);
        }
      }
    }

    /**
     * `getGenericArgumentValue`: some holder that fits, or null when none does. Which one
     * comes back depends on the set's iteration order, which is left open.
     */
    method GetGenericArgumentValue(table: ClassTable, requiredType: Class) returns (r: Option<ValueHolder>)
      ensures r.Some? ==> r.value in generic && GenericFits(table, r.value, requiredType)
      ensures r.None? <==> forall k :: 0 <= k < |generic| ==> !GenericFits(table, generic[k], requiredType)
    {
      if exists k :: 0 <= k < |generic| && GenericFits(table, generic[k], requiredType) {
        var k :| 0 <= k < |generic| && GenericFits(table, generic[k], requiredType);
        r := Some(generic[k]);
      } else {
        r := None;
      }
    }

    /** `getArgumentValue`: the indexed match when there is one, otherwise a generic match. */
    method GetArgumentValue(table: ClassTable, index: int, requiredType: Class) returns (r: Option<ValueHolder>)
      ensures IndexedMatch(indexed, index, requiredType).Some? ==> r == IndexedMatch(indexed, index, requiredType)
      ensures IndexedMatch(indexed, index, requiredType).None? && r.Some? ==>
        r.value in generic && GenericFits(table, r.value, requiredType)
      ensures r.None? <==>
        IndexedMatch(indexed, index, requiredType).None? &&
        forall k :: 0 <= k < |generic| ==> !GenericFits(table, generic[k], requiredType)
    {
      r := GetIndexedArgumentValue(index, requiredType);
      if r.None? {
        r := GetGenericArgumentValue(table, requiredType);
      }
    }

    /** `getNumberOfArguments`. */
    method GetNumberOfArguments() returns (n: nat)
      ensures n == NumberOfArguments(Contents())
    {
      n := |indexed| + |generic|;
    }

    /** `isEmpty`: no indexed and no generic holder, that is, no arguments at all. */
    method IsEmpty() returns (b: bool)
      ensures b <==> NumberOfArguments(Contents()) == 0
      ensures b <==> indexed == map[] && generic == []
    {
      b := |indexed| == 0 && |generic| == 0;
    }
  }

  /** Adding at an occupied index overwrites: the lookup then sees only the new holder. */
  lemma IndexedLookupAfterAdd(indexed: map<int, ValueHolder>, index: int, h: ValueHolder, t: Class)
    ensures IndexedMatch(indexed[index := h], index, t) ==
      (if h.typeName.None? || h.typeName.value == ClassName(t) then Some(h) else None)
    ensures |indexed[index := h]| == if index in indexed then |indexed| else |indexed| + 1
  {
  }
}
