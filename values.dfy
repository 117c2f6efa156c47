// The values a bean definition holds and the objects the container hands out.
module Values {
  import opened Wrappers
  import opened Classes
  import opened NumberUtils

  /** An object reference: its identity and its runtime class. */
  datatype Obj = Obj(id: nat, cls: Class)

  /**
   * A Java object a definition or a property can hold. `Ref` is a
   * `RuntimeBeanReference`, `Managed` a `ManagedList` still to be resolved, and
   * `JList` the `ArrayList` resolution builds from one.
   */
  datatype Value =
    | Null
    | Text(s: string)
    | Bool(b: bool)
    | Num(n: Number)
    | Ref(beanName: string)
    | Managed(items: seq<Value>)
    | JList(items: seq<Value>)
    | Instance(obj: Obj)

  /** `value.getClass()`, or `None` for null. */
  function ClassOf(v: Value): Option<Class>
  {
    match v
    case Null => None
    case Text(_) => Some(StringClass)
    case Bool(_) => Some(Wrapper(Boolean))
    case Num(n) => Some(KindClass(n.kind))
    case Ref(_) => Some(ReferenceClass)
    case Managed(_) => Some(ManagedListClass)
    case JList(_) => Some(ArrayListClass)
    case Instance(o) => Some(o.cls)
  }

  /** `type.isInstance(value)`: a non-null value whose class is assignable to `t`. */
  predicate IsInstanceOf(table: ClassTable, t: Class, v: Value)
  {
    ClassOf(v).Some? && IsAssignableFrom(table, t, ClassOf(v).value)
  }

  predicate IsList(v: Value) { v.Managed? || v.JList? }

  /**
   * `a.equals(b)` for a non-null `a`: lists compare element by element (null-safe),
   * objects by identity, strings, booleans and numbers by class and value.
   */
  predicate ValueEquals(a: Value, b: Value)
    decreases a, 0
  {
    if IsList(a) then
      IsList(b) && |a.items| == |b.items|
      && forall i :: 0 <= i < |a.items| ==> NullSafeEquals(a.items[i], b.items[i])
    else a == b
  }

  /** `Objects.equals(a, b)`. */
  predicate NullSafeEquals(a: Value, b: Value)
    decreases a, 1
  {
    if a.Null? then b.Null? else ValueEquals(a, b)
  }

  /** `equals` on values is reflexive. */
  lemma {:induction false} ValueEqualsReflexive(a: Value)
    ensures ValueEquals(a, a)
    decreases a
  {
    if IsList(a) {
      forall i | 0 <= i < |a.items| ensures NullSafeEquals(a.items[i], a.items[i]) {
        if !a.items[i].Null? {
          ValueEqualsReflexive(a.items[i]);
        }
      }
    }
  }

  /**
   * `w` is a possible resolution of `v`: a bean reference becomes an object, a managed list
   * an `ArrayList` whose elements resolve the originals one by one, and any other value is
   * kept as it is.
   */
  predicate Resolves(v: Value, w: Value)
    decreases v
  {
    match v
    case Ref(_) => w.Instance?
    case Managed(items) =>
      w.JList? && |w.items| == |items| && forall i :: 0 <= i < |items| ==> Resolves(items[i], w.items[i])
    case _ => w == v
  }

  /** The value names the bean `n`: a reference to it, or a managed list holding one at any depth. */
  predicate RefersTo(v: Value, n: string)
    decreases v
  {
    match v
    case Ref(b) => b == n
    case Managed(items) => exists i :: 0 <= i < |items| && RefersTo(items[i], n)
    case _ => false
  }

  /** No `ArrayList` anywhere in the value: what a definition declares rather than builds. */
  predicate Declared(v: Value)
    decreases v
  {
    match v
    case JList(_) => false
    case Managed(items) => forall i :: 0 <= i < |items| ==> Declared(items[i])
    case _ => true
  }

  /** No bean reference and no managed list left anywhere in the value. */
  predicate Plain(w: Value)
    decreases w
  {
    match w
    case Ref(_) => false
    case Managed(_) => false
    case JList(items) => forall i :: 0 <= i < |items| ==> Plain(items[i])
    case _ => true
  }

  /** Resolving a declared value leaves nothing to resolve. */
  lemma {:induction false} ResolvedIsPlain(v: Value, w: Value)
    requires Declared(v) && Resolves(v, w)
    ensures Plain(w)
    decreases v
  {
    if v.Managed? {
      forall i | 0 <= i < |w.items| ensures Plain(w.items[i]) {
        ResolvedIsPlain(v.items[i], w.items[i]);
      }
    }
  }
}
