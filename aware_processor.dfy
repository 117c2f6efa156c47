// ApplicationContextAwareProcessor: the post-processor a context registers so that beans
// implementing the context's aware interfaces receive the context before initialisation.
module ContextAwareProcessor {
  import opened Wrappers
  import opened Classes
  import opened Values
  import opened Runtime
  import StringUtils

  /**
   * The callbacks `postProcessBeforeInitialization` makes on `bean`: the resource loader,
   * then the event publisher, then the context, each only when the bean's class implements
   * the matching interface, and each handing over the processor's own context.
   */
  function BeforeCallbacks(table: ClassTable, context: nat, bean: Obj): (r: seq<Call>)
    ensures |r| <= 3
    ensures forall c :: c in r ==> Implements(table, bean.cls, AwareInterface(c))
  {
    (if Implements(table, bean.cls, ResourceLoaderAware) then [SetResourceLoader(bean, context)] else [])
    + (if Implements(table, bean.cls, ApplicationEventPublisherAware) then [SetApplicationEventPublisher(bean, context)] else [])
    + (if Implements(table, bean.cls, ApplicationContextAware) then [SetApplicationContext(bean, context)] else [])
  }

  /** Every callback is one of the three setters, made on `bean` and handing over `context`. */
  lemma BeforeCallbacksHandOverContext(table: ClassTable, context: nat, bean: Obj)
    ensures forall c :: c in BeforeCallbacks(table, context, bean) ==>
      Target(c) == Some(bean)
      && (c.SetResourceLoader? || c.SetApplicationEventPublisher? || c.SetApplicationContext?)
      && c.context == context
  {
  }

  /** `postProcessAfterInitialization` makes no callback. */
  function AfterCallbacks(bean: Obj): (r: seq<Call>)
    ensures |r| == 0
  {
    []
  }

  /** The interface whose setter `c` is, for the three aware callbacks. */
  function AwareInterface(c: Call): Iface
  {
    match c
    case SetResourceLoader(_, _) => ResourceLoaderAware
    case SetApplicationEventPublisher(_, _) => ApplicationEventPublisherAware
    case _ => ApplicationContextAware
  }

  /** All three callbacks in the fixed order the processor tries them. */
  function AllCallbacks(context: nat, bean: Obj): seq<Call>
  {
    [SetResourceLoader(bean, context), SetApplicationEventPublisher(bean, context), SetApplicationContext(bean, context)]
  }

  /**
   * The callbacks made are exactly the fixed list filtered by the interfaces the bean
   * implements: nothing is called twice, nothing out of order, nothing unasked.
   */
  lemma BeforeCallbacksAreFiltered(table: ClassTable, context: nat, bean: Obj)
    ensures BeforeCallbacks(table, context, bean) == StringUtils.Filter(AllCallbacks(context, bean), Wanted(table, bean))
  {
    var keep := Wanted(table, bean);
    var a, b, c := SetResourceLoader(bean, context), SetApplicationEventPublisher(bean, context), SetApplicationContext(bean, context);
    var ia := if Implements(table, bean.cls, ResourceLoaderAware) then [a] else [];
    var ib := if Implements(table, bean.cls, ApplicationEventPublisherAware) then [b] else [];
    var ic := if Implements(table, bean.cls, ApplicationContextAware) then [c] else [];
    assert BeforeCallbacks(table, context, bean) == (ia + ib) + ic;
    assert (ia + ib) + ic == ia + (ib + ic);
    assert AllCallbacks(context, bean) == [a] + ([b] + [c]);
    StringUtils.FilterAppend([a], [b] + [c], keep);
    StringUtils.FilterAppend([b], [c], keep);
    var fa, fb, fc := StringUtils.Filter([a], keep), StringUtils.Filter([b], keep), StringUtils.Filter([c], keep);
    assert StringUtils.Filter(AllCallbacks(context, bean), keep) == fa + (fb + fc);
    WantedByInterface(table, context, bean);
    FilterOne(a, keep);
    FilterOne(b, keep);
    FilterOne(c, keep);
  }

  /** Each of the three callbacks is wanted exactly when the bean implements its interface. */
  lemma WantedByInterface(table: ClassTable, context: nat, bean: Obj)
    ensures Wanted(table, bean)(SetResourceLoader(bean, context)) == Implements(table, bean.cls, ResourceLoaderAware)
    ensures Wanted(table, bean)(SetApplicationEventPublisher(bean, context))
      == Implements(table, bean.cls, ApplicationEventPublisherAware)
    ensures Wanted(table, bean)(SetApplicationContext(bean, context)) == Implements(table, bean.cls, ApplicationContextAware)
  {
  }

  /** Whether the bean's class implements the interface of the callback. */
  function Wanted(table: ClassTable, bean: Obj): Call -> bool
  {
    (c: Call) => Implements(table, bean.cls, AwareInterface(c))
  }

  lemma FilterOne(x: Call, keep: Call -> bool)
    ensures StringUtils.Filter([x], keep) == if keep(x) then [x] else []
  {
    assert [x][1..] == [];
  }
}
