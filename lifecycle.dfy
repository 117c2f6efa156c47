// The callbacks a bean receives while it is initialised and destroyed, in the order the
// factory makes them, as lists of calls: the factory runs each list until a call throws.
module Lifecycle {
  import opened Wrappers
  import opened Classes
  import opened Values
  import opened BeanDefinitions
  import opened Runtime
  import ContextAwareProcessor

  /** `setBeanName` then `setBeanFactory`, for the interfaces the bean implements. */
  function AwareCalls(table: ClassTable, bean: Obj, name: string): seq<Call>
  {
    (if Implements(table, bean.cls, BeanNameAware) then [SetBeanName(bean, name)] else [])
    + (if Implements(table, bean.cls, BeanFactoryAware) then [SetBeanFactory(bean)] else [])
  }

  /** What one processor's `postProcessBeforeInitialization` calls. */
  function ProcessorBeforeCalls(table: ClassTable, p: Processor, bean: Obj, name: string): seq<Call>
  {
    match p
    case AwareProcessor(context) => ContextAwareProcessor.BeforeCallbacks(table, context, bean)
    case UserProcessor(o) => [ProcessBefore(o, bean, name)]
  }

  /** What one processor's `postProcessBeforeInitialization` returns when it returns. */
  function ProcessorBeforeResult(world: World, p: Processor, bean: Obj, name: string): Obj
  {
    match p
    case AwareProcessor(_) => bean
    case UserProcessor(o) => world.replacement(ProcessBefore(o, bean, name))
  }

  /** What one processor's `postProcessAfterInitialization` calls. */
  function ProcessorAfterCalls(p: Processor, bean: Obj, name: string): seq<Call>
  {
    match p
    case AwareProcessor(_) => ContextAwareProcessor.AfterCallbacks(bean)
    case UserProcessor(o) => [ProcessAfter(o, bean, name)]
  }

  /** What one processor's `postProcessAfterInitialization` returns when it returns. */
  function ProcessorAfterResult(world: World, p: Processor, bean: Obj, name: string): Obj
  {
    match p
    case AwareProcessor(_) => bean
    case UserProcessor(o) => world.replacement(ProcessAfter(o, bean, name))
  }

  /** `applyBeanPostProcessorsBeforeInitialization`: every processor in turn, each given `bean`. */
  function BeforeCalls(table: ClassTable, ps: seq<Processor>, bean: Obj, name: string): seq<Call>
    decreases |ps|
  {
    if |ps| == 0 then []
    else BeforeCalls(table, ps[..|ps| - 1], bean, name) + ProcessorBeforeCalls(table, ps[|ps| - 1], bean, name)
  }

  /** The result of the before-phase: the last processor's answer, or the bean itself. */
  function BeforeResult(world: World, ps: seq<Processor>, bean: Obj, name: string): Obj
  {
    if |ps| == 0 then bean else ProcessorBeforeResult(world, ps[|ps| - 1], bean, name)
  }

  /** `applyBeanPostProcessorsAfterInitialization`: every processor in turn, each given `bean`. */
  function AfterCalls(ps: seq<Processor>, bean: Obj, name: string): seq<Call>
    decreases |ps|
  {
    if |ps| == 0 then []
    else AfterCalls(ps[..|ps| - 1], bean, name) + ProcessorAfterCalls(ps[|ps| - 1], bean, name)
  }

  function AfterResult(world: World, ps: seq<Processor>, bean: Obj, name: string): Obj
  {
    if |ps| == 0 then bean else ProcessorAfterResult(world, ps[|ps| - 1], bean, name)
  }

  /** `invokeInitMethods`: `afterPropertiesSet` if implemented, then the configured init method. */
  function InitCalls(table: ClassTable, bean: Obj, bd: BeanDefinition): seq<Call>
  {
    (if Implements(table, bean.cls, InitializingBean) then [AfterPropertiesSet(bean)] else [])
    + (if bd.initMethodName.Some? then [InitMethod(bean, bd.initMethodName.value)] else [])
  }

  /** `invokeDestroyMethod`: `destroy` if implemented, then the configured destroy method. */
  function DestroyCalls(table: ClassTable, bean: Obj, bd: BeanDefinition): seq<Call>
  {
    (if Implements(table, bean.cls, DisposableBean) then [Destroy(bean)] else [])
    + (if bd.destroyMethodName.Some? then [DestroyMethod(bean, bd.destroyMethodName.value)] else [])
  }

  /**
   * The whole lifecycle of a freshly populated bean: aware callbacks and the before-phase on
   * the bean itself, then the init calls and the after-phase on what the before-phase returned.
   */
  function LifecycleCalls(world: World, ps: seq<Processor>, name: string, bd: BeanDefinition, bean: Obj): seq<Call>
  {
    AwareCalls(world.table, bean, name) + ProcessingCalls(world, ps, name, bd, bean)
  }

  /** The calls after the aware callbacks: the before-phase, then init and after-phase on its result. */
  function ProcessingCalls(world: World, ps: seq<Processor>, name: string, bd: BeanDefinition, bean: Obj): seq<Call>
  {
    var processed := BeforeResult(world, ps, bean, name);
    BeforeCalls(world.table, ps, bean, name) + (InitCalls(world.table, processed, bd) + AfterCalls(ps, processed, name))
  }

  /** The object `createBean` hands back when no callback throws. */
  function LifecycleResult(world: World, ps: seq<Processor>, name: string, bd: BeanDefinition, bean: Obj): Obj
  {
    AfterResult(world, ps, BeforeResult(world, ps, bean, name), name)
  }

  /** One more processor adds its own calls at the end of the before-phase. */
  lemma BeforeCallsSnoc(table: ClassTable, ps: seq<Processor>, p: Processor, bean: Obj, name: string)
    ensures BeforeCalls(table, ps + [p], bean, name)
      == BeforeCalls(table, ps, bean, name) + ProcessorBeforeCalls(table, p, bean, name)
  {
    assert (ps + [p])[..|ps + [p]| - 1] == ps;
  }

  /** The before-phase is the processors' calls laid end to end. */
  lemma {:induction false} BeforeCallsAppend(table: ClassTable, a: seq<Processor>, b: seq<Processor>, bean: Obj, name: string)
    ensures BeforeCalls(table, a + b, bean, name) == BeforeCalls(table, a, bean, name) + BeforeCalls(table, b, bean, name)
    decreases |b|
  {
    if |b| == 0 {
      assert a + b == a;
    } else {
      var b', last := b[..|b| - 1], b[|b| - 1];
      assert a + b == (a + b') + [last] && b == b' + [last];
      BeforeCallsAppend(table, a, b', bean, name);
      BeforeCallsSnoc(table, a + b', last, bean, name);
      BeforeCallsSnoc(table, b', last, bean, name);
      var front, middle, tail := BeforeCalls(table, a, bean, name), BeforeCalls(table, b', bean, name),
        ProcessorBeforeCalls(table, last, bean, name);
      ConcatAssoc(front, middle, tail);
    }
  }

  lemma {:induction false} AfterCallsAppend(a: seq<Processor>, b: seq<Processor>, bean: Obj, name: string)
    ensures AfterCalls(a + b, bean, name) == AfterCalls(a, bean, name) + AfterCalls(b, bean, name)
    decreases |b|
  {
    if |b| == 0 {
      assert a + b == a;
    } else {
      var b' := b[..|b| - 1];
      assert (a + b)[..|a + b| - 1] == a + b';
      AfterCallsAppend(a, b', bean, name);
    }
  }

  /** The before-phase split by processor: one list of calls per processor. */
  function BeforeSteps(table: ClassTable, ps: seq<Processor>, bean: Obj, name: string): seq<seq<Call>>
  {
    seq(|ps|, i requires 0 <= i < |ps| => ProcessorBeforeCalls(table, ps[i], bean, name))
  }

  /** What each processor's before-callback returns, one answer per processor. */
  function BeforeAnswers(world: World, ps: seq<Processor>, bean: Obj, name: string): seq<Obj>
  {
    seq(|ps|, i requires 0 <= i < |ps| => ProcessorBeforeResult(world, ps[i], bean, name))
  }

  /** The after-phase split by processor. */
  function AfterSteps(ps: seq<Processor>, bean: Obj, name: string): seq<seq<Call>>
  {
    seq(|ps|, i requires 0 <= i < |ps| => ProcessorAfterCalls(ps[i], bean, name))
  }

  function AfterAnswers(world: World, ps: seq<Processor>, bean: Obj, name: string): seq<Obj>
  {
    seq(|ps|, i requires 0 <= i < |ps| => ProcessorAfterResult(world, ps[i], bean, name))
  }

  /**
   * The before-phase is the processors' own lists run in registration order, and its
   * result is the last processor's answer.
   */
  lemma {:induction false} BeforePhaseIsSteps(world: World, ps: seq<Processor>, bean: Obj, name: string)
    ensures BeforeCalls(world.table, ps, bean, name) == Flatten(BeforeSteps(world.table, ps, bean, name))
    ensures BeforeResult(world, ps, bean, name)
      == if |ps| == 0 then bean else BeforeAnswers(world, ps, bean, name)[|ps| - 1]
    decreases |ps|
  {
    if |ps| > 0 {
      var steps := BeforeSteps(world.table, ps, bean, name);
      BeforePhaseIsSteps(world, ps[..|ps| - 1], bean, name);
      assert steps[..|ps| - 1] == BeforeSteps(world.table, ps[..|ps| - 1], bean, name);
    }
  }

  /** Likewise for the after-phase. */
  lemma {:induction false} AfterPhaseIsSteps(world: World, ps: seq<Processor>, bean: Obj, name: string)
    ensures AfterCalls(ps, bean, name) == Flatten(AfterSteps(ps, bean, name))
    ensures AfterResult(world, ps, bean, name)
      == if |ps| == 0 then bean else AfterAnswers(world, ps, bean, name)[|ps| - 1]
    decreases |ps|
  {
    if |ps| > 0 {
      var steps := AfterSteps(ps, bean, name);
      AfterPhaseIsSteps(world, ps[..|ps| - 1], bean, name);
      assert steps[..|ps| - 1] == AfterSteps(ps[..|ps| - 1], bean, name);
    }
  }

  /**
   * Every call of the before-phase is made on the original bean: no processor sees what
   * an earlier processor returned.
   */
  lemma {:induction false} BeforePhaseSeesOriginal(table: ClassTable, ps: seq<Processor>, bean: Obj, name: string)
    ensures forall c :: c in BeforeCalls(table, ps, bean, name) ==> Target(c) == Some(bean)
    decreases |ps|
  {
    if |ps| > 0 {
      BeforePhaseSeesOriginal(table, ps[..|ps| - 1], bean, name);
      if ps[|ps| - 1].AwareProcessor? {
        ContextAwareProcessor.BeforeCallbacksHandOverContext(table, ps[|ps| - 1].context, bean);
      }
    }
  }

  /** Likewise every call of the after-phase is made on the bean the phase was given. */
  lemma {:induction false} AfterPhaseSeesOriginal(ps: seq<Processor>, bean: Obj, name: string)
    ensures forall c :: c in AfterCalls(ps, bean, name) ==> Target(c) == Some(bean)
    decreases |ps|
  {
    if |ps| > 0 {
      AfterPhaseSeesOriginal(ps[..|ps| - 1], bean, name);
    }
  }

  /** With no post-processors the bean is returned unchanged and only its own callbacks run. */
  lemma NoProcessorsKeepBean(world: World, name: string, bd: BeanDefinition, bean: Obj)
    ensures LifecycleResult(world, [], name, bd, bean) == bean
    ensures LifecycleCalls(world, [], name, bd, bean) == AwareCalls(world.table, bean, name) + InitCalls(world.table, bean, bd)
  {
  }

  /**
   * When only the context's aware processors are registered the bean is returned unchanged,
   * and the after-phase makes no call.
   */
  lemma {:induction false} AwareProcessorsKeepBean(world: World, ps: seq<Processor>, name: string, bd: BeanDefinition, bean: Obj)
    requires forall i :: 0 <= i < |ps| ==> ps[i].AwareProcessor?
    ensures LifecycleResult(world, ps, name, bd, bean) == bean
    ensures AfterCalls(ps, bean, name) == []
    decreases |ps|
  {
    if |ps| > 0 {
      AwareProcessorsKeepBean(world, ps[..|ps| - 1], name, bd, bean);
    }
  }
}
