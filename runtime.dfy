// The boundary between the container and the code it calls: every callback into a bean,
// a factory bean or a listener is a `Call`, and what such a call does is given by a `World`.
module Runtime {
  import opened Wrappers
  import opened Classes
  import opened Values

  /** An event the context publishes, naming the context (by identity) that sent it. */
  datatype Event = ContextRefreshed(source: nat) | ContextClosed(source: nat)

  /** A call from the container into application code, with its arguments. */
  datatype Call =
    | Instantiate(cls: Class, params: seq<Class>, args: seq<Value>)
    | SetProperty(bean: Obj, property: string, value: Value)
    | SetBeanName(bean: Obj, name: string)
    | SetBeanFactory(bean: Obj)
    | SetResourceLoader(bean: Obj, context: nat)
    | SetApplicationEventPublisher(bean: Obj, context: nat)
    | SetApplicationContext(bean: Obj, context: nat)
    | ProcessBefore(processor: Obj, bean: Obj, name: string)
    | ProcessAfter(processor: Obj, bean: Obj, name: string)
    | AfterPropertiesSet(bean: Obj)
    | InitMethod(bean: Obj, methodName: string)
    | Destroy(bean: Obj)
    | DestroyMethod(bean: Obj, methodName: string)
    | GetObject(factory: Obj)
    | PostProcessBeanFactory(processor: Obj)
    | OnEvent(listener: Obj, event: Event)

  /** What application code does when called: the container sees only these answers. */
  datatype World = World(
    table: ClassTable,
    outcome: Call -> Outcome,                   // whether the call returns or throws
    convert: (Value, Class) -> Result<Value>,   // `convertIfNecessary` of the bean wrapper
    product: Obj -> Option<Obj>,                // `FactoryBean.getObject()` when it returns
    objectType: Obj -> Option<Class>,           // `FactoryBean.getObjectType()`
    factoryIsSingleton: Obj -> bool,            // `FactoryBean.isSingleton()`
    replacement: Call -> Obj)                   // what a user post-processor returns

  /** A registered bean post-processor: the context's built-in aware processor or a user bean. */
  datatype Processor = AwareProcessor(context: nat) | UserProcessor(obj: Obj)

  /** `catch (Exception e) { throw new BeansException(..) }`: errors other than exceptions pass through. */
  function Wrap(e: Exception): (r: Exception)
    ensures IsJavaException(e) <==> r == BeansException
    ensures !IsJavaException(e) ==> r == e
  {
    if IsJavaException(e) then BeansException else e
  }

  /**
   * The outcome of running `calls` one after another until one throws: the exception of
   * the first call that throws, or `Pass` when every call returns.
   */
  function RunOutcome(outcome: Call -> Outcome, calls: seq<Call>): Outcome
    decreases |calls|
  {
    if |calls| == 0 then Pass
    else if outcome(calls[0]).Fail? then outcome(calls[0])
    else RunOutcome(outcome, calls[1..])
  }

  /** The calls actually made: all of them, or those up to and including the one that threw. */
  function Attempted(outcome: Call -> Outcome, calls: seq<Call>): seq<Call>
    decreases |calls|
  {
    if |calls| == 0 then []
    else if outcome(calls[0]).Fail? then [calls[0]]
    else [calls[0]] + Attempted(outcome, calls[1..])
  }

  /** A run ends at the first call that throws, after every call before it returned. */
  lemma {:induction false} StopsAt(outcome: Call -> Outcome, calls: seq<Call>, k: nat)
    requires k < |calls| && outcome(calls[k]).Fail?
    requires forall j :: 0 <= j < k ==> outcome(calls[j]).Pass?
    ensures RunOutcome(outcome, calls) == outcome(calls[k])
    ensures Attempted(outcome, calls) == calls[..k + 1]
    decreases k
  {
    if k > 0 {
      StopsAt(outcome, calls[1..], k - 1);
      assert calls[..k + 1] == [calls[0]] + calls[1..][..k];
    }
  }

  /** A run in which every call returns makes all of them and passes. */
  lemma {:induction false} RunsThrough(outcome: Call -> Outcome, calls: seq<Call>)
    requires forall j :: 0 <= j < |calls| ==> outcome(calls[j]).Pass?
    ensures RunOutcome(outcome, calls) == Pass
    ensures Attempted(outcome, calls) == calls
    decreases |calls|
  {
    if |calls| > 0 {
      RunsThrough(outcome, calls[1..]);
      assert calls == [calls[0]] + calls[1..];
    }
  }

  /** Running two lists in turn is running their concatenation. */
  lemma {:induction false} RunAppend(outcome: Call -> Outcome, a: seq<Call>, b: seq<Call>)
    ensures RunOutcome(outcome, a + b) ==
      if RunOutcome(outcome, a).Fail? then RunOutcome(outcome, a) else RunOutcome(outcome, b)
    ensures Attempted(outcome, a + b) ==
      if RunOutcome(outcome, a).Fail? then Attempted(outcome, a) else a + Attempted(outcome, b)
    decreases |a|
  {
    if |a| == 0 {
      assert a + b == b;
    } else {
      assert (a + b)[0] == a[0];
      if outcome(a[0]).Pass? {
        assert (a + b)[1..] == a[1..] + b;
        RunAppend(outcome, a[1..], b);
        if RunOutcome(outcome, a[1..]).Pass? {
          assert [a[0]] + (a[1..] + Attempted(outcome, b)) == a + Attempted(outcome, b);
        }
      }
    }
  }

  /** When the run passes, every call was made. */
  lemma {:induction false} PassedAll(outcome: Call -> Outcome, calls: seq<Call>)
    requires RunOutcome(outcome, calls).Pass?
    ensures Attempted(outcome, calls) == calls
    decreases |calls|
  {
    if |calls| > 0 {
      PassedAll(outcome, calls[1..]);
      assert calls == [calls[0]] + calls[1..];
    }
  }

  /** A run of `a` that passed, leaving `a` after `log`, and then a run of `b`, are together a run of `a + b`. */
  lemma RunThen(outcome: Call -> Outcome, log: seq<Call>, a: seq<Call>, b: seq<Call>)
    requires RunOutcome(outcome, a).Pass?
    ensures (log + a) + Attempted(outcome, b) == log + Attempted(outcome, a + b)
    ensures RunOutcome(outcome, a + b) == RunOutcome(outcome, b)
  {
    RunAppend(outcome, a, b);
    ConcatAssoc(log, a, Attempted(outcome, b));
  }

  /**
   * After a run of `done` that passed, running `step` decides: when `step` throws, the run of
   * `done + step + later` ends there; when it passes, so does `done + step`.
   */
  lemma RunStep(outcome: Call -> Outcome, done: seq<Call>, step: seq<Call>, later: seq<Call>)
    requires RunOutcome(outcome, done).Pass?
    ensures RunOutcome(outcome, step).Fail? ==>
      RunOutcome(outcome, done + step + later) == RunOutcome(outcome, step)
      && Attempted(outcome, done + step + later) == done + Attempted(outcome, step)
    ensures RunOutcome(outcome, step).Pass? ==> RunOutcome(outcome, done + step).Pass?
  {
    RunAppend(outcome, done, step);
    RunAppend(outcome, done + step, later);
    PassedAll(outcome, done);
  }

  /** The call lists of several steps, laid end to end. */
  function Flatten(steps: seq<seq<Call>>): seq<Call>
    decreases |steps|
  {
    if |steps| == 0 then [] else Flatten(steps[..|steps| - 1]) + steps[|steps| - 1]
  }

  /** The steps around step `i`: those before it, its own calls, those after it. */
  lemma FlattenAround(steps: seq<seq<Call>>, i: nat)
    requires i < |steps|
    ensures Flatten(steps[..i + 1]) == Flatten(steps[..i]) + steps[i]
    ensures Flatten(steps) == Flatten(steps[..i + 1]) + Flatten(steps[i + 1..])
  {
    assert steps[..i + 1][..i] == steps[..i];
    FlattenSplit(steps, i + 1);
  }

  /** Flattening a prefix and the rest gives the whole. */
  lemma {:induction false} FlattenSplit(steps: seq<seq<Call>>, i: nat)
    requires i <= |steps|
    ensures Flatten(steps) == Flatten(steps[..i]) + Flatten(steps[i..])
    decreases |steps|
  {
    if i == |steps| {
      assert steps[..i] == steps;
      assert steps[i..] == [];
    } else {
      var init := steps[..|steps| - 1];
      FlattenSplit(init, i);
      assert init[..i] == steps[..i];
      assert steps[i..][..|steps[i..]| - 1] == init[i..];
      assert steps[i..][|steps[i..]| - 1] == steps[|steps| - 1];
    }
  }

  /** The object a call is made on, if it is made on a bean. */
  function Target(c: Call): Option<Obj>
  {
    match c
    case SetProperty(b, _, _) => Some(b)
    case SetBeanName(b, _) => Some(b)
    case SetBeanFactory(b) => Some(b)
    case SetResourceLoader(b, _) => Some(b)
    case SetApplicationEventPublisher(b, _) => Some(b)
    case SetApplicationContext(b, _) => Some(b)
    case ProcessBefore(_, b, _) => Some(b)
    case ProcessAfter(_, b, _) => Some(b)
    case AfterPropertiesSet(b) => Some(b)
    case InitMethod(b, _) => Some(b)
    case Destroy(b) => Some(b)
    case DestroyMethod(b, _) => Some(b)
    case GetObject(f) => Some(f)
    case _ => None
  }
}
