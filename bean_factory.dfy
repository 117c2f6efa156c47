// DefaultListableBeanFactory, with the template methods of AbstractBeanFactory and
// AbstractAutowireCapableBeanFactory it inherits: the registry of bean definitions, the
// singleton cache, bean creation with autowiring, and the lifecycle callbacks.
module BeanFactory {
  import opened Wrappers
  import opened Classes
  import opened ClassUtils
  import opened Values
  import opened PropertyValues
  import opened ConstructorArgs
  import opened BeanDefinitions
  import opened Runtime
  import opened Lifecycle
  import opened SortedNames
  import opened FactoryStates
  import PropertyAccessor

  /** The prefix that asks for a factory bean itself rather than for its product. */
  const FACTORY_BEAN_PREFIX: string := "&"

  /** The name starts with the factory-bean prefix. */
  predicate IsFactoryDereference(name: string)
  {
    |name| > 0 && name[0] == '&'
  }

  /** `getResolvedBeanName` on a non-null name: at most one leading prefix is removed. */
  function Stripped(name: string): (r: string)
    ensures IsFactoryDereference(name) ==> FACTORY_BEAN_PREFIX + r == name
    ensures !IsFactoryDereference(name) ==> r == name
  {
    if IsFactoryDereference(name) then name[1..] else name
  }

  /** Asking for `&name` resolves to `name`, whatever `name` starts with. */
  lemma PrefixRoundTrip(name: string)
    ensures Stripped(FACTORY_BEAN_PREFIX + name) == name
  {
    assert (FACTORY_BEAN_PREFIX + name)[1..] == name;
  }

  /**
   * `getBeanFromSharedInstance`: a prefixed name must denote a factory bean and then gets
   * the factory itself; a plain name of a factory bean gets its product, and a product
   * that cannot be made is an error; any other object is returned as it is.
   */
  function SharedResult(world: World, name: string, shared: Obj): (r: Result<Obj>)
    ensures IsFactoryDereference(name) ==>
      r == if Implements(world.table, shared.cls, FactoryBean) then Ok(shared) else Err(BeansException)
    ensures !IsFactoryDereference(name) && !Implements(world.table, shared.cls, FactoryBean) ==> r == Ok(shared)
    ensures !IsFactoryDereference(name) && Implements(world.table, shared.cls, FactoryBean) ==>
      (r.Ok? <==> world.outcome(GetObject(shared)).Pass? && world.product(shared).Some?)
      && (r.Ok? ==> r.value == world.product(shared).value)
      && (r.Err? ==> r.error == BeansException || !IsJavaException(r.error))
  {
    var isFactory := Implements(world.table, shared.cls, FactoryBean);
    if IsFactoryDereference(name) && !isFactory then Err(BeansException)
    else if isFactory && !IsFactoryDereference(name) then
      match world.outcome(GetObject(shared))
      case Fail(e) => Err(Wrap(e))
      case Pass => if world.product(shared).None? then Err(BeansException) else Ok(world.product(shared).value)
    else Ok(shared)
  }

  /** The definition names, in registration order, whose class is assignable to `t` (all of them for null). */
  function NamesOfType(table: ClassTable, names: seq<string>, defs: map<string, BeanDefinition>, t: Option<Class>): (r: seq<string>)
    requires forall n :: n in names ==> n in defs
    ensures forall n :: n in r <==> n in names && (t.None? || IsAssignableFrom(table, t.value, defs[n].beanClass))
    decreases |names|
  {
    if |names| == 0 then []
    else
      var last := names[|names| - 1];
      assert names == names[..|names| - 1] + [last];
      var init := NamesOfType(table, names[..|names| - 1], defs, t);
      if t.None? || IsAssignableFrom(table, t.value, defs[last].beanClass) then init + [last] else init
  }

  /** Without a type every name is kept, in order. */
  lemma {:induction false} NamesOfAnyType(table: ClassTable, names: seq<string>, defs: map<string, BeanDefinition>)
    requires forall n :: n in names ==> n in defs
    ensures NamesOfType(table, names, defs, None) == names
    decreases |names|
  {
    if |names| > 0 {
      NamesOfAnyType(table, names[..|names| - 1], defs);
      assert names == names[..|names| - 1] + [names[|names| - 1]];
    }
  }

  /** A list of distinct names holds as many names as it is long. */
  lemma {:induction false} DistinctCount(names: seq<string>)
    requires forall i, j :: 0 <= i < j < |names| ==> names[i] != names[j]
    ensures |(set n | n in names)| == |names|
    decreases |names|
  {
    if |names| > 0 {
      var init, last := names[..|names| - 1], names[|names| - 1];
      DistinctCount(init);
      assert names == init + [last];
      assert (set n | n in names) == (set n | n in init) + {last};
    }
  }

  /** A registry whose names are distinct and are exactly its keys holds as many entries as names. */
  lemma CountOfDistinct(names: seq<string>, defs: map<string, BeanDefinition>)
    requires forall i, j :: 0 <= i < j < |names| ==> names[i] != names[j]
    requires forall n :: n in defs <==> n in names
    ensures |defs| == |names|
  {
    DistinctCount(names);
    assert defs.Keys == set n | n in names;
  }

  /** A property autowiring may fill: it has a setter and its type is not simple. */
  predicate AutowireCandidate(p: Property)
  {
    p.writable && IsSimpleProperty(Some(p.ptype)) == Ok(false)
  }

  /**
   * The definition gives no value for `n`, a writable property of the bean's class whose
   * type is not simple.
   */
  predicate IsUnsatisfied(table: ClassTable, bd: BeanDefinition, bean: Obj, n: string)
  {
    var props := Info(table, bean.cls).properties;
    bd.propertyValues.Some? && Lookup(bd.propertyValues.value, n).None?
    && exists k :: 0 <= k < |props| && props[k].name == n && AutowireCandidate(props[k])
  }

  /** One of the descriptors `props` is of a property called `n`. */
  predicate HasProperty(props: seq<Property>, n: string)
  {
    exists k :: 0 <= k < |props| && props[k].name == n
  }

  /** Every unsatisfied property name is the name of one of the bean's properties. */
  lemma UnsatisfiedAreProperties(table: ClassTable, bd: BeanDefinition, bean: Obj, names: seq<string>)
    requires forall n :: n in names <==> IsUnsatisfied(table, bd, bean, n)
    ensures forall i :: 0 <= i < |names| ==> HasProperty(Info(table, bean.cls).properties, names[i])
  {
    forall i | 0 <= i < |names| ensures HasProperty(Info(table, bean.cls).properties, names[i]) {
      assert names[i] in names;
    }
  }

  /** One of the entries' values names the bean `n`. */
  predicate RefersToIn(pvs: seq<PropertyValue>, n: string)
  {
    exists k :: 0 <= k < |pvs| && RefersTo(pvs[k].value, n)
  }

  /**
   * Autowiring a definition that has no property list meets a property it could fill, on
   * which `unsatisfiedObjectProperties` throws a NullPointerException.
   */
  predicate MissingValues(table: ClassTable, bd: BeanDefinition, bean: Obj)
  {
    var props := Info(table, bean.cls).properties;
    bd.propertyValues.None? && exists k :: 0 <= k < |props| && AutowireCandidate(props[k])
  }

  /** The last call made after `before` is a setter of `bean`, and it threw `e`. */
  predicate SetterFailed(world: World, bean: Obj, before: seq<Call>, log: seq<Call>, e: Exception)
  {
    |before| < |log| && log[|log| - 1].SetProperty? && log[|log| - 1].bean == bean
    && world.outcome(log[|log| - 1]) == Fail(e)
  }

  /**
   * What populating a bean went through: its outcome, the property list applied when it was
   * completed by autowiring, the request whose failure ended it, and what each lookup by
   * type answered.
   */
  datatype Population = Population(outcome: Outcome, applied: seq<PropertyValue>, failed: Request,
                                   found: seq<Result<map<string, Obj>>>)

  /**
   * `populateBean` took `bean` from `s` to `t` as `p` records. Without autowiring, a
   * definition without a property list changes nothing, and otherwise its declared values
   * end the log as setter calls; with autowiring, the completed list does, and it differs
   * from the declared one only in unsatisfied properties given a bean (by name: every one
   * named like a known bean). A failure is one `PopulationFailed` names.
   */
  ghost predicate Populated(world: World, bd: BeanDefinition, bean: Obj, s: FactoryState, t: FactoryState, p: Population)
  {
    var mode := ResolvedAutowireMode(bd, world.table);
    var autowired := mode == AUTOWIRE_BY_NAME || mode == AUTOWIRE_BY_TYPE;
    var declared := if bd.propertyValues.None? then [] else AddAll([], bd.propertyValues.value);
    (!autowired && bd.propertyValues.None? ==> p.outcome == Pass && t == s)
    && (!autowired && bd.propertyValues.Some? && p.outcome.Pass? ==> EndsWithSetters(t.log, bean, declared))
    && (autowired && p.outcome.Pass? ==>
          EndsWithSetters(t.log, bean, AddAll([], p.applied))
          && forall n :: Lookup(p.applied, n) != Lookup(declared, n) ==>
               IsUnsatisfied(world.table, bd, bean, n) && FilledWithBean(p.applied, n))
    && (mode == AUTOWIRE_BY_NAME && p.outcome.Pass? ==>
          forall n :: IsUnsatisfied(world.table, bd, bean, n) && Known(s, n) ==> FilledWithBean(p.applied, n))
    && (p.outcome.Fail? ==> PopulationFailed(world, bd, bean, s.log, t.log, p.applied, p.failed, p.found, p.outcome.error))
  }

  /**
   * `initializeBean` took `bean` from `s` to `t`, answering `r`: its lifecycle calls were
   * made until one threw, and only the log changed; the answer is that exception wrapped,
   * or what the callbacks made of the bean.
   */
  ghost predicate Initialized(world: World, name: string, bd: BeanDefinition, bean: Obj, s: FactoryState, t: FactoryState, r: Result<Obj>)
  {
    var calls := LifecycleCalls(world, s.postProcessors, name, bd, bean);
    t == s.(log := s.log + Attempted(world.outcome, calls))
    && r == if RunOutcome(world.outcome, calls).Fail? then Err(Wrap(RunOutcome(world.outcome, calls).error))
            else Ok(LifecycleResult(world, s.postProcessors, name, bd, bean))
  }

  /**
   * Why populating `bean` failed with `e`, the log having gone from `before` to `log`:
   * autowiring met a definition without a property list; a bean autowired by name could not
   * be got; the last lookup by type threw or found several beans; a bean named by one of
   * the values applied could not be got; or a setter threw.
   */
  ghost predicate PopulationFailed(world: World, bd: BeanDefinition, bean: Obj, before: seq<Call>, log: seq<Call>,
                                   applied: seq<PropertyValue>, failed: Request, found: seq<Result<map<string, Obj>>>,
                                   e: Exception)
  {
    var mode := ResolvedAutowireMode(bd, world.table);
    var autowired := mode == AUTOWIRE_BY_NAME || mode == AUTOWIRE_BY_TYPE;
    var values := if autowired then AddAll([], applied)
                  else if bd.propertyValues.Some? then AddAll([], bd.propertyValues.value) else [];
    (autowired && e == NullPointerException && MissingValues(world.table, bd, bean))
    || (mode == AUTOWIRE_BY_NAME && IsUnsatisfied(world.table, bd, bean, failed.name) && FailedRequest(world, failed, e))
    || (mode == AUTOWIRE_BY_TYPE && found != []
        && (if found[|found| - 1].Err? then e == found[|found| - 1].error
            else |found[|found| - 1].value| > 1 && e == BeansException))
    || (RefersToIn(values, failed.name) && FailedRequest(world, failed, e))
    || SetterFailed(world, bean, before, log, e)
  }

  /** The list holds an object bean under `n`. */
  predicate FilledWithBean(pvs: seq<PropertyValue>, n: string)
  {
    Lookup(pvs, n).Some? && Lookup(pvs, n).value.value.Instance?
  }

  /** The type of the property called `name`, from the first descriptor with that name. */
  function PropertyType(props: seq<Property>, name: string): Class
    requires HasProperty(props, name)
  {
    if props[0].name == name then props[0].ptype
    else
      assert HasProperty(props[1..], name) by {
        var k :| 0 <= k < |props| && props[k].name == name;
        assert props[1..][k - 1].name == name;
      }
      PropertyType(props[1..], name)
  }

  /** The calls are, one for one, the setter calls `bean` receives for resolved `entries`. */
  predicate SettersFor(calls: seq<Call>, bean: Obj, entries: seq<PropertyValue>)
  {
    |calls| == |entries|
    && forall i :: 0 <= i < |entries| ==>
      calls[i].SetProperty? && calls[i].bean == bean && calls[i].property == entries[i].name
      && Resolves(entries[i].value, calls[i].value)
  }

  /** The setter calls `bean` received for `entries`, in order, at the end of `log`. */
  predicate EndsWithSetters(log: seq<Call>, bean: Obj, entries: seq<PropertyValue>)
  {
    |log| >= |entries| && SettersFor(log[|log| - |entries|..], bean, entries)
  }

  /** Setters for entries resolved one by one, appended to a log, end it as `EndsWithSetters` says. */
  lemma SettersAtEnd(log: seq<Call>, bean: Obj, entries: seq<PropertyValue>, resolved: seq<PropertyValue>)
    requires |resolved| == |entries|
    requires forall j :: 0 <= j < |entries| ==>
      resolved[j].name == entries[j].name && Resolves(entries[j].value, resolved[j].value)
    ensures EndsWithSetters(log + SetterCalls(bean, resolved), bean, entries)
  {
    var calls := SetterCalls(bean, resolved);
    assert (log + calls)[|log|..] == calls;
  }

  /** The setter calls made for the entries a property accessor attempted. */
  function SetterCalls(bean: Obj, attempted: seq<PropertyValue>): (calls: seq<Call>)
    ensures |calls| == |attempted|
    ensures forall i :: 0 <= i < |attempted| ==> calls[i] == SetProperty(bean, attempted[i].name, attempted[i].value)
  {
    seq(|attempted|, i requires 0 <= i < |attempted| => SetProperty(bean, attempted[i].name, attempted[i].value))
  }

  /**
   * `getBean(name)` answered `r` while the factory went from `s` to `t`, as far as the
   * cache and the registry decide it: a name that is cached without its prefix is served
   * from the cache, which stays as it was; an unknown name is a BeansException and changes
   * nothing; a singleton it gets is cached. The factory changes only as `Grew` allows.
   */
  ghost predicate Served(world: World, s: FactoryState, t: FactoryState, name: string, r: Result<Obj>)
  {
    Grew(s, t) && (r.Ok? ==> Caches(t, name))
    && (Stripped(name) in s.singletons ==>
      t.singletons == s.singletons && r == SharedResult(world, name, s.singletons[Stripped(name)]))
    && (Stripped(name) !in s.singletons && Stripped(name) !in s.definitions ==> t == s && r == Err(BeansException))
  }

  /** All `getBean(name)` promises: `Served`, and any other bean it returns is made anew, as `Made` says. */
  ghost predicate GotBean(world: World, s: FactoryState, t: FactoryState, name: string, r: Result<Obj>)
  {
    Served(world, s, t, name, r)
    && (Stripped(name) !in s.singletons && Stripped(name) in s.definitions && r.Ok? ==> Made(world, s, t, name, r.value))
  }

  /**
   * `obj` was made anew for `name`: from an instance of the definition's class whose
   * identity was not handed out before `s`, taken through its lifecycle callbacks. A
   * singleton is then cached under the name without its prefix and served as a shared
   * instance; a prototype is returned as it is.
   */
  ghost predicate Made(world: World, s: FactoryState, t: FactoryState, name: string, obj: Obj)
    requires Stripped(name) in s.definitions
  {
    var bd := s.definitions[Stripped(name)];
    exists bean: Obj :: bean.cls == bd.beanClass && s.nextId <= bean.id < t.nextId
      && if bd.singleton then
           var made := LifecycleResult(world, s.postProcessors, Stripped(name), bd, bean);
           Stripped(name) in t.singletons && t.singletons[Stripped(name)] == made
           && Ok(obj) == SharedResult(world, name, made)
         else obj == LifecycleResult(world, s.postProcessors, name, bd, bean)
  }

  /** `containsBean`: the name without its prefix is cached or defined. */
  predicate Known(st: FactoryState, name: string)
  {
    Stripped(name) in st.singletons || Stripped(name) in st.definitions
  }

  /** The names a definition depends on, in the order given; none when it names none. */
  function DependsOn(bd: BeanDefinition): seq<string>
  {
    if bd.dependsOn.Some? then bd.dependsOn.value else []
  }

  /** A singleton definition of `name` without its prefix has its object cached in `st`. */
  predicate Caches(st: FactoryState, name: string)
  {
    Stripped(name) in st.definitions && st.definitions[Stripped(name)].singleton ==> Stripped(name) in st.singletons
  }

  /** One `getBean` request: the name asked for, the factory before and after, and the answer. */
  datatype Request = Request(name: string, before: FactoryState, after: FactoryState, result: Result<Obj>)

  /** `getBean` answered the request with the exception `e`, as `GotBean` allows it to. */
  ghost predicate FailedRequest(world: World, req: Request, e: Exception)
  {
    GotBean(world, req.before, req.after, req.name, req.result) && req.result == Err(e)
  }

  /** The names asked for, in order. */
  function Names(reqs: seq<Request>): (names: seq<string>)
    ensures |names| == |reqs| && forall k :: 0 <= k < |reqs| ==> names[k] == reqs[k].name
  {
    seq(|reqs|, k requires 0 <= k < |reqs| => reqs[k].name)
  }

  /** The request was answered as `getBean` serves it. */
  ghost predicate Answered(world: World, req: Request)
  {
    Served(world, req.before, req.after, req.name, req.result)
  }

  /** `reqs` are `getBean` requests made one straight after another, taking the factory from `s` to `t`. */
  ghost predicate Chain(world: World, s: FactoryState, t: FactoryState, reqs: seq<Request>)
  {
    (if reqs == [] then s == t else reqs[0].before == s && reqs[|reqs| - 1].after == t)
    && (forall k :: 0 <= k < |reqs| - 1 ==> reqs[k].after == reqs[k + 1].before)
    && (forall k :: 0 <= k < |reqs| ==> Answered(world, reqs[k]))
  }

  /** A single request is a run of requests. */
  lemma OneRequest(world: World, req: Request)
    requires Answered(world, req)
    ensures Chain(world, req.before, req.after, [req])
  {
  }

  /** Two runs of requests, one after the other, are one run. */
  lemma ChainAppend(world: World, s: FactoryState, t: FactoryState, u: FactoryState, a: seq<Request>, b: seq<Request>)
    requires Chain(world, s, t, a) && Chain(world, t, u, b)
    ensures Chain(world, s, u, a + b)
  {
    var ab := a + b;
    forall k | 0 <= k < |ab| - 1 ensures ab[k].after == ab[k + 1].before {
      if k + 1 < |a| {
        assert ab[k] == a[k] && ab[k + 1] == a[k + 1];
      } else if k + 1 == |a| {
        assert ab[k] == a[|a| - 1] && ab[k + 1] == b[0];
      } else {
        assert ab[k] == b[k - |a|] && ab[k + 1] == b[k - |a| + 1];
      }
    }
    forall k | 0 <= k < |ab| ensures Answered(world, ab[k]) {
      if k < |a| {
        assert ab[k] == a[k];
      } else {
        assert ab[k] == b[k - |a|];
      }
    }
  }

  /** A run of requests changes the factory only as getting beans may. */
  lemma {:induction false} ChainGrew(world: World, s: FactoryState, t: FactoryState, reqs: seq<Request>)
    requires Chain(world, s, t, reqs)
    ensures Grew(s, t)
    decreases |reqs|
  {
    if reqs != [] {
      var rest := reqs[1..];
      assert Answered(world, reqs[0]);
      forall k | 0 <= k < |rest| - 1 ensures rest[k].after == rest[k + 1].before {
        assert rest[k] == reqs[k + 1] && rest[k + 1] == reqs[k + 2];
      }
      forall k | 0 <= k < |rest| ensures Answered(world, rest[k]) {
        assert rest[k] == reqs[k + 1];
      }
      if rest != [] {
        assert rest[0] == reqs[1] && rest[|rest| - 1] == reqs[|reqs| - 1];
      }
      ChainGrew(world, reqs[0].after, t, rest);
      GrewTrans(s, reqs[0].after, t);
    }
  }

  /** Every singleton a run of requests got is still cached when the run ends. */
  lemma {:induction false} ChainCaches(world: World, s: FactoryState, t: FactoryState, reqs: seq<Request>)
    requires Chain(world, s, t, reqs)
    ensures forall k :: 0 <= k < |reqs| && reqs[k].result.Ok? ==> Caches(t, reqs[k].name)
    decreases |reqs|
  {
    if reqs != [] {
      var rest := reqs[1..];
      assert Answered(world, reqs[0]);
      forall k | 0 <= k < |rest| - 1 ensures rest[k].after == rest[k + 1].before {
        assert rest[k] == reqs[k + 1] && rest[k + 1] == reqs[k + 2];
      }
      forall k | 0 <= k < |rest| ensures Answered(world, rest[k]) {
        assert rest[k] == reqs[k + 1];
      }
      if rest != [] {
        assert rest[0] == reqs[1] && rest[|rest| - 1] == reqs[|reqs| - 1];
      }
      ChainCaches(world, reqs[0].after, t, rest);
      ChainGrew(world, reqs[0].after, t, rest);
      forall k | 0 <= k < |reqs| && reqs[k].result.Ok? ensures Caches(t, reqs[k].name) {
        if k > 0 {
          assert reqs[k] == rest[k - 1];
        }
      }
    }
  }

  /**
   * A request for a name whose object is cached (as a singleton is while it is populated)
   * gets that object back when it is neither a factory bean nor asked for with the prefix.
   */
  lemma EarlyReference(world: World, req: Request, bean: Obj)
    requires Answered(world, req) && !IsFactoryDereference(req.name)
    requires Stripped(req.name) in req.before.singletons && req.before.singletons[Stripped(req.name)] == bean
    requires !Implements(world.table, bean.cls, FactoryBean)
    ensures req.result == Ok(bean) && req.after.singletons == req.before.singletons
  {
  }

  /**
   * Requests stop at the first failure: every request but the last got its bean, and the
   * outcome is the last one's exception when it failed.
   */
  predicate StopsAtFailure(reqs: seq<Request>, o: Outcome)
  {
    (forall k :: 0 <= k < |reqs| - 1 ==> reqs[k].result.Ok?)
    && (o.Fail? <==> reqs != [] && reqs[|reqs| - 1].result.Err?)
    && (o.Fail? ==> o == Fail(reqs[|reqs| - 1].result.error))
  }

  /** The runs of requests, one after another. */
  function Joined(runs: seq<seq<Request>>): seq<Request>
  {
    if runs == [] then [] else Joined(runs[..|runs| - 1]) + runs[|runs| - 1]
  }

  /** One more run of requests continues the runs before it. */
  lemma JoinedStep(world: World, s: FactoryState, t: FactoryState, u: FactoryState, runs: seq<seq<Request>>, run: seq<Request>, o: Outcome)
    requires Chain(world, s, t, Joined(runs)) && StopsAtFailure(Joined(runs), Pass)
    requires Chain(world, t, u, run) && StopsAtFailure(run, o)
    ensures Chain(world, s, u, Joined(runs + [run])) && StopsAtFailure(Joined(runs + [run]), o)
  {
    assert (runs + [run])[..|runs|] == runs;
    ChainAppend(world, s, t, u, Joined(runs), run);
    StopsAfter(Joined(runs), run, o);
  }

  /** A run of requests that all succeeded, followed by a run that stops at its failure, stops at that failure. */
  lemma StopsAfter(a: seq<Request>, b: seq<Request>, o: Outcome)
    requires StopsAtFailure(a, Pass) && StopsAtFailure(b, o)
    ensures StopsAtFailure(a + b, o)
  {
    var ab := a + b;
    if b == [] {
      assert ab == a;
    } else {
      assert ab[|ab| - 1] == b[|b| - 1];
      forall k | 0 <= k < |ab| - 1 ensures ab[k].result.Ok? {
        if k < |a| {
          assert ab[k] == a[k];
          if k == |a| - 1 {
            assert a[|a| - 1].result.Ok?;
          }
        } else {
          assert ab[k] == b[k - |a|];
        }
      }
    }
  }

  /**
   * The requests `preInstantiateSingletons` makes for the definition name `n`: none unless
   * it is a non-lazy singleton; for a factory bean the factory itself, then its product
   * when the factory says the product is a singleton; for any other bean the bean.
   */
  ghost predicate PreInstantiationRequests(world: World, defs: map<string, BeanDefinition>, n: string, reqs: seq<Request>)
  {
    if !(n in defs && defs[n].singleton && !defs[n].lazyInit) then reqs == []
    else if !Implements(world.table, defs[n].beanClass, FactoryBean) then Names(reqs) == [n]
    else if |reqs| > 0 && reqs[0].result.Ok? && world.factoryIsSingleton(reqs[0].result.value) then
      Names(reqs) == [FACTORY_BEAN_PREFIX + n, n]
    else Names(reqs) == [FACTORY_BEAN_PREFIX + n]
  }

  /** `preInstantiateSingletons` creates `n` eagerly: a non-lazy singleton definition, named without the prefix. */
  predicate Eager(defs: map<string, BeanDefinition>, n: string)
  {
    n in defs && defs[n].singleton && !defs[n].lazyInit && !IsFactoryDereference(n)
  }

  /** `runs[j]` are the requests `preInstantiateSingletons` makes for `names[j]`. */
  ghost predicate RequestsFor(world: World, defs: map<string, BeanDefinition>, names: seq<string>, runs: seq<seq<Request>>)
  {
    |runs| == |names| && forall j :: 0 <= j < |names| ==> PreInstantiationRequests(world, defs, names[j], runs[j])
  }

  /** Every eager singleton among `names` is cached in `st`. */
  predicate EagerCreated(st: FactoryState, names: seq<string>)
  {
    forall j :: 0 <= j < |names| && Eager(st.definitions, names[j]) ==> names[j] in st.singletons
  }

  /** The runs for a prefix of `names` are, one by one, the requests for those names. */
  lemma RequestsForPrefix(world: World, defs: map<string, BeanDefinition>, names: seq<string>, runs: seq<seq<Request>>)
    requires |runs| <= |names| && RequestsFor(world, defs, names[..|runs|], runs)
    ensures forall i :: 0 <= i < |runs| ==> PreInstantiationRequests(world, defs, names[i], runs[i])
  {
    forall i | 0 <= i < |runs| ensures PreInstantiationRequests(world, defs, names[i], runs[i]) {
      assert names[..|runs|][i] == names[i];
    }
  }

  /** Once every defined name has been gone through, every eager singleton is cached. */
  lemma EagerAllCreated(st: FactoryState, names: seq<string>)
    requires EagerCreated(st, names) && forall n :: n in st.definitions ==> n in names
    ensures forall n :: Eager(st.definitions, n) ==> n in st.singletons
  {
    forall n | Eager(st.definitions, n) ensures n in st.singletons {
      var j :| 0 <= j < |names| && names[j] == n;
    }
  }

  /** The requests for one more name extend the runs for the names before it. */
  lemma RequestsStep(world: World, defs: map<string, BeanDefinition>, names: seq<string>, i: nat, runs: seq<seq<Request>>, run: seq<Request>)
    requires i < |names| && RequestsFor(world, defs, names[..i], runs)
    requires PreInstantiationRequests(world, defs, names[i], run)
    ensures RequestsFor(world, defs, names[..i + 1], runs + [run])
  {
    forall j | 0 <= j < i + 1 ensures PreInstantiationRequests(world, defs, names[..i + 1][j], (runs + [run])[j]) {
      if j < i {
        assert names[..i + 1][j] == names[..i][j];
      }
    }
  }

  /** The eager singletons stay cached as the factory grows, and one more joins them once created. */
  lemma EagerStep(s: FactoryState, t: FactoryState, names: seq<string>, i: nat)
    requires i < |names| && EagerCreated(s, names[..i]) && Grew(s, t)
    requires Eager(t.definitions, names[i]) ==> names[i] in t.singletons
    ensures EagerCreated(t, names[..i + 1])
  {
    var done := names[..i + 1];
    forall j | 0 <= j < i + 1 && Eager(t.definitions, done[j]) ensures done[j] in t.singletons {
      if j < i {
        assert done[j] == names[..i][j];
      }
    }
  }

  /** What `destroySingleton(name, obj)` ends with: the definition is required, and a failing destroy callback is wrapped. */
  function DestroyOutcome(world: World, defs: map<string, BeanDefinition>, name: string, obj: Obj): Outcome
  {
    if name !in defs then Fail(BeansException)
    else
      var o := RunOutcome(world.outcome, DestroyCalls(world.table, obj, defs[name]));
      if o.Fail? then Fail(Wrap(o.error)) else Pass
  }

  /**
   * What `destroySingletons` has done once only the names in `rest` are left: every other
   * cached name has a definition, was destroyed without failure, and its destroy calls are in
   * `done`.
   */
  ghost predicate DestroyedSoFar(world: World, defs: map<string, BeanDefinition>, cache: map<string, Obj>,
                                 rest: set<string>, done: seq<Call>)
  {
    forall k :: k in cache && k !in rest ==>
      k in defs && DestroyOutcome(world, defs, k, cache[k]).Pass?
      && forall c :: c in DestroyCalls(world.table, cache[k], defs[k]) ==> c in done
  }

  /** Destroying one more name without failure extends `DestroyedSoFar` by it. */
  lemma DestroyedStep(world: World, defs: map<string, BeanDefinition>, cache: map<string, Obj>,
                      rest: set<string>, done: seq<Call>, k: string)
    requires DestroyedSoFar(world, defs, cache, rest, done) && k in rest && k in cache
    requires DestroyOutcome(world, defs, k, cache[k]).Pass?
    ensures k in defs
    ensures DestroyedSoFar(world, defs, cache, rest - {k},
                           done + Attempted(world.outcome, DestroyCalls(world.table, cache[k], defs[k])))
  {
    var calls := DestroyCalls(world.table, cache[k], defs[k]);
    PassedAll(world.outcome, calls);
  }

  /** Once no name is left, every cached name was destroyed without failure and its destroy calls were made. */
  lemma DestroyPassed(world: World, defs: map<string, BeanDefinition>, cache: map<string, Obj>, done: seq<Call>)
    requires DestroyedSoFar(world, defs, cache, {}, done)
    ensures !exists k :: k in cache && k !in defs
    ensures forall k :: k in cache ==> DestroyOutcome(world, defs, k, cache[k]).Pass?
    ensures forall k, c :: (k in cache && k in defs && c in DestroyCalls(world.table, cache[k], defs[k])) ==> c in done
  {
  }

  /** A name whose destruction fails makes the whole destruction fail with its outcome. */
  lemma DestroyFailed(world: World, defs: map<string, BeanDefinition>, cache: map<string, Obj>, k: string, o: Outcome)
    requires k in cache && o == DestroyOutcome(world, defs, k, cache[k]) && o.Fail?
    ensures !forall n :: n in cache ==> DestroyOutcome(world, defs, n, cache[n]).Pass?
    ensures exists n :: n in cache && o == DestroyOutcome(world, defs, n, cache[n])
  {
  }

  /**
   * What `getBeansOfType(t, includePrototypes, …)` promises about the map `m` it returned
   * while the factory went from `s` to `u`: every defined bean of the type is in it (prototypes
   * only when asked for), and so is every cached object of the type that has no definition;
   * without prototypes every entry is cached or belongs to a factory bean.
   */
  ghost predicate OfType(world: World, s: FactoryState, u: FactoryState, t: Class, includePrototypes: bool, m: map<string, Obj>)
  {
    (forall n :: (n in s.definitions && !IsFactoryDereference(n)
      && IsAssignableFrom(world.table, t, s.definitions[n].beanClass)
      && (includePrototypes || s.definitions[n].singleton)) ==> n in m)
    && (forall n :: (n in s.singletons && n !in s.definitions
      && IsAssignableFrom(world.table, t, s.singletons[n].cls)) ==> n in m)
    && (!includePrototypes ==> forall n :: n in m ==>
      n in u.singletons || Stripped(n) in u.singletons
      || (n in s.definitions && Implements(world.table, s.definitions[n].beanClass, FactoryBean)))
  }

  /**
   * What the third loop of `getBeansOfType` did for one factory name: the request for the
   * factory itself, and the request for its product when it made one.
   */
  datatype FactoryVisit = FactoryVisit(factory: Request, product: Option<Request>)

  /**
   * The factory `f` is asked for its product by `getBeansOfType(t, includePrototypes, …)`:
   * it names no product type and makes singletons, or it makes singletons or prototypes are
   * wanted, and its product type is assignable to `t`.
   */
  predicate ProductWanted(world: World, f: Obj, t: Class, includePrototypes: bool)
  {
    var objectType := world.objectType(f);
    var single := world.factoryIsSingleton(f);
    (objectType.None? && single)
    || ((single || includePrototypes) && objectType.Some? && IsAssignableFrom(world.table, t, objectType.value))
  }

  /**
   * `v` is the visit of the factory definition `n`: the factory was asked for under the
   * prefixed name, and its product under `n` exactly when it is a factory bean whose
   * product is wanted; both as `GotBean` says.
   */
  ghost predicate Visited(world: World, n: string, t: Class, includePrototypes: bool, v: FactoryVisit)
  {
    v.factory.name == FACTORY_BEAN_PREFIX + n
    && GotBean(world, v.factory.before, v.factory.after, v.factory.name, v.factory.result)
    && (v.product.Some? <==> v.factory.result.Ok? && Implements(world.table, v.factory.result.value.cls, FactoryBean)
                             && ProductWanted(world, v.factory.result.value, t, includePrototypes))
    && (v.product.Some? ==>
          v.product.value.name == n && GotBean(world, v.product.value.before, v.product.value.after, n, v.product.value.result))
  }

  /**
   * The visit ends with nothing thrown: a BeansException from either request is swallowed,
   * and a factory got is a factory bean.
   */
  predicate VisitPassed(world: World, v: FactoryVisit)
  {
    (v.factory.result.Err? ==> v.factory.result.error == BeansException)
    && (v.factory.result.Ok? ==> Implements(world.table, v.factory.result.value.cls, FactoryBean))
    && (v.product.Some? && v.product.value.result.Err? ==> v.product.value.result.error == BeansException)
  }

  /**
   * The visit threw `e`, which ends `getBeansOfType`: an exception other than a
   * BeansException from getting the factory or its product, or a ClassCastException for a
   * factory name whose object is not a factory bean.
   */
  predicate VisitThrew(world: World, v: FactoryVisit, e: Exception)
  {
    e != BeansException
    && (v.factory.result == Err(e)
        || (v.factory.result.Ok? && !Implements(world.table, v.factory.result.value.cls, FactoryBean) && e == ClassCastException)
        || (v.product.Some? && v.product.value.result == Err(e)))
  }

  /** The visit got a product of the type `t`, which `getBeansOfType` keeps. */
  predicate ProductKept(world: World, t: Class, v: FactoryVisit)
  {
    v.product.Some? && v.product.value.result.Ok? && IsAssignableFrom(world.table, t, v.product.value.result.value.cls)
  }

  /**
   * The third loop of `getBeansOfType` after the visits `visits` of the first factory
   * names: each visit was made as `Visited` says and passed; `result` keeps the entries of
   * `acc`, adds only factory names whose product is of the type `t`, and holds every kept
   * product.
   */
  ghost predicate ProductsSoFar(world: World, names: seq<string>, t: Class, includePrototypes: bool,
                                acc: map<string, Obj>, result: map<string, Obj>, visits: seq<FactoryVisit>)
  {
    |visits| <= |names|
    && (forall k :: 0 <= k < |visits| ==> Visited(world, names[k], t, includePrototypes, visits[k]) && VisitPassed(world, visits[k]))
    && acc.Keys <= result.Keys
    && (forall n :: n in result ==> (n in acc || (n in names && IsAssignableFrom(world.table, t, result[n].cls))))
    && (forall k :: 0 <= k < |visits| && ProductKept(world, t, visits[k]) ==> names[k] in result)
  }

  /** One more passing visit, with the map it returned, keeps `ProductsSoFar`. */
  lemma ProductsStep(world: World, names: seq<string>, t: Class, includePrototypes: bool, acc: map<string, Obj>,
                     result: map<string, Obj>, visits: seq<FactoryVisit>, v: FactoryVisit, next: map<string, Obj>)
    requires ProductsSoFar(world, names, t, includePrototypes, acc, result, visits) && |visits| < |names|
    requires Visited(world, names[|visits|], t, includePrototypes, v) && VisitPassed(world, v)
    requires result.Keys <= next.Keys && forall n :: n in next ==>
      (n in result && next[n] == result[n]) || (n == names[|visits|] && IsAssignableFrom(world.table, t, next[n].cls))
    requires ProductKept(world, t, v) ==> names[|visits|] in next
    ensures ProductsSoFar(world, names, t, includePrototypes, acc, next, visits + [v])
  {
    var vs := visits + [v];
    forall k | 0 <= k < |vs| ensures Visited(world, names[k], t, includePrototypes, vs[k]) && VisitPassed(world, vs[k]) {
      if k < |visits| {
        assert vs[k] == visits[k];
      }
    }
    forall n | n in next ensures n in acc || (n in names && IsAssignableFrom(world.table, t, next[n].cls)) {
      if n in result && next[n] == result[n] {
      } else {
        assert names[|visits|] in names;
      }
    }
    forall k | 0 <= k < |vs| && ProductKept(world, t, vs[k]) ensures names[k] in next {
      if k < |visits| {
        assert vs[k] == visits[k];
      }
    }
  }

  /**
   * How one constructor slot was filled: from a held argument, or by looking up the beans of
   * the slot's type, with what the lookup answered.
   */
  datatype Slot = Held(holder: ValueHolder) | Looked(found: Result<map<string, Obj>>)

  /**
   * `getArgumentValue(j, t)` finds a holder: the indexed one at `j` when its type name fits,
   * otherwise a generic one that fits.
   */
  predicate HasHolder(table: ClassTable, args: ArgValues, j: int, t: Class)
  {
    IndexedMatch(args.indexed, j, t).Some? || exists k :: 0 <= k < |args.generic| && GenericFits(table, args.generic[k], t)
  }

  /** The holder a slot used is the one `getArgumentValue` may answer. */
  predicate FoundHolder(table: ClassTable, args: ArgValues, j: int, t: Class, h: ValueHolder)
  {
    if IndexedMatch(args.indexed, j, t).Some? then h == IndexedMatch(args.indexed, j, t).value
    else h in args.generic && GenericFits(table, h, t)
  }

  /**
   * The slot gave the argument `arg`: a held value converted to the parameter type at the
   * constructor's position `ctorIndex`, or the one bean of the slot's type.
   */
  predicate SlotFilled(world: World, params: seq<Class>, ctorIndex: nat, slot: Slot, arg: Value)
  {
    match slot
    case Held(h) => ctorIndex < |params| && world.convert(h.value, params[ctorIndex]) == Ok(arg)
    case Looked(found) => found.Ok? && |found.value| == 1 && arg.Instance? && arg.obj in found.value.Values
  }

  /**
   * The slot failed with `e`: the position `ctorIndex` is out of range, the conversion threw,
   * the lookup threw, or the lookup did not find exactly one bean.
   */
  predicate SlotFailed(world: World, params: seq<Class>, ctorIndex: nat, slot: Slot, e: Exception)
  {
    match slot
    case Held(h) =>
      if ctorIndex >= |params| then e == IndexOutOfBoundsException
      else world.convert(h.value, params[ctorIndex]) == Err(e)
    case Looked(found) =>
      if found.Err? then e == found.error else |found.value| != 1 && e == IllegalStateException
  }

  /**
   * The slots a constructor's arguments were sought in, in order: each is held exactly when a
   * held argument fits it, and the arguments so far were filled from them, or the last one failed.
   */
  ghost predicate SlotsFor(world: World, params: seq<Class>, ctorIndex: nat, args: ArgValues,
                           slots: seq<Slot>, r: Result<seq<Value>>)
  {
    |slots| <= |params|
    && (forall j :: 0 <= j < |slots| ==>
          (slots[j].Held? <==> HasHolder(world.table, args, j, params[j]))
          && (slots[j].Held? ==> FoundHolder(world.table, args, j, params[j], slots[j].holder)))
    && (r.Ok? ==> |r.value| == |slots| && forall j :: 0 <= j < |slots| ==> SlotFilled(world, params, ctorIndex, slots[j], r.value[j]))
    && (r.Err? ==> slots != [] && SlotFailed(world, params, ctorIndex, slots[|slots| - 1], r.error))
  }

  /** One more slot sought extends `SlotsFor` by its argument or its failure. */
  lemma SlotsStep(world: World, params: seq<Class>, ctorIndex: nat, args: ArgValues,
                  slots: seq<Slot>, r: Result<seq<Value>>, slot: Slot, a: Result<Value>)
    requires SlotsFor(world, params, ctorIndex, args, slots, r) && r.Ok? && |slots| < |params|
    requires slot.Held? <==> HasHolder(world.table, args, |slots|, params[|slots|])
    requires slot.Held? ==> FoundHolder(world.table, args, |slots|, params[|slots|], slot.holder)
    requires a.Ok? ==> SlotFilled(world, params, ctorIndex, slot, a.value)
    requires a.Err? ==> SlotFailed(world, params, ctorIndex, slot, a.error)
    ensures SlotsFor(world, params, ctorIndex, args, slots + [slot],
                     if a.Err? then Err(a.error) else Ok(r.value + [a.value]))
  {
    var s := slots + [slot];
    forall j | 0 <= j < |s|
      ensures (s[j].Held? <==> HasHolder(world.table, args, j, params[j]))
        && (s[j].Held? ==> FoundHolder(world.table, args, j, params[j], s[j].holder))
    {
      if j < |slots| {
        assert s[j] == slots[j];
      }
    }
    if a.Ok? {
      var v := r.value + [a.value];
      forall j | 0 <= j < |s|
        ensures SlotFilled(world, params, ctorIndex, s[j], v[j])
      {
        if j < |slots| {
          assert s[j] == slots[j] && v[j] == r.value[j];
        }
      }
    }
  }

  /**
   * What trying the first `|attempts|` constructors found: one with fewer than `n` parameters
   * is a BeansException, any other was attempted slot by slot as `SlotsFor` says, and an
   * attempt that succeeded has one argument per parameter.
   */
  ghost predicate TriedSoFar(world: World, ctors: seq<seq<Class>>, n: nat, args: ArgValues,
                             attempts: seq<Result<seq<Value>>>, slotsOf: seq<seq<Slot>>)
  {
    |attempts| <= |ctors| && |slotsOf| == |attempts|
    && forall k :: 0 <= k < |attempts| ==>
      (|ctors[k]| < n ==> attempts[k] == Err(BeansException))
      && (|ctors[k]| >= n ==>
            (SlotsFor(world, ctors[k], k, args, slotsOf[k], attempts[k]) && (attempts[k].Ok? ==> |slotsOf[k]| == |ctors[k]|)))
  }

  /** One more constructor tried extends `TriedSoFar` by its attempt. */
  lemma TriedStep(world: World, ctors: seq<seq<Class>>, n: nat, args: ArgValues,
                  attempts: seq<Result<seq<Value>>>, slotsOf: seq<seq<Slot>>,
                  attempt: Result<seq<Value>>, slots: seq<Slot>)
    requires TriedSoFar(world, ctors, n, args, attempts, slotsOf) && |attempts| < |ctors|
    requires |ctors[|attempts|]| < n ==> attempt == Err(BeansException)
    requires |ctors[|attempts|]| >= n ==>
      (SlotsFor(world, ctors[|attempts|], |attempts|, args, slots, attempt) && (attempt.Ok? ==> |slots| == |ctors[|attempts|]|))
    ensures TriedSoFar(world, ctors, n, args, attempts + [attempt], slotsOf + [slots])
  {
    var a, t := attempts + [attempt], slotsOf + [slots];
    forall k | 0 <= k < |a|
      ensures (|ctors[k]| < n ==> a[k] == Err(BeansException))
        && (|ctors[k]| >= n ==> SlotsFor(world, ctors[k], k, args, t[k], a[k]) && (a[k].Ok? ==> |t[k]| == |ctors[k]|))
    {
      if k < |attempts| {
        assert a[k] == attempts[k] && t[k] == slotsOf[k];
      }
    }
  }

  /** The held constructor arguments of a definition; none when it declares none. */
  function HeldArguments(bd: BeanDefinition): ArgValues
  {
    if bd.constructorArgumentValues.Some? then bd.constructorArgumentValues.value else ArgValues(map[], [])
  }

  /** One of the held arguments' values names the bean `n`. */
  predicate HeldRefersTo(cargs: ArgValues, n: string)
  {
    (exists k :: k in cargs.indexed && RefersTo(cargs.indexed[k].value, n))
    || (exists i :: 0 <= i < |cargs.generic| && RefersTo(cargs.generic[i].value, n))
  }

  /** Each element of `keys` is smaller than the next. */
  predicate StrictlyAscending(keys: seq<int>)
  {
    forall i, j :: 0 <= i < j < |keys| ==> keys[i] < keys[j]
  }

  /** `keys` lists the indices of `indexed` once each, in ascending order. */
  predicate AscendingKeys(keys: seq<int>, indexed: map<int, ValueHolder>)
  {
    StrictlyAscending(keys) && (forall k :: k in keys ==> k in indexed) && (forall k :: k in indexed ==> k in keys)
  }

  /**
   * The argument count `autowireConstructor` arrives at: starting from `n`, each index in
   * turn that is larger than the count so far makes the count that index plus one. An
   * index equal to the count leaves it, and the count never falls below an index seen.
   */
  function {:induction false} ArgCount(keys: seq<int>, n: nat): (r: nat)
    ensures n <= r && forall i :: 0 <= i < |keys| ==> keys[i] <= r
    decreases |keys|
  {
    if keys == [] then n
    else
      var m := ArgCount(keys[..|keys| - 1], n);
      var last := keys[|keys| - 1];
      assert forall i :: 0 <= i < |keys| - 1 ==> keys[i] == keys[..|keys| - 1][i];
      if last > m then last + 1 else m
  }

  /**
   * `held` is the held arguments `cargs` resolved, holder for holder with the same type
   * names, and `n` the required argument count: `ArgCount` over the indices in ascending
   * order `keys`, starting from the number of held arguments.
   */
  predicate HeldResolution(cargs: ArgValues, held: ArgValues, keys: seq<int>, n: nat)
  {
    AscendingKeys(keys, cargs.indexed) && n == ArgCount(keys, NumberOfArguments(cargs))
    && held.indexed.Keys == cargs.indexed.Keys && |held.generic| == |cargs.generic|
    && (forall k :: k in held.indexed && k in cargs.indexed ==>
          held.indexed[k].typeName == cargs.indexed[k].typeName && Resolves(cargs.indexed[k].value, held.indexed[k].value))
    && (forall i :: 0 <= i < |held.generic| && i < |cargs.generic| ==>
          held.generic[i].typeName == cargs.generic[i].typeName && Resolves(cargs.generic[i].value, held.generic[i].value))
  }

  /** Two ascending listings of the same indices are the same list, so the count is fixed by the held arguments. */
  lemma AscendingKeysUnique(s: seq<int>, t: seq<int>, indexed: map<int, ValueHolder>)
    requires AscendingKeys(s, indexed) && AscendingKeys(t, indexed)
    ensures s == t
  {
    AscendingListUnique(s, t);
  }

  /** Two strictly ascending lists with the same elements are the same list. */
  lemma {:induction false} AscendingListUnique(s: seq<int>, t: seq<int>)
    requires StrictlyAscending(s) && StrictlyAscending(t)
    requires forall k :: k in s <==> k in t
    ensures s == t
    decreases |s|
  {
    if s != [] {
      assert s[0] in s;
    }
    if t != [] {
      assert t[0] in t;
    }
    if s != [] && t != [] {
      assert s[0] == t[0];
      forall k ensures k in s[1..] <==> k in t[1..] {
        if k in s[1..] {
          var i :| 1 <= i < |s| && s[i] == k;
          assert k in t;
          var j :| 0 <= j < |t| && t[j] == k;
          assert t[1..][j - 1] == k;
        }
        if k in t[1..] {
          var j :| 1 <= j < |t| && t[j] == k;
          assert k in s;
          var i :| 0 <= i < |s| && s[i] == k;
          assert s[1..][i - 1] == k;
        }
      }
      AscendingListUnique(s[1..], t[1..]);
      assert s == [s[0]] + s[1..] && t == [t[0]] + t[1..];
    }
  }

  /** One more index visited: `ArgCount` over a prefix extended by one element. */
  lemma ArgCountStep(keys: seq<int>, i: nat, n: nat)
    requires i < |keys|
    ensures ArgCount(keys[..i + 1], n)
      == if keys[i] > ArgCount(keys[..i], n) then keys[i] + 1 else ArgCount(keys[..i], n)
  {
    assert keys[..i + 1][..i] == keys[..i];
  }

  /** The required argument count covers every held argument and every held index. */
  lemma HeldCountCovers(cargs: ArgValues, held: ArgValues, keys: seq<int>, n: nat)
    requires HeldResolution(cargs, held, keys, n)
    ensures n >= NumberOfArguments(cargs) && forall k :: k in cargs.indexed ==> k <= n
  {
    forall k | k in cargs.indexed ensures k <= n {
      var i :| 0 <= i < |keys| && keys[i] == k;
    }
  }

  /**
   * The count depends on the order the indices are visited in: with indices 4 and 5 and
   * three held arguments, ascending order gives 5 and descending order 6.
   */
  lemma ArgCountOrderMatters()
    ensures ArgCount([4, 5], 3) == 5 && ArgCount([5, 4], 3) == 6
  {
    assert [4, 5][..1] == [4] && [5, 4][..1] == [5];
    assert [4][..0] == [] && [5][..0] == [];
  }

  /**
   * What `autowireConstructor` went through: whether the held arguments were resolved, the
   * request whose failure stopped that, the resolved holder, the indices in the order they
   * were visited and the argument count, whether
   * a constructor was selected, and what trying each constructor gave.
   */
  datatype Injection = Injection(resolved: bool, failed: Request, held: ArgValues, keys: seq<int>, n: nat, selected: bool,
                                 attempts: seq<Result<seq<Value>>>, chosen: nat, slotsOf: seq<seq<Slot>>)

  /**
   * `autowireConstructor` took the factory from `s` to `t`, answering `r`, as `how` records.
   * Either a bean a held argument names could not be got; or the held arguments were
   * resolved and every constructor tried as `TriedSoFar` says, and then: the last one that
   * fitted was called and the answer is the new object or the exception wrapped; or none
   * fitted, a BeansException; or a slot failed with another exception, which ends the loop.
   */
  ghost predicate ConstructorInjected(world: World, bd: BeanDefinition, s: FactoryState, t: FactoryState,
                                      r: Result<Obj>, how: Injection)
  {
    if !how.resolved then
      r.Err? && HeldRefersTo(HeldArguments(bd), how.failed.name) && FailedRequest(world, how.failed, r.error)
    else
      HeldResolution(HeldArguments(bd), how.held, how.keys, how.n) && Selected(world, bd, s, t, r, how)
  }

  /**
   * The constructor loop and the call after it, given the resolved holder `how.held` and the
   * argument count `how.n`: every constructor was tried as `TriedSoFar` says, and then the
   * last one that fitted was called and the answer is the new object or the exception
   * wrapped; or none fitted, a BeansException; or a slot failed with another exception,
   * which ends the loop.
   */
  ghost predicate Selected(world: World, bd: BeanDefinition, s: FactoryState, t: FactoryState,
                           r: Result<Obj>, how: Injection)
  {
    var ctors := Info(world.table, bd.beanClass).constructors;
    TriedSoFar(world, ctors, how.n, how.held, how.attempts, how.slotsOf)
    && (forall k :: 0 <= k < |how.attempts| - 1 ==> how.attempts[k].Ok? || how.attempts[k].error == BeansException)
    && if how.selected then
         |how.attempts| == |ctors| && how.chosen < |ctors| && how.attempts[how.chosen].Ok?
         && (forall k :: 0 <= k < |ctors| ==> how.attempts[k].Ok? || how.attempts[k].error == BeansException)
         && (forall k :: how.chosen < k < |ctors| ==> how.attempts[k].Err?)
         && var call := Instantiate(bd.beanClass, ctors[how.chosen], how.attempts[how.chosen].value);
         |s.log| < |t.log| && t.log[|t.log| - 1] == call
         && (world.outcome(call).Fail? ==> r == Err(Wrap(world.outcome(call).error)))
         && (world.outcome(call).Pass? ==> r.Ok? && r.value.cls == bd.beanClass && r.value.id + 1 == t.nextId)
       else
         r.Err?
         && if r.error == BeansException then
              |how.attempts| == |ctors| && forall k :: 0 <= k < |ctors| ==> how.attempts[k] == Err(BeansException)
            else how.attempts != [] && how.attempts[|how.attempts| - 1] == Err(r.error)
  }

  /** `Selected` from a later state holds from an earlier one whose log was no longer. */
  lemma SelectedSince(world: World, bd: BeanDefinition, s: FactoryState, m: FactoryState, t: FactoryState,
                      r: Result<Obj>, how: Injection)
    requires |s.log| <= |m.log| && Selected(world, bd, m, t, r, how)
    ensures Selected(world, bd, s, t, r, how)
  {
  }

  /**
   * The last call in `log` instantiated the definition's class with one of its public
   * constructors, one argument per parameter, at least as many parameters as held
   * arguments and no fewer than any held index, and returned.
   */
  predicate ConstructorCalled(world: World, bd: BeanDefinition, cargs: ArgValues, log: seq<Call>)
  {
    |log| > 0 && log[|log| - 1].Instantiate? && log[|log| - 1].cls == bd.beanClass
    && log[|log| - 1].params in Info(world.table, bd.beanClass).constructors
    && |log[|log| - 1].args| == |log[|log| - 1].params|
    && |log[|log| - 1].params| >= NumberOfArguments(cargs)
    && (forall k :: k in cargs.indexed ==> |log[|log| - 1].params| >= k)
    && world.outcome(log[|log| - 1]).Pass?
  }

  /** `createBean` instantiates through `autowireConstructor` rather than the no-argument constructor. */
  predicate InjectsConstructor(world: World, bd: BeanDefinition)
  {
    ResolvedAutowireMode(bd, world.table) == AUTOWIRE_CONSTRUCTOR || HasConstructorArgumentValues(bd)
  }

  /**
   * The instance `createBean` made took the factory from `s` to `t` and is `r`: through
   * `autowireConstructor`, as `ConstructorInjected` says; otherwise a class without a
   * no-argument constructor is a BeansException that changes nothing, and one with it is
   * called, a new identity handed out when the call returns.
   */
  ghost predicate MadeInstance(world: World, bd: BeanDefinition, s: FactoryState, t: FactoryState, r: Result<Obj>,
                               how: Injection)
  {
    if InjectsConstructor(world, bd) then ConstructorInjected(world, bd, s, t, r, how)
    else if !HasNoArgConstructor(world.table, bd.beanClass) then r == Err(BeansException) && t == s
    else
      var call := Instantiate(bd.beanClass, [], []);
      if world.outcome(call).Fail? then r == Err(world.outcome(call).error) && t == s.(log := s.log + [call])
      else r == Ok(Obj(s.nextId, bd.beanClass)) && t == s.(log := s.log + [call], nextId := s.nextId + 1)
  }

  /**
   * What the rest of `createBean` went through: the instance and the state after making it,
   * how it was made, and how populating it went and the state after that.
   */
  datatype Build = Build(instance: Result<Obj>, how: Injection, instantiated: FactoryState,
                         population: Population, populated: FactoryState)

  /**
   * The rest of `createBean` took the factory from `s` to `t` and answered `r`, as `b`
   * records: an instance was made, and a failure to make it is the answer; a singleton's
   * instance was then cached under `name`; it was populated, and a failure to populate it
   * is the answer; otherwise the lifecycle callbacks ran and their result is the answer.
   */
  ghost predicate Built(world: World, name: string, bd: BeanDefinition, s: FactoryState, t: FactoryState,
                        r: Result<Obj>, b: Build)
  {
    MadeInstance(world, bd, s, b.instantiated, b.instance, b.how)
    && (b.instance.Err? ==> r == Err(b.instance.error) && t == b.instantiated)
    && (b.instance.Ok? ==>
          var bean := b.instance.value;
          var published := if bd.singleton then b.instantiated.(singletons := b.instantiated.singletons[name := bean])
                           else b.instantiated;
          Populated(world, bd, bean, published, b.populated, b.population)
          && (b.population.outcome.Fail? ==> r == Err(b.population.outcome.error) && t == b.populated)
          && (b.population.outcome.Pass? ==> Initialized(world, name, bd, bean, b.populated, t, r)))
  }

  /**
   * What one `getBean` call that had to create its bean went through: the dependency
   * requests and the state after them, the build and the state after it, and what
   * `createBean` answered.
   */
  datatype Creation = Creation(deps: seq<Request>, mid: FactoryState, build: Build, built: FactoryState, made: Result<Obj>)

  /**
   * `getBean(name)` with `fuel` took the factory from `s` to `t` and answered `r`; when the
   * name was defined but not cached, `c` records the creation. Without fuel the answer is a
   * StackOverflowError and nothing changes. Otherwise the beans the definition depends on
   * were got in order, and the first that could not be is the answer; then the bean was
   * built as `Built` says, under the name without its prefix for a singleton. A failed
   * build, or a prototype, is the answer as it is; a singleton is cached, then served.
   */
  ghost predicate Created(world: World, fuel: nat, s: FactoryState, t: FactoryState, name: string, r: Result<Obj>,
                          c: Creation)
  {
    Stripped(name) !in s.singletons && Stripped(name) in s.definitions ==>
      if fuel == 0 then r == Err(StackOverflowError) && t == s else Creating(world, s, t, name, r, c)
  }

  /**
   * `Created` for a call with fuel left: `createBean` did as `CreateBeanDid` says, under
   * the name without its prefix for a singleton; a failure, or a prototype, is the answer
   * as it is; a singleton is cached, then served.
   */
  ghost predicate Creating(world: World, s: FactoryState, t: FactoryState, name: string, r: Result<Obj>, c: Creation)
    requires Stripped(name) in s.definitions
  {
    var bd := s.definitions[Stripped(name)];
    var n := if bd.singleton then Stripped(name) else name;
    CreateBeanDid(world, n, bd, s, c.mid, c.built, c.made, c.deps, c.build)
    && (c.made.Err? || !bd.singleton ==> r == c.made && t == c.built)
    && (c.made.Ok? && bd.singleton ==>
          t.singletons == c.built.singletons[n := c.made.value] && r == SharedResult(world, name, c.made.value))
  }

  /**
   * What `createBean` promises for a definition `bd` of the name `n`, after its dependency
   * requests `deps` took the factory from `s` to `mid`, and the build to `t`.
   */
  ghost predicate CreateBeanDid(world: World, n: string, bd: BeanDefinition, s: FactoryState, mid: FactoryState,
                                t: FactoryState, r: Result<Obj>, deps: seq<Request>, b: Build)
  {
    Chain(world, s, mid, deps) && |deps| <= |DependsOn(bd)|
    && (forall k :: 0 <= k < |deps| ==> deps[k].name == DependsOn(bd)[k])
    && (forall k :: 0 <= k < |deps| - 1 ==> deps[k].result.Ok?)
    && if deps != [] && deps[|deps| - 1].result.Err? then r == Err(deps[|deps| - 1].result.error) && t == mid
       else |deps| == |DependsOn(bd)| && Built(world, n, bd, mid, t, r, b)
  }

  /**
   * A singleton `createBean` made for `name` from a fresh instance, cached and then served
   * as a shared instance, is a bean got as `GotBean` promises.
   */
  lemma NewSingletonGot(world: World, s: FactoryState, built: FactoryState, t: FactoryState, name: string,
                        r: Result<Obj>, made: Obj)
    requires Stripped(name) !in s.singletons && Stripped(name) in s.definitions && s.definitions[Stripped(name)].singleton
    requires GrewReplacing(s, built, {Stripped(name)}) && Grew(s, t) && built.nextId <= t.nextId
    requires t.singletons == built.singletons[Stripped(name) := made] && r == SharedResult(world, name, made)
    requires exists bean: Obj :: (bean.cls == s.definitions[Stripped(name)].beanClass && s.nextId <= bean.id < built.nextId
      && made == LifecycleResult(world, built.postProcessors, Stripped(name), s.definitions[Stripped(name)], bean))
    ensures GotBean(world, s, t, name, r)
  {
  }

  /** The list holds, under `n`, one of the objects in `m`. */
  predicate FilledFrom(pvs: seq<PropertyValue>, n: string, m: map<string, Obj>)
  {
    Lookup(pvs, n).Some? && Lookup(pvs, n).value.name == n
    && Lookup(pvs, n).value.value.Instance? && Lookup(pvs, n).value.value.obj in m.Values
  }

  /**
   * What `autowireByType` has done after its first `i` properties: each found at most one
   * bean of its type, was filled from it when it found one and left alone otherwise, and no
   * other name changed.
   */
  ghost predicate TypedSoFar(props: seq<string>, found: seq<Result<map<string, Obj>>>,
                       before: seq<PropertyValue>, after: seq<PropertyValue>, i: nat)
  {
    i <= |props| && |found| == i
    && (forall k :: 0 <= k < i ==> found[k].Ok? && |found[k].value| <= 1)
    && (forall k :: 0 <= k < i && |found[k].value| == 1 ==> FilledFrom(after, props[k], found[k].value))
    && (forall k :: 0 <= k < i && |found[k].value| == 0 ==> Lookup(after, props[k]) == Lookup(before, props[k]))
    && (forall n :: Lookup(after, n) != Lookup(before, n) ==> (exists k :: 0 <= k < i && props[k] == n) && FilledWithBean(after, n))
  }

  /** One more property handled by `autowireByType` extends `TypedSoFar` by one. */
  lemma TypedStep(props: seq<string>, found: seq<Result<map<string, Obj>>>,
                  before: seq<PropertyValue>, mid: seq<PropertyValue>, after: seq<PropertyValue>,
                  i: nat, m: Result<map<string, Obj>>)
    requires forall a, b :: 0 <= a < b < |props| ==> props[a] != props[b]
    requires TypedSoFar(props, found, before, mid, i) && i < |props|
    requires m.Ok? && |m.value| <= 1
    requires |m.value| == 1 ==> FilledFrom(after, props[i], m.value)
    requires |m.value| == 0 ==> after == mid
    requires forall n :: n != props[i] ==> Lookup(after, n) == Lookup(mid, n)
    ensures TypedSoFar(props, found + [m], before, after, i + 1)
  {
    var f := found + [m];
    forall n | Lookup(after, n) != Lookup(before, n)
      ensures (exists k :: 0 <= k < i + 1 && props[k] == n) && FilledWithBean(after, n)
    {
      if n == props[i] {
        assert |m.value| == 1;
      }
    }
    forall k | 0 <= k < i && |f[k].value| == 1
      ensures FilledFrom(after, props[k], f[k].value)
    {
      assert props[k] != props[i];
    }
    forall k | 0 <= k < i && |f[k].value| == 0
      ensures Lookup(after, props[k]) == Lookup(before, props[k])
    {
      assert props[k] != props[i];
    }
  }

  /** A `DefaultListableBeanFactory`. */
  class DefaultListableBeanFactory {
    /** The application code the factory calls into. */
    const world: World
    /** `beanDefinitionNames`: registration order. */
    var definitionNames: seq<string>
    /** `registeredBeanDefinitions`. */
    var definitions: map<string, BeanDefinition>
    /** `singletonMap`: the singleton cache. */
    var singletons: map<string, Obj>
    /** `customEditors`: an editor instance per target type. */
    var customEditors: map<Class, Obj>
    /** `beanPostProcessors`, in registration order. */
    var postProcessors: seq<Processor>
    /** `propertyEditorRegistrars`. */
    var registrars: set<Obj>
    /** The identity the next object the factory instantiates receives. */
    var nextId: nat
    /** Every call the factory has made into application code, in order. */
    var log: seq<Call>

    /** The registration order lists every definition exactly once. */
    ghost predicate Valid()
      reads this
    {
      (forall i, j :: 0 <= i < j < |definitionNames| ==> definitionNames[i] != definitionNames[j])
      && (forall n :: n in definitions <==> n in definitionNames)
    }

    /** `name` has a singleton definition. */
    predicate DefinesSingleton(name: string)
      reads this
    {
      name in definitions && definitions[name].singleton
    }

    /** The factory's state as a value. */
    function Snapshot(): FactoryState
      reads this
    {
      FactoryState(definitionNames, definitions, singletons, postProcessors, customEditors, registrars, nextId, log)
    }

    /** What getting and creating beans may change, from the state on entry to the state now. */
    twostate predicate Stable()
      reads this
    {
      Grew(old(Snapshot()), Snapshot())
    }

    /** Only the call log changed, by growing. */
    twostate predicate OnlyLogGrew()
      reads this
    {
      definitionNames == old(definitionNames) && definitions == old(definitions)
      && singletons == old(singletons) && postProcessors == old(postProcessors)
      && customEditors == old(customEditors) && registrars == old(registrars)
      && nextId == old(nextId) && old(log) <= log
    }

    /** `new DefaultListableBeanFactory()`: empty. */
    constructor (world: World)
      ensures Valid() && this.world == world
      ensures definitionNames == [] && definitions == map[] && singletons == map[]
      ensures customEditors == map[] && postProcessors == [] && registrars == {}
      ensures nextId == 0 && log == []
    {
      this.world := world;
      definitionNames := [];
      definitions := map[];
      singletons := map[];
      customEditors := map[];
      postProcessors := [];
      registrars := {};
      nextId := 0;
      log := [];
    }

    /** One call into application code. */
    method Invoke(c: Call) returns (o: Outcome)
      modifies this`log
      ensures o == world.outcome(c) && log == old(log) + [c]
    {
      log := log + [c];
      o := world.outcome(c);
    }

    /** Calls made one after another until one throws, as a `try` block does. */
    method Perform(calls: seq<Call>) returns (o: Outcome)
      modifies this`log
      ensures o == RunOutcome(world.outcome, calls)
      ensures log == old(log) + Attempted(world.outcome, calls)
    {
      for i := 0 to |calls|
        invariant log == old(log) + calls[..i]
        invariant forall j :: 0 <= j < i ==> world.outcome(calls[j]).Pass?
      {
        o := Invoke(calls[i]);
        assert calls[..i + 1] == calls[..i] + [calls[i]];
        if o.Fail? {
          StopsAt(world.outcome, calls, i);
          return;
        }
      }
      RunsThrough(world.outcome, calls);
      assert calls[..|calls|] == calls;
      return Pass;
    }

    /**
     * `ClassUtils.instantiateClass(clazz)`: a class without a public no-argument
     * constructor is rejected; an exception of the constructor itself propagates as it is.
     */
    method InstantiateClass(cls: Class) returns (r: Result<Obj>)
      modifies this`log, this`nextId
      ensures Stable()
      ensures !HasNoArgConstructor(world.table, cls) ==> r == Err(BeansException) && unchanged(this)
      ensures HasNoArgConstructor(world.table, cls) ==>
        log == old(log) + [Instantiate(cls, [], [])]
        && (world.outcome(Instantiate(cls, [], [])).Fail? ==>
          r == Err(world.outcome(Instantiate(cls, [], [])).error) && nextId == old(nextId))
        && (world.outcome(Instantiate(cls, [], [])).Pass? ==>
          r == Ok(Obj(old(nextId), cls)) && nextId == old(nextId) + 1)
    {
      var ctors := Info(world.table, cls).constructors;
      var found := false;
      for k := 0 to |ctors|
        invariant !found ==> forall m :: 0 <= m < k ==> ctors[m] != []
        invariant found ==> HasNoArgConstructor(world.table, cls)
      {
        if ctors[k] == [] {
          found := true;
        }
      }
      if !found {
        return Err(BeansException);
      }
      r := Construct(cls, [], []);
    }

    /** A constructor call: when it returns, the new object receives the next identity. */
    method Construct(cls: Class, params: seq<Class>, args: seq<Value>) returns (r: Result<Obj>)
      modifies this`log, this`nextId
      ensures Stable()
      ensures log == old(log) + [Instantiate(cls, params, args)]
      ensures world.outcome(Instantiate(cls, params, args)).Fail? ==>
        r == Err(world.outcome(Instantiate(cls, params, args)).error) && nextId == old(nextId)
      ensures world.outcome(Instantiate(cls, params, args)).Pass? ==>
        r == Ok(Obj(old(nextId), cls)) && nextId == old(nextId) + 1
    {
      var o := Invoke(Instantiate(cls, params, args));
      if o.Fail? {
        return Err(o.error);
      }
      r := Ok(Obj(nextId, cls));
      nextId := nextId + 1;
    }

    // ---- BeanDefinitionRegistry and ListableBeanFactory --------------------------------

    /** `registerBeanDefinition`: a name can be registered once; it joins the registration order. */
    method RegisterBeanDefinition(name: string, bd: BeanDefinition) returns (o: Outcome)
      requires Valid()
      modifies this
      ensures Valid()
      ensures name in old(definitions) ==> o == Fail(BeansException) && unchanged(this)
      ensures name !in old(definitions) ==>
        o == Pass && definitionNames == old(definitionNames) + [name] && definitions == old(definitions)[name := bd]
      ensures singletons == old(singletons) && postProcessors == old(postProcessors) && log == old(log)
      ensures customEditors == old(customEditors) && registrars == old(registrars) && nextId == old(nextId)
    {
      if name in definitions {
        return Fail(BeansException);
      }
      definitionNames := definitionNames + [name];
      definitions := definitions[name := bd];
      return Pass;
    }

    /** `getBeanDefinition`: an unknown name is an error. */
    method GetBeanDefinition(name: string) returns (r: Result<BeanDefinition>)
      ensures name in definitions <==> r.Ok?
      ensures r.Ok? ==> r.value == definitions[name]
      ensures r.Err? ==> r.error == BeansException
    {
      if name !in definitions {
        return Err(BeansException);
      }
      return Ok(definitions[name]);
    }

    /** `containsBeanDefinition`. */
    method ContainsBeanDefinition(name: string) returns (b: bool)
      ensures b <==> name in definitions
    {
      b := name in definitions;
    }

    /** `getBeanDefinitionCount`: the size of the registry, which is the number of registrations. */
    method GetBeanDefinitionCount() returns (n: nat)
      requires Valid()
      ensures n == |definitions| && n == |definitionNames|
    {
      CountOfDistinct(definitionNames, definitions);
      n := |definitions|;
    }

    /** `getBeanDefinitionNames(type)`: the matching names in registration order. */
    method GetBeanDefinitionNames(t: Option<Class>) returns (names: seq<string>)
      requires Valid()
      ensures names == NamesOfType(world.table, definitionNames, definitions, t)
    {
      names := [];
      for i := 0 to |definitionNames|
        invariant names == NamesOfType(world.table, definitionNames[..i], definitions, t)
      {
        var n := definitionNames[i];
        assert definitionNames[..i + 1][..i] == definitionNames[..i];
        if t.None? || IsAssignableFrom(world.table, t.value, definitions[n].beanClass) {
          names := names + [n];
        }
      }
      assert definitionNames[..|definitionNames|] == definitionNames;
    }

    // ---- The singleton cache -------------------------------------------------------------

    /** `registerSingleton`: neither a prefixed name nor a cached one can be registered. */
    method RegisterSingleton(name: string, obj: Obj) returns (o: Outcome)
      modifies this
      ensures IsFactoryDereference(name) || name in old(singletons) <==> o == Fail(BeansException)
      ensures o.Fail? ==> unchanged(this)
      ensures o.Pass? ==> singletons == old(singletons)[name := obj]
      ensures definitionNames == old(definitionNames) && definitions == old(definitions) && log == old(log)
      ensures postProcessors == old(postProcessors) && nextId == old(nextId)
      ensures customEditors == old(customEditors) && registrars == old(registrars)
    {
      if IsFactoryDereference(name) || name in singletons {
        return Fail(BeansException);
      }
      singletons := singletons[name := obj];
      return Pass;
    }

    /** `containsBean`: cached or defined, under the name without its prefix. */
    method ContainsBean(name: string) returns (b: bool)
      ensures b <==> Stripped(name) in singletons || Stripped(name) in definitions
    {
      var resolved := Stripped(name);
      b := resolved in singletons || resolved in definitions;
    }

    /** `isSingleton`: cached names are singletons; otherwise the definition decides. */
    method IsSingleton(name: string) returns (r: Result<bool>)
      ensures Stripped(name) in singletons ==> r == Ok(true)
      ensures Stripped(name) !in singletons && Stripped(name) !in definitions ==> r == Err(BeansException)
      ensures Stripped(name) !in singletons && Stripped(name) in definitions ==>
        r == Ok(definitions[Stripped(name)].singleton)
    {
      var resolved := Stripped(name);
      if resolved in singletons {
        return Ok(true);
      }
      var bd := GetBeanDefinition(resolved);
      if bd.Err? {
        return Err(bd.error);
      }
      return Ok(bd.value.singleton);
    }

    /** `getSingletonNames(type)`: the cached names whose object is of the type (all for null). */
    method GetSingletonNames(t: Option<Class>) returns (names: set<string>)
      ensures forall n :: n in names <==>
        n in singletons && (t.None? || IsAssignableFrom(world.table, t.value, singletons[n].cls))
    {
      names := {};
      var rest := singletons.Keys;
      while rest != {}
        invariant rest <= singletons.Keys
        invariant forall n :: n in names <==> (n in singletons && n !in rest
          && (t.None? || IsAssignableFrom(world.table, t.value, singletons[n].cls)))
        decreases |rest|
      {
        ghost var some := SomeElement(rest);
        var n :| n in rest;
        if t.None? || IsAssignableFrom(world.table, t.value, singletons[n].cls) {
          names := names + {n};
        }
        rest := rest - {n};
      }
    }

    // ---- ConfigurableBeanFactory ---------------------------------------------------------

    /** `addBeanPostProcessor`: appended; processors run in registration order. */
    method AddBeanPostProcessor(p: Processor)
      modifies this
      ensures postProcessors == old(postProcessors) + [p]
      ensures definitionNames == old(definitionNames) && definitions == old(definitions)
      ensures singletons == old(singletons) && log == old(log) && nextId == old(nextId)
      ensures customEditors == old(customEditors) && registrars == old(registrars)
    {
      postProcessors := postProcessors + [p];
    }

    /** `addPropertyEditorRegistrar`: a set, so adding twice keeps one. */
    method AddPropertyEditorRegistrar(registrar: Obj)
      modifies this
      ensures registrars == old(registrars) + {registrar}
      ensures definitionNames == old(definitionNames) && definitions == old(definitions)
      ensures singletons == old(singletons) && log == old(log) && nextId == old(nextId)
      ensures customEditors == old(customEditors) && postProcessors == old(postProcessors)
    {
      registrars := registrars + {registrar};
    }

    /** `registerCustomEditor`: instantiates the editor class and keeps the editor for the type. */
    method RegisterCustomEditor(requiredType: Class, editorClass: Class) returns (o: Outcome)
      modifies this
      ensures o.Pass? ==> (requiredType in customEditors && customEditors[requiredType].cls == editorClass
        && customEditors == old(customEditors)[requiredType := customEditors[requiredType]])
      ensures o.Fail? ==> customEditors == old(customEditors)
      ensures !HasNoArgConstructor(world.table, editorClass) ==> o == Fail(BeansException)
      ensures definitionNames == old(definitionNames) && definitions == old(definitions)
      ensures singletons == old(singletons) && postProcessors == old(postProcessors)
      ensures registrars == old(registrars) && old(log) <= log
    {
      var editor := InstantiateClass(editorClass);
      if editor.Err? {
        return Fail(editor.error);
      }
      customEditors := customEditors[requiredType := editor.value];
      return Pass;
    }

    // ---- Getting beans -------------------------------------------------------------------

    /** `getBeanFromSharedInstance`, making the `getObject` call when the product is asked for. */
    method GetObjectForSharedInstance(name: string, shared: Obj) returns (r: Result<Obj>)
      modifies this`log
      ensures r == SharedResult(world, name, shared)
      ensures log == old(log) +
        if Implements(world.table, shared.cls, FactoryBean) && !IsFactoryDereference(name)
        then [GetObject(shared)] else []
    {
      var prefixed := IsFactoryDereference(name);
      var isFactory := Implements(world.table, shared.cls, FactoryBean);
      if prefixed && !isFactory {
        return Err(BeansException);
      }
      if isFactory && !prefixed {
        var o := Invoke(GetObject(shared));
        if o.Fail? {
          return Err(Wrap(o.error));
        }
        var product := world.product(shared);
        if product.None? {
          return Err(BeansException);
        }
        return Ok(product.value);
      }
      return Ok(shared);
    }

    /**
     * `getBean`. A cached object is served from the cache; an unknown name is an error; a
     * singleton is created once and cached under the name without its prefix; a prototype
     * is created afresh each time and never cached. `fuel` bounds the depth of nested
     * creation, which the Java program bounds by its stack.
     */
    method GetBean(name: string, fuel: nat) returns (r: Result<Obj>, ghost c: Creation)
      requires Valid()
      modifies this
      ensures Valid() && Stable() && GotBean(world, old(Snapshot()), Snapshot(), name, r)
      ensures Created(world, fuel, old(Snapshot()), Snapshot(), name, r, c)
      ensures r.Ok? && DefinesSingleton(Stripped(name)) ==>
        Stripped(name) in singletons && r == SharedResult(world, name, singletons[Stripped(name)])
      decreases fuel, 0, 0
    {
      var resolved := Stripped(name);
      ghost var none := Build(Err(BeansException), Injection(false, Request(name, Snapshot(), Snapshot(), Err(BeansException)),
                              ArgValues(map[], []), [], 0, false, [], 0, []), Snapshot(),
                              Population(Pass, [], Request(name, Snapshot(), Snapshot(), Err(BeansException)), []), Snapshot());
      c := Creation([], Snapshot(), none, Snapshot(), Err(BeansException));
      if resolved in singletons {
        ghost var cached := Snapshot();
        r := GetObjectForSharedInstance(name, singletons[resolved]);
        CallsGrew(cached, log[|cached.log|..]);
        assert Snapshot() == cached.(log := cached.log + log[|cached.log|..]);
        return;
      }
      if resolved !in definitions {
        return Err(BeansException), c;
      }
      if fuel == 0 {
        return Err(StackOverflowError), c;
      }
      r, c := CreateUncached(name, fuel - 1);
    }

    /** The creating branch of `getBean`, for a name defined but not cached. */
    method CreateUncached(name: string, fuel: nat) returns (r: Result<Obj>, ghost c: Creation)
      requires Valid() && Stripped(name) !in singletons && Stripped(name) in definitions
      modifies this
      ensures Valid() && Stable() && GotBean(world, old(Snapshot()), Snapshot(), name, r)
      ensures Creating(world, old(Snapshot()), Snapshot(), name, r, c)
      ensures r.Ok? && DefinesSingleton(Stripped(name)) ==>
        Stripped(name) in singletons && r == SharedResult(world, name, singletons[Stripped(name)])
      decreases fuel, 9
    {
      if definitions[Stripped(name)].singleton {
        r, c := CreateSingleton(name, fuel);
      } else {
        r, c := CreatePrototype(name, fuel);
      }
    }

    /** A singleton created, cached under the name without its prefix, then served as a shared instance. */
    method CreateSingleton(name: string, fuel: nat) returns (r: Result<Obj>, ghost c: Creation)
      requires Valid() && Stripped(name) !in singletons && Stripped(name) in definitions
      requires definitions[Stripped(name)].singleton
      modifies this
      ensures Valid() && Stable() && GotBean(world, old(Snapshot()), Snapshot(), name, r)
      ensures Creating(world, old(Snapshot()), Snapshot(), name, r, c)
      ensures r.Ok? ==> Stripped(name) in singletons && r == SharedResult(world, name, singletons[Stripped(name)])
      decreases fuel, 8
    {
      var resolved := Stripped(name);
      var bd := definitions[resolved];
      var created;
      ghost var deps, mid, build;
      created, deps, mid, build := CreateBean(resolved, bd, fuel);
      c := Creation(deps, mid, build, Snapshot(), created);
      if created.Err? {
        return Err(created.error), c;
      }
      ghost var afterCreation := Snapshot();
      singletons := singletons[resolved := created.value];
      PublishNew(old(Snapshot()), afterCreation, resolved, created.value);
      ghost var published := Snapshot();
      r := GetObjectForSharedInstance(name, created.value);
      CallsGrew(published, log[|published.log|..]);
      assert Snapshot() == published.(log := published.log + log[|published.log|..]);
      GrewTrans(old(Snapshot()), published, Snapshot());
      NewSingletonGot(world, old(Snapshot()), afterCreation, Snapshot(), name, r, created.value);
    }

    /** A prototype created afresh and returned as it is, never cached. */
    method CreatePrototype(name: string, fuel: nat) returns (r: Result<Obj>, ghost c: Creation)
      requires Valid() && Stripped(name) !in singletons && Stripped(name) in definitions
      requires !definitions[Stripped(name)].singleton
      modifies this
      ensures Valid() && Stable() && GotBean(world, old(Snapshot()), Snapshot(), name, r)
      ensures Creating(world, old(Snapshot()), Snapshot(), name, r, c)
      ensures !DefinesSingleton(Stripped(name))
      decreases fuel, 8
    {
      var bd := definitions[Stripped(name)];
      ghost var deps, mid, build;
      r, deps, mid, build := CreateBean(name, bd, fuel);
      c := Creation(deps, mid, build, Snapshot(), r);
    }

    /** `getBean(name, requiredType)`: the bean, provided its class is assignable to the type. */
    method GetBeanOfType(name: string, requiredType: Class, fuel: nat) returns (r: Result<Obj>, ghost req: Request)
      requires Valid()
      modifies this
      ensures Valid() && Stable()
      ensures req == Request(name, old(Snapshot()), Snapshot(), req.result)
      ensures GotBean(world, req.before, req.after, name, req.result)
      ensures r == if req.result.Ok? && !IsAssignableFrom(world.table, requiredType, req.result.value.cls)
                   then Err(BeansException) else req.result
      ensures Stripped(name) in old(singletons) ==> (singletons == old(singletons) &&
        match SharedResult(world, name, old(singletons)[Stripped(name)])
        case Err(e) => r == Err(e)
        case Ok(b) => r == if IsAssignableFrom(world.table, requiredType, b.cls) then Ok(b) else Err(BeansException))
      decreases fuel, 1
    {
      r, req := FetchBean(name, fuel);
      if r.Ok? && !IsAssignableFrom(world.table, requiredType, r.value.cls) {
        r := Err(BeansException);
      }
    }

    /**
     * `createBean`: the beans it depends on first, in order, then the bean itself, made
     * from an instance whose identity is handed out only after every dependency was got.
     */
    method CreateBean(name: string, bd: BeanDefinition, fuel: nat)
      returns (r: Result<Obj>, ghost deps: seq<Request>, ghost mid: FactoryState, ghost b: Build)
      requires Valid()
      requires bd.singleton ==> DefinesSingleton(name)
      modifies this
      ensures Valid() && GrewReplacing(old(Snapshot()), Snapshot(), if bd.singleton then {name} else {})
      ensures CreateBeanDid(world, name, bd, old(Snapshot()), mid, Snapshot(), r, deps, b) && old(nextId) <= mid.nextId
      ensures r.Ok? ==> |deps| == |DependsOn(bd)| && exists bean: Obj :: (bean.cls == bd.beanClass && mid.nextId <= bean.id < nextId
        && r.value == LifecycleResult(world, postProcessors, name, bd, bean)
        && (bd.singleton ==> name in singletons && singletons[name] == bean))
      decreases fuel, 7
    {
      var o;
      o, deps := GetDependencies(bd, fuel);
      mid := Snapshot();
      b := Build(Err(BeansException), Injection(false, Request(name, mid, mid, Err(BeansException)), ArgValues(map[], []), [], 0,
                 false, [], 0, []), mid, Population(Pass, [], Request(name, mid, mid, Err(BeansException)), []), mid);
      if o.Fail? {
        return Err(o.error), deps, mid, b;
      }
      r, b := BuildBean(name, bd, fuel);
      GrewReplacingTrans(old(Snapshot()), mid, Snapshot(), if bd.singleton then {name} else {});
    }

    /**
     * The rest of `createBean`: an instance, published early when it is a singleton,
     * populated, and finally taken through its lifecycle callbacks. The early-published
     * instance is what a reference to the bean resolves to while it is being populated, and
     * it is still cached when creation ends.
     */
    method BuildBean(name: string, bd: BeanDefinition, fuel: nat) returns (r: Result<Obj>, ghost b: Build)
      requires Valid()
      requires bd.singleton ==> DefinesSingleton(name)
      modifies this
      ensures Valid() && GrewReplacing(old(Snapshot()), Snapshot(), if bd.singleton then {name} else {})
      ensures Built(world, name, bd, old(Snapshot()), Snapshot(), r, b)
      ensures r.Ok? ==> exists bean: Obj :: (bean.cls == bd.beanClass && old(nextId) <= bean.id < nextId
        && r.value == LifecycleResult(world, postProcessors, name, bd, bean)
        && (bd.singleton ==> name in singletons && singletons[name] == bean))
      decreases fuel, 6
    {
      var made;
      ghost var how;
      made, how := NewInstance(name, bd, fuel);
      b := Build(made, how, Snapshot(), Population(Pass, [], Request(name, Snapshot(), Snapshot(), Err(BeansException)), []),
                 Snapshot());
      if made.Err? {
        return Err(made.error), b;
      }
      var bean := made.value;
      ghost var instantiated := Snapshot();
      if bd.singleton {
        singletons := singletons[name := bean];
        PublishGrew(instantiated, name, bean);
        GrewReplacingTrans(old(Snapshot()), instantiated, Snapshot(), {name});
      }
      ghost var published := Snapshot();
      ghost var p, populated;
      r, p, populated := PopulateAndInitialize(name, bd, bean, fuel);
      b := b.(population := p, populated := populated);
      GrewReplacingTrans(old(Snapshot()), published, Snapshot(), if bd.singleton then {name} else {});
    }

    /** The end of `createBean`: the instance populated, then taken through its lifecycle callbacks. */
    method PopulateAndInitialize(name: string, bd: BeanDefinition, bean: Obj, fuel: nat)
      returns (r: Result<Obj>, ghost p: Population, ghost populated: FactoryState)
      requires Valid()
      requires bd.singleton ==> name in singletons && singletons[name] == bean
      modifies this
      ensures Valid() && Stable()
      ensures Populated(world, bd, bean, old(Snapshot()), populated, p)
      ensures p.outcome.Fail? ==> r == Err(p.outcome.error) && Snapshot() == populated
      ensures p.outcome.Pass? ==> Initialized(world, name, bd, bean, populated, Snapshot(), r)
      ensures r.Ok? ==> r.value == LifecycleResult(world, postProcessors, name, bd, bean)
      decreases fuel, 4
    {
      var o;
      ghost var applied, failed, found;
      o, applied, failed, found := PopulateBean(name, bd, bean, fuel);
      p, populated := Population(o, applied, failed, found), Snapshot();
      if o.Fail? {
        return Err(o.error), p, populated;
      }
      r := InitializeBean(name, bd, bean);
      CallsGrew(populated, log[|populated.log|..]);
      assert Snapshot() == populated.(log := populated.log + log[|populated.log|..]);
      GrewTrans(old(Snapshot()), populated, Snapshot());
    }

    /**
     * The `dependsOn` loop of `createBean`: every named bean is got, in order, until one
     * cannot be.
     */
    method GetDependencies(bd: BeanDefinition, fuel: nat) returns (o: Outcome, ghost reqs: seq<Request>)
      requires Valid()
      modifies this
      ensures Valid() && Stable() && Chain(world, old(Snapshot()), Snapshot(), reqs)
      ensures |reqs| <= |DependsOn(bd)| && (forall k :: 0 <= k < |reqs| ==> reqs[k].name == DependsOn(bd)[k])
      ensures o.Pass? ==> |reqs| == |DependsOn(bd)|
      ensures StopsAtFailure(reqs, o)
      decreases fuel, 2
    {
      reqs := [];
      if bd.dependsOn.Some? {
        var deps := bd.dependsOn.value;
        for i := 0 to |deps|
          invariant Valid() && Stable() && Chain(world, old(Snapshot()), Snapshot(), reqs)
          invariant |reqs| == i && forall k :: 0 <= k < i ==> reqs[k].name == deps[k] && reqs[k].result.Ok?
        {
          ghost var before := Snapshot();
          var d;
          ghost var req;
          d, req := RequestBean(deps[i], fuel);
          GrewTrans(old(Snapshot()), before, Snapshot());
          OneRequest(world, req);
          ChainAppend(world, old(Snapshot()), before, Snapshot(), reqs, [req]);
          reqs := reqs + [req];
          if d.Err? {
            return Fail(d.error), reqs;
          }
        }
      }
      return Pass, reqs;
    }

    /** `getBean(name)`, recorded as a request with what `GotBean` says of it. */
    method FetchBean(name: string, fuel: nat) returns (r: Result<Obj>, ghost req: Request)
      requires Valid()
      modifies this
      ensures Valid() && Stable()
      ensures req == Request(name, old(Snapshot()), Snapshot(), r)
      ensures GotBean(world, req.before, req.after, name, r)
      decreases fuel, 0, 2
    {
      ghost var creation;
      r, creation := GetBean(name, fuel);
      req := Request(name, old(Snapshot()), Snapshot(), r);
    }

    /** `getBean(name)`, recorded as a request with the factory's state before and after it. */
    method RequestBean(name: string, fuel: nat) returns (r: Result<Obj>, ghost req: Request)
      requires Valid()
      modifies this
      ensures Valid() && Stable() && Answered(world, req)
      ensures req == Request(name, old(Snapshot()), Snapshot(), r)
      ensures r.Ok? && DefinesSingleton(Stripped(name)) ==>
        Stripped(name) in singletons && r == SharedResult(world, name, singletons[Stripped(name)])
      decreases fuel, 0, 1
    {
      ghost var creation;
      r, creation := GetBean(name, fuel);
      req := Request(name, old(Snapshot()), Snapshot(), r);
    }

    /**
     * The instance `createBean` starts from: through a constructor when constructor injection
     * is asked for or arguments are given, otherwise through the no-argument constructor.
     */
    method NewInstance(name: string, bd: BeanDefinition, fuel: nat) returns (r: Result<Obj>, ghost how: Injection)
      requires Valid()
      modifies this
      ensures Valid() && Stable()
      ensures r.Ok? ==> r.value.cls == bd.beanClass && old(nextId) <= r.value.id < nextId
      ensures MadeInstance(world, bd, old(Snapshot()), Snapshot(), r, how)
      ensures InjectsConstructor(world, bd) && r.Ok? ==> ConstructorCalled(world, bd, HeldArguments(bd), log)
      decreases fuel, 5
    {
      var mode := GetResolvedAutowireMode(bd, world.table);
      if mode == AUTOWIRE_CONSTRUCTOR || HasConstructorArgumentValues(bd) {
        r, how := AutowireConstructor(name, bd, fuel);
      } else {
        how := Injection(false, Request(name, old(Snapshot()), old(Snapshot()), Err(BeansException)), ArgValues(map[], []), [], 0,
                         false, [], 0, []);
        r := InstantiateClass(bd.beanClass);
      }
    }

    /**
     * The lifecycle block of `createBean`: aware callbacks, the processors' before-phase,
     * the init methods and the after-phase, inside one `try` whose exceptions become
     * BeansExceptions.
     */
    method InitializeBean(name: string, bd: BeanDefinition, bean: Obj) returns (r: Result<Obj>)
      modifies this`log
      ensures var calls := LifecycleCalls(world, postProcessors, name, bd, bean);
        log == old(log) + Attempted(world.outcome, calls)
        && r == if RunOutcome(world.outcome, calls).Fail? then Err(Wrap(RunOutcome(world.outcome, calls).error))
                else Ok(LifecycleResult(world, postProcessors, name, bd, bean))
    {
      var aware := AwareCalls(world.table, bean, name);
      ghost var rest := ProcessingCalls(world, postProcessors, name, bd, bean);
      RunAppend(world.outcome, aware, rest);
      var o := Perform(aware);
      if o.Fail? {
        return Err(Wrap(o.error));
      }
      PassedAll(world.outcome, aware);
      ghost var log0 := old(log);
      r := ProcessBean(name, bd, bean);
      RunThen(world.outcome, log0, aware, rest);
    }

    /** The lifecycle block after the aware callbacks: the before-phase, the init methods, the after-phase. */
    method ProcessBean(name: string, bd: BeanDefinition, bean: Obj) returns (r: Result<Obj>)
      modifies this`log
      ensures var calls := ProcessingCalls(world, postProcessors, name, bd, bean);
        log == old(log) + Attempted(world.outcome, calls)
        && r == if RunOutcome(world.outcome, calls).Fail? then Err(Wrap(RunOutcome(world.outcome, calls).error))
                else Ok(LifecycleResult(world, postProcessors, name, bd, bean))
    {
      ghost var before := BeforeCalls(world.table, postProcessors, bean, name);
      ghost var processed := BeforeResult(world, postProcessors, bean, name);
      ghost var rest := InitCalls(world.table, processed, bd) + AfterCalls(postProcessors, processed, name);
      RunAppend(world.outcome, before, rest);
      var o, current := ApplyBeforeProcessors(bean, name);
      if o.Fail? {
        return Err(Wrap(o.error));
      }
      PassedAll(world.outcome, before);
      ghost var log0 := old(log);
      r := CompleteInitialization(name, bd, current);
      RunThen(world.outcome, log0, before, rest);
    }

    /** The rest of the lifecycle block: the init methods, then the after-phase. */
    method CompleteInitialization(name: string, bd: BeanDefinition, bean: Obj) returns (r: Result<Obj>)
      modifies this`log
      ensures var calls := InitCalls(world.table, bean, bd) + AfterCalls(postProcessors, bean, name);
        log == old(log) + Attempted(world.outcome, calls)
        && r == if RunOutcome(world.outcome, calls).Fail? then Err(Wrap(RunOutcome(world.outcome, calls).error))
                else Ok(AfterResult(world, postProcessors, bean, name))
    {
      var init := InitCalls(world.table, bean, bd);
      ghost var after := AfterCalls(postProcessors, bean, name);
      RunAppend(world.outcome, init, after);
      var o := Perform(init);
      if o.Fail? {
        return Err(Wrap(o.error));
      }
      PassedAll(world.outcome, init);
      ghost var log0 := old(log);
      var current;
      o, current := ApplyAfterProcessors(bean, name);
      RunThen(world.outcome, log0, init, after);
      if o.Fail? {
        return Err(Wrap(o.error));
      }
      return Ok(current);
    }

    /**
     * The loop of both processor phases: processor `i` makes the calls `steps[i]` and, when
     * they all return, its answer `answers[i]` becomes the result; the first exception ends
     * the loop.
     */
    method RunProcessors(steps: seq<seq<Call>>, answers: seq<Obj>, initial: Obj) returns (o: Outcome, result: Obj)
      requires |answers| == |steps|
      modifies this`log
      ensures log == old(log) + Attempted(world.outcome, Flatten(steps))
      ensures o == RunOutcome(world.outcome, Flatten(steps))
      ensures o.Pass? ==> result == if |steps| == 0 then initial else answers[|steps| - 1]
    {
      result := initial;
      o := Pass;
      for i := 0 to |steps|
        invariant log == old(log) + Flatten(steps[..i])
        invariant o == Pass && RunOutcome(world.outcome, Flatten(steps[..i])).Pass?
        invariant result == if i == 0 then initial else answers[i - 1]
      {
        ghost var done := Flatten(steps[..i]);
        FlattenAround(steps, i);
        RunStep(world.outcome, done, steps[i], Flatten(steps[i + 1..]));
        o := Perform(steps[i]);
        if o.Fail? {
          ConcatAssoc(old(log), done, Attempted(world.outcome, steps[i]));
          return;
        }
        PassedAll(world.outcome, steps[i]);
        ConcatAssoc(old(log), done, steps[i]);
        result := answers[i];
      }
      assert steps[..|steps|] == steps;
      PassedAll(world.outcome, Flatten(steps));
    }

    /** `applyBeanPostProcessorsBeforeInitialization`: each processor is given the original bean. */
    method ApplyBeforeProcessors(bean: Obj, name: string) returns (o: Outcome, result: Obj)
      modifies this`log
      ensures log == old(log) + Attempted(world.outcome, BeforeCalls(world.table, postProcessors, bean, name))
      ensures o == RunOutcome(world.outcome, BeforeCalls(world.table, postProcessors, bean, name))
      ensures o.Pass? ==> result == BeforeResult(world, postProcessors, bean, name)
    {
      BeforePhaseIsSteps(world, postProcessors, bean, name);
      o, result := RunProcessors(BeforeSteps(world.table, postProcessors, bean, name),
                                 BeforeAnswers(world, postProcessors, bean, name), bean);
    }

    /** `applyBeanPostProcessorsAfterInitialization`: likewise, each given the same object. */
    method ApplyAfterProcessors(bean: Obj, name: string) returns (o: Outcome, result: Obj)
      modifies this`log
      ensures log == old(log) + Attempted(world.outcome, AfterCalls(postProcessors, bean, name))
      ensures o == RunOutcome(world.outcome, AfterCalls(postProcessors, bean, name))
      ensures o.Pass? ==> result == AfterResult(world, postProcessors, bean, name)
    {
      AfterPhaseIsSteps(world, postProcessors, bean, name);
      o, result := RunProcessors(AfterSteps(postProcessors, bean, name),
                                 AfterAnswers(world, postProcessors, bean, name), bean);
    }

    // ---- Constructor injection -----------------------------------------------------------

    /** The keys of an indexed-argument map in ascending order, the order a `HashMap` of small integers iterates in. */
    method AscendingIndices(indexed: map<int, ValueHolder>) returns (keys: seq<int>)
      ensures AscendingKeys(keys, indexed)
    {
      keys := [];
      var rest := indexed.Keys;
      while rest != {}
        invariant rest <= indexed.Keys
        invariant forall k :: k in keys <==> k in indexed && k !in rest
        invariant forall i, j :: 0 <= i < j < |keys| ==> keys[i] < keys[j]
        invariant forall i, k :: 0 <= i < |keys| && k in rest ==> keys[i] < k
        decreases |rest|
      {
        ghost var least := Least(rest);
        var m :| m in rest && forall k :: k in rest ==> m <= k;
        keys := keys + [m];
        rest := rest - {m};
      }
    }

    /**
     * `autowireConstructor`. The required argument count starts at the number of held
     * arguments and grows past any larger index; the held arguments are resolved into a new
     * holder; then every public constructor is tried in turn, a later fit replacing an
     * earlier one; a constructor with too few parameters, or one whose slots cannot all be
     * filled, is skipped, unless it is the last and none fitted.
     */
    method AutowireConstructor(name: string, bd: BeanDefinition, fuel: nat) returns (r: Result<Obj>, ghost how: Injection)
      requires Valid()
      modifies this
      ensures Valid() && Stable()
      ensures ConstructorInjected(world, bd, old(Snapshot()), Snapshot(), r, how)
      ensures var ctors := Info(world.table, bd.beanClass).constructors;
        (forall k :: 0 <= k < |ctors| ==> |ctors[k]| < NumberOfArguments(HeldArguments(bd))) ==> r.Err?
      ensures r.Ok? ==> r.value.cls == bd.beanClass && old(nextId) <= r.value.id < nextId
      ensures r.Ok? ==> how.resolved && how.selected && ConstructorCalled(world, bd, HeldArguments(bd), log)
      decreases fuel, 4, 1
    {
      var n := 0;
      var resolved: ConstructorArgumentValues;
      ghost var keys: seq<int> := [];
      if bd.constructorArgumentValues.Some? {
        var o;
        ghost var before := Snapshot();
        ghost var failed;
        o, n, resolved, keys, failed := ResolveHeldArguments(name, bd.constructorArgumentValues.value, fuel);
        GrewTrans(old(Snapshot()), before, Snapshot());
        if o.Fail? {
          return Err(o.error), Injection(false, failed, ArgValues(map[], []), [], 0, false, [], 0, []);
        }
      } else {
        resolved := new ConstructorArgumentValues();
      }
      ghost var beforeCall := Snapshot();
      r, how := ConstructWithHeld(bd, keys, n, resolved, fuel);
      GrewTrans(old(Snapshot()), beforeCall, Snapshot());
      SelectedSince(world, bd, old(Snapshot()), beforeCall, Snapshot(), r, how);
    }

    /**
     * The second part of `autowireConstructor`: with the held arguments resolved into
     * `resolved` and the argument count `n`, the constructors tried, and the one selected
     * called.
     */
    method ConstructWithHeld(bd: BeanDefinition, ghost keys: seq<int>, n: nat, resolved: ConstructorArgumentValues, fuel: nat)
      returns (r: Result<Obj>, ghost how: Injection)
      requires Valid() && HeldResolution(HeldArguments(bd), resolved.Contents(), keys, n)
      modifies this
      ensures Valid() && Stable()
      ensures how.resolved && how.held == resolved.Contents() && how.keys == keys && how.n == n
      ensures Selected(world, bd, old(Snapshot()), Snapshot(), r, how)
      ensures var ctors := Info(world.table, bd.beanClass).constructors;
        (forall k :: 0 <= k < |ctors| ==> |ctors[k]| < n) ==> r.Err?
      ensures r.Ok? ==> r.value.cls == bd.beanClass && old(nextId) <= r.value.id < nextId
      ensures r.Ok? ==> how.selected && ConstructorCalled(world, bd, HeldArguments(bd), log)
      decreases fuel, 4, 0
    {
      var ctors := Info(world.table, bd.beanClass).constructors;
      var selected;
      ghost var attempts, chosen, slotsOf;
      selected, attempts, chosen, slotsOf := SelectConstructor(ctors, n, resolved, fuel);
      how := Injection(true, Request("", old(Snapshot()), old(Snapshot()), Err(BeansException)), resolved.Contents(), keys, n,
                       selected.Ok?, attempts, chosen, slotsOf);
      if selected.Err? {
        return Err(selected.error), how;
      }
      ghost var beforeCall := Snapshot();
      r := Construct(bd.beanClass, selected.value.0, selected.value.1);
      GrewTrans(old(Snapshot()), beforeCall, Snapshot());
      if r.Err? {
        r := Err(Wrap(r.error));
      }
    }

    /**
     * The first part of `autowireConstructor`: the required argument count, and the held
     * arguments resolved into a new holder, the indexed ones in ascending order of index,
     * then the generic ones. It fails when a bean an argument names cannot be got.
     */
    method ResolveHeldArguments(name: string, cargs: ArgValues, fuel: nat)
      returns (o: Outcome, n: nat, resolved: ConstructorArgumentValues, ghost order: seq<int>, ghost failed: Request)
      requires Valid()
      modifies this
      ensures Valid() && Stable() && fresh(resolved)
      ensures o.Pass? ==> HeldResolution(cargs, resolved.Contents(), order, n)
      ensures o.Fail? ==> HeldRefersTo(cargs, failed.name) && FailedRequest(world, failed, o.error)
      decreases fuel, 3
    {
      resolved := new ConstructorArgumentValues();
      var keys := AscendingIndices(cargs.indexed);
      order := keys;
      ghost var beforeIndexed := Snapshot();
      o, n, failed := ResolveIndexedArguments(name, cargs, keys, resolved, fuel);
      GrewTrans(old(Snapshot()), beforeIndexed, Snapshot());
      if o.Fail? {
        return o, n, resolved, order, failed;
      }
      ghost var before := Snapshot();
      o, failed := ResolveGenericArguments(name, cargs.generic, resolved, fuel);
      GrewTrans(old(Snapshot()), before, Snapshot());
    }

    /**
     * The indexed held arguments, visited in the order of `keys`, resolved and added to
     * `resolved` under their index; the argument count grows past any larger index.
     */
    method ResolveIndexedArguments(name: string, cargs: ArgValues, keys: seq<int>, resolved: ConstructorArgumentValues, fuel: nat)
      returns (o: Outcome, n: nat, ghost failed: Request)
      requires Valid() && resolved.indexed == map[] && resolved.generic == []
      requires forall k :: k in keys <==> k in cargs.indexed
      modifies this, resolved
      ensures Valid() && Stable() && resolved.generic == []
      ensures o.Pass? ==> n == ArgCount(keys, NumberOfArguments(cargs))
      ensures o.Pass? ==> resolved.indexed.Keys == cargs.indexed.Keys
      ensures forall k :: k in resolved.indexed ==> (k in cargs.indexed
        && resolved.indexed[k].typeName == cargs.indexed[k].typeName && Resolves(cargs.indexed[k].value, resolved.indexed[k].value))
      ensures o.Fail? ==>
        (exists k :: k in cargs.indexed && RefersTo(cargs.indexed[k].value, failed.name)) && FailedRequest(world, failed, o.error)
      decreases fuel, 2, 1
    {
      n := NumberOfArguments(cargs);
      failed := Request(name, old(Snapshot()), old(Snapshot()), Err(BeansException));
      for i := 0 to |keys|
        invariant Valid() && Stable() && resolved.generic == []
        invariant n == ArgCount(keys[..i], NumberOfArguments(cargs))
        invariant forall k :: k in resolved.indexed <==> k in keys[..i]
        invariant forall k :: k in resolved.indexed ==> (k in cargs.indexed
          && resolved.indexed[k].typeName == cargs.indexed[k].typeName && Resolves(cargs.indexed[k].value, resolved.indexed[k].value))
      {
        var index := keys[i];
        ArgCountStep(keys, i, NumberOfArguments(cargs));
        if index > n {
          n := index + 1;
        }
        var holder := cargs.indexed[index];
        ghost var before := Snapshot();
        var step;
        ghost var req;
        step, req := ResolveIndexedArgument(name, index, holder, resolved, fuel);
        GrewTrans(old(Snapshot()), before, Snapshot());
        if step.Fail? {
          return step, n, req;
        }
      }
      assert keys[..|keys|] == keys;
      forall k | k in cargs.indexed ensures k in resolved.indexed {
        assert k in keys;
      }
      forall k | k in resolved.indexed ensures k in cargs.indexed {
      }
      assert resolved.indexed.Keys == cargs.indexed.Keys;
      o := Pass;
    }

    /**
     * One indexed held argument: its value resolved and added to `resolved` under its index
     * and type name. A reference is resolved by the `getBean` request `req`, and becomes
     * the object that request got.
     */
    method ResolveIndexedArgument(name: string, index: int, holder: ValueHolder, resolved: ConstructorArgumentValues, fuel: nat)
      returns (o: Outcome, ghost req: Request)
      requires Valid() && resolved.generic == []
      modifies this, resolved
      ensures Valid() && Stable() && resolved.generic == []
      ensures holder.value.Ref? ==>
        req == Request(holder.value.beanName, old(Snapshot()), Snapshot(), req.result)
        && GotBean(world, old(Snapshot()), Snapshot(), holder.value.beanName, req.result)
      ensures o.Fail? ==>
        resolved.indexed == old(resolved.indexed) && RefersTo(holder.value, req.name) && FailedRequest(world, req, o.error)
      ensures o.Pass? ==>
        exists v :: Resolves(holder.value, v) && resolved.indexed == old(resolved.indexed)[index := ValueHolder(v, holder.typeName)]
      ensures o.Pass? && holder.value.Ref? ==>
        req.result.Ok? && resolved.indexed == old(resolved.indexed)[index := ValueHolder(Instance(req.result.value), holder.typeName)]
      decreases fuel, 2, 0
    {
      var v;
      v, req := ResolveValue(name, holder.value, fuel);
      if v.Err? {
        return Fail(v.error), req;
      }
      resolved.AddIndexedArgumentValue(index, v.value, holder.typeName);
      o := Pass;
    }

    /** The generic held arguments resolved in order and added to `resolved`. */
    method ResolveGenericArguments(name: string, generic: seq<ValueHolder>, resolved: ConstructorArgumentValues, fuel: nat)
      returns (o: Outcome, ghost failed: Request)
      requires Valid() && resolved.generic == []
      modifies this, resolved
      ensures Valid() && Stable() && resolved.indexed == old(resolved.indexed)
      ensures o.Pass? ==> |resolved.generic| == |generic|
      ensures forall i :: 0 <= i < |resolved.generic| && i < |generic| ==>
        resolved.generic[i].typeName == generic[i].typeName && Resolves(generic[i].value, resolved.generic[i].value)
      ensures o.Fail? ==>
        (exists i :: 0 <= i < |generic| && RefersTo(generic[i].value, failed.name)) && FailedRequest(world, failed, o.error)
      decreases fuel, 2, 1
    {
      failed := Request(name, old(Snapshot()), old(Snapshot()), Err(BeansException));
      for i := 0 to |generic|
        invariant Valid() && Stable() && resolved.indexed == old(resolved.indexed)
        invariant |resolved.generic| == i
        invariant forall j :: 0 <= j < i ==>
          resolved.generic[j].typeName == generic[j].typeName && Resolves(generic[j].value, resolved.generic[j].value)
      {
        var holder := generic[i];
        ghost var before := Snapshot();
        var step;
        ghost var req;
        step, req := ResolveGenericArgument(name, holder, resolved, fuel);
        GrewTrans(old(Snapshot()), before, Snapshot());
        if step.Fail? {
          return step, req;
        }
      }
      o := Pass;
    }

    /**
     * One generic held argument: its value resolved and appended to `resolved` with its
     * type name. A reference is resolved by the `getBean` request `req`, and becomes the
     * object that request got.
     */
    method ResolveGenericArgument(name: string, holder: ValueHolder, resolved: ConstructorArgumentValues, fuel: nat)
      returns (o: Outcome, ghost req: Request)
      requires Valid()
      modifies this, resolved
      ensures Valid() && Stable() && resolved.indexed == old(resolved.indexed)
      ensures holder.value.Ref? ==>
        req == Request(holder.value.beanName, old(Snapshot()), Snapshot(), req.result)
        && GotBean(world, old(Snapshot()), Snapshot(), holder.value.beanName, req.result)
      ensures o.Fail? ==>
        resolved.generic == old(resolved.generic) && RefersTo(holder.value, req.name) && FailedRequest(world, req, o.error)
      ensures o.Pass? ==>
        exists v :: Resolves(holder.value, v) && resolved.generic == old(resolved.generic) + [ValueHolder(v, holder.typeName)]
      ensures o.Pass? && holder.value.Ref? ==>
        req.result.Ok? && resolved.generic == old(resolved.generic) + [ValueHolder(Instance(req.result.value), holder.typeName)]
      decreases fuel, 2, 0
    {
      var v;
      v, req := ResolveValue(name, holder.value, fuel);
      if v.Err? {
        return Fail(v.error), req;
      }
      resolved.AddGenericArgumentValue(v.value, holder.typeName);
      o := Pass;
    }
    /**
     * The constructor loop of `autowireConstructor`: `attempts[k]` is what trying `ctors[k]`
     * gave — a BeansException when it has fewer than `n` parameters, otherwise its arguments
     * slot by slot. A BeansException skips the constructor, unless it is the last and none
     * fitted; any other exception ends the loop; the last constructor that fitted is chosen.
     */
    method SelectConstructor(ctors: seq<seq<Class>>, n: nat, resolved: ConstructorArgumentValues, fuel: nat)
      returns (r: Result<(seq<Class>, seq<Value>)>, ghost attempts: seq<Result<seq<Value>>>, ghost chosen: nat,
               ghost slotsOf: seq<seq<Slot>>)
      requires Valid()
      modifies this
      ensures Valid() && Stable()
      ensures |attempts| <= |ctors| && |slotsOf| == |attempts|
      ensures forall k :: 0 <= k < |attempts| && |ctors[k]| < n ==> attempts[k] == Err(BeansException)
      ensures forall k :: 0 <= k < |attempts| && |ctors[k]| >= n ==>
        SlotsFor(world, ctors[k], k, resolved.Contents(), slotsOf[k], attempts[k])
        && (attempts[k].Ok? ==> |slotsOf[k]| == |ctors[k]|)
      ensures forall k :: 0 <= k < |attempts| - 1 ==> attempts[k].Ok? || attempts[k].error == BeansException
      ensures r.Ok? ==> (|attempts| == |ctors| && chosen < |ctors| && attempts[chosen].Ok?
        && r.value == (ctors[chosen], attempts[chosen].value)
        && forall k :: chosen < k < |ctors| ==> attempts[k].Err?)
      ensures r.Err? && r.error != BeansException ==> attempts != [] && attempts[|attempts| - 1] == Err(r.error)
      ensures r.Err? && r.error == BeansException ==> |attempts| == |ctors| && forall k :: 0 <= k < |attempts| ==> attempts[k].Err?
      ensures r.Ok? || r.error == BeansException ==>
        forall k :: 0 <= k < |attempts| ==> attempts[k].Ok? || attempts[k].error == BeansException
      decreases fuel, 3
    {
      var selected: Option<(seq<Class>, seq<Value>)> := None;
      attempts, slotsOf := [], [];
      chosen := 0;
      for i := 0 to |ctors|
        invariant Valid() && Stable() && |attempts| == i
        invariant TriedSoFar(world, ctors, n, resolved.Contents(), attempts, slotsOf)
        invariant forall k :: 0 <= k < i ==> attempts[k].Ok? || attempts[k].error == BeansException
        invariant selected.None? ==> forall k :: 0 <= k < i ==> attempts[k].Err?
        invariant selected.Some? ==> (chosen < i && attempts[chosen].Ok?
          && selected.value == (ctors[chosen], attempts[chosen].value)
          && forall k :: chosen < k < i ==> attempts[k].Err?)
      {
        ghost var before := Snapshot();
        var attempt;
        ghost var slots;
        attempt, slots := TryConstructor(ctors[i], i, n, resolved, fuel);
        GrewTrans(old(Snapshot()), before, Snapshot());
        TriedStep(world, ctors, n, resolved.Contents(), attempts, slotsOf, attempt, slots);
        attempts, slotsOf := attempts + [attempt], slotsOf + [slots];
        if attempt.Ok? {
          selected := Some((ctors[i], attempt.value));
          chosen := i;
        } else if attempt.error == BeansException {
          if i == |ctors| - 1 && selected.None? {
            return Err(BeansException), attempts, chosen, slotsOf;
          }
        } else {
          return Err(attempt.error), attempts, chosen, slotsOf;
        }
      }
      if selected.None? {
        return Err(BeansException), attempts, chosen, slotsOf;
      }
      return Ok(selected.value), attempts, chosen, slotsOf;
    }

    /**
     * One pass of the constructor loop, over the constructor at position `i`: too few
     * parameters is a BeansException, otherwise its arguments are sought slot by slot.
     */
    method TryConstructor(params: seq<Class>, i: nat, n: nat, resolved: ConstructorArgumentValues, fuel: nat)
      returns (attempt: Result<seq<Value>>, ghost slots: seq<Slot>)
      requires Valid()
      modifies this
      ensures Valid() && Stable()
      ensures |params| < n ==> attempt == Err(BeansException) && slots == []
      ensures |params| >= n ==>
        (SlotsFor(world, params, i, resolved.Contents(), slots, attempt) && (attempt.Ok? ==> |slots| == |params|))
      decreases fuel, 3, 0
    {
      if |params| < n {
        return Err(BeansException), [];
      }
      attempt, slots := ArgumentsFor(params, i, resolved, fuel);
    }

    /**
     * The arguments for one constructor, slot by slot, `slots[j]` saying how slot `j` was
     * filled: a held argument that fits the slot, converted (to the type of the parameter at
     * the constructor's position `ctorIndex`, as written), or else the single bean of the
     * slot's type; several or no such beans are an IllegalStateException. The first slot
     * that fails ends the attempt.
     */
    method ArgumentsFor(params: seq<Class>, ctorIndex: nat, resolved: ConstructorArgumentValues, fuel: nat)
      returns (r: Result<seq<Value>>, ghost slots: seq<Slot>)
      requires Valid()
      modifies this
      ensures Valid() && Stable()
      ensures |slots| <= |params| && (r.Ok? ==> |slots| == |params| && |r.value| == |params|)
      ensures forall j :: 0 <= j < |slots| ==>
        (slots[j].Held? <==> HasHolder(world.table, resolved.Contents(), j, params[j]))
        && (slots[j].Held? ==> FoundHolder(world.table, resolved.Contents(), j, params[j], slots[j].holder))
      ensures r.Ok? ==> forall j :: 0 <= j < |params| ==> SlotFilled(world, params, ctorIndex, slots[j], r.value[j])
      ensures r.Err? ==> slots != [] && SlotFailed(world, params, ctorIndex, slots[|slots| - 1], r.error)
      ensures SlotsFor(world, params, ctorIndex, resolved.Contents(), slots, r)
      decreases fuel, 2
    {
      r, slots := Ok([]), [];
      var j := 0;
      while j < |params| && r.Ok?
        invariant Valid() && Stable() && j <= |params| && |slots| == j
        invariant SlotsFor(world, params, ctorIndex, resolved.Contents(), slots, r)
      {
        ghost var before := Snapshot();
        var arg;
        ghost var slot;
        arg, slot := ArgumentFor(params, j, ctorIndex, resolved, fuel);
        GrewTrans(old(Snapshot()), before, Snapshot());
        SlotsStep(world, params, ctorIndex, resolved.Contents(), slots, r, slot, arg);
        slots := slots + [slot];
        r := if arg.Err? then Err(arg.error) else Ok(r.value + [arg.value]);
        j := j + 1;
      }
    }

    /**
     * The argument for slot `j` of a constructor: the held argument that fits it, converted to
     * the type of the parameter at `ctorIndex`, or else the single bean of the slot's type.
     */
    method ArgumentFor(params: seq<Class>, j: nat, ctorIndex: nat, resolved: ConstructorArgumentValues, fuel: nat)
      returns (r: Result<Value>, ghost slot: Slot)
      requires Valid() && j < |params|
      modifies this
      ensures Valid() && Stable()
      ensures slot.Held? <==> HasHolder(world.table, resolved.Contents(), j, params[j])
      ensures slot.Held? ==> FoundHolder(world.table, resolved.Contents(), j, params[j], slot.holder)
      ensures r.Ok? ==> SlotFilled(world, params, ctorIndex, slot, r.value)
      ensures r.Err? ==> SlotFailed(world, params, ctorIndex, slot, r.error)
      decreases fuel, 1, 4
    {
      var holder := resolved.GetArgumentValue(world.table, j, params[j]);
      if holder.Some? {
        slot := Held(holder.value);
        if ctorIndex >= |params| {
          return Err(IndexOutOfBoundsException), slot;
        }
        r := world.convert(holder.value.value, params[ctorIndex]);
      } else {
        var matching;
        ghost var failedLookup;
        matching, failedLookup := GetBeansOfType(params[j], true, true, fuel);
        slot := Looked(matching);
        if matching.Err? {
          return Err(matching.error), slot;
        }
        if |matching.value| != 1 {
          return Err(IllegalStateException), slot;
        }
        assert matching.value.Keys != {};
        ghost var some := SomeElement(matching.value.Keys);
        var k :| k in matching.value;
        r := Ok(Instance(matching.value[k]));
      }
    }

    // ---- Populating properties -----------------------------------------------------------

    /**
     * `populateBean`: with autowiring by name or by type, a copy of the declared values is
     * completed by autowiring and then applied; otherwise the declared values are applied.
     * A singleton is populated while its instance is already cached under its name, so a
     * reference back to it resolves to that instance (`EarlyReference`).
     */
    method PopulateBean(name: string, bd: BeanDefinition, bean: Obj, fuel: nat)
      returns (o: Outcome, ghost applied: seq<PropertyValue>, ghost failed: Request, ghost found: seq<Result<map<string, Obj>>>)
      requires Valid()
      requires bd.singleton ==> name in singletons && singletons[name] == bean
      modifies this
      ensures Valid() && Stable()
      ensures Populated(world, bd, bean, old(Snapshot()), Snapshot(), Population(o, applied, failed, found))
      decreases fuel, 3, 1
    {
      var mode := GetResolvedAutowireMode(bd, world.table);
      if mode == AUTOWIRE_BY_NAME || mode == AUTOWIRE_BY_TYPE {
        o, applied, failed, found := PopulateAutowired(name, bd, bean, fuel);
      } else {
        applied, found := [], [];
        o, failed := ApplyPropertyValues(name, bean, bd.propertyValues, fuel);
      }
    }

    /** `populateBean` with autowiring: a copy of the declared values completed, then applied. */
    method PopulateAutowired(name: string, bd: BeanDefinition, bean: Obj, fuel: nat)
      returns (o: Outcome, ghost applied: seq<PropertyValue>, ghost failed: Request, ghost found: seq<Result<map<string, Obj>>>)
      requires Valid()
      requires ResolvedAutowireMode(bd, world.table) == AUTOWIRE_BY_NAME || ResolvedAutowireMode(bd, world.table) == AUTOWIRE_BY_TYPE
      modifies this
      ensures Valid() && Stable()
      ensures Populated(world, bd, bean, old(Snapshot()), Snapshot(), Population(o, applied, failed, found))
      decreases fuel, 3, 0
    {
      var mpvs := new MutablePropertyValues.Copy(bd.propertyValues);
      o, failed, found := Autowire(name, bd, bean, mpvs, fuel);
      if o.Fail? {
        return o, [], failed, found;
      }
      applied := mpvs.values;
      ghost var beforeCall := Snapshot();
      o, failed := ApplyPropertyValues(name, bean, Some(mpvs.values), fuel);
      GrewTrans(old(Snapshot()), beforeCall, Snapshot());
    }

    /**
     * The autowiring step of `populateBean`: the copy `mpvs` of the declared values gains a
     * bean for unsatisfied properties, by name or by type.
     */
    method Autowire(name: string, bd: BeanDefinition, bean: Obj, mpvs: MutablePropertyValues, fuel: nat)
      returns (o: Outcome, ghost failed: Request, ghost found: seq<Result<map<string, Obj>>>)
      requires Valid()
      requires ResolvedAutowireMode(bd, world.table) == AUTOWIRE_BY_NAME || ResolvedAutowireMode(bd, world.table) == AUTOWIRE_BY_TYPE
      modifies this, mpvs
      ensures Valid() && Stable()
      ensures o.Pass? ==> forall n :: Lookup(mpvs.values, n) != Lookup(old(mpvs.values), n) ==>
        IsUnsatisfied(world.table, bd, bean, n) && FilledWithBean(mpvs.values, n)
      ensures ResolvedAutowireMode(bd, world.table) == AUTOWIRE_BY_NAME && o.Pass? ==>
        forall n :: IsUnsatisfied(world.table, bd, bean, n) && Known(old(Snapshot()), n) ==> FilledWithBean(mpvs.values, n)
      ensures o.Fail? ==> PopulationFailed(world, bd, bean, old(log), log, [], failed, found, o.error)
      decreases fuel, 2, 1
    {
      failed, found := Request("", old(Snapshot()), old(Snapshot()), Err(BeansException)), [];
      if ResolvedAutowireMode(bd, world.table) == AUTOWIRE_BY_NAME {
        o, failed := AutowireByName(bd, bean, mpvs, fuel);
      } else {
        ghost var props;
        o, props, found := AutowireByType(name, bd, bean, mpvs, fuel);
      }
    }

    /**
     * `unsatisfiedObjectProperties`: the names, sorted, of the bean's writable non-simple
     * properties that the definition gives no value; a definition without a property list
     * fails on the first such property.
     */
    method UnsatisfiedObjectProperties(bd: BeanDefinition, bean: Obj) returns (r: Result<seq<string>>)
      ensures r.Err? <==> MissingValues(world.table, bd, bean)
      ensures r.Err? ==> r.error == NullPointerException
      ensures r.Ok? ==> Ascending(r.value)
      ensures r.Ok? ==> forall n :: n in r.value <==> IsUnsatisfied(world.table, bd, bean, n)
    {
      var props := Info(world.table, bean.cls).properties;
      var result: seq<string> := [];
      for i := 0 to |props|
        invariant Ascending(result)
        invariant bd.propertyValues.None? ==> forall k :: 0 <= k < i ==> !AutowireCandidate(props[k])
        invariant bd.propertyValues.None? ==> result == []
        invariant bd.propertyValues.Some? ==> forall n :: n in result <==> exists k :: (0 <= k < i && props[k].name == n
          && AutowireCandidate(props[k]) && Lookup(bd.propertyValues.value, n).None?)
      {
        var p := props[i];
        var simple := IsSimpleProperty(Some(p.ptype));
        if p.writable && simple == Ok(false) {
          if bd.propertyValues.None? {
            return Err(NullPointerException);
          }
          if Lookup(bd.propertyValues.value, p.name).None? {
            result := Insert(result, p.name);
          }
        }
      }
      return Ok(result);
    }

    /** `autowireByName`: each unsatisfied property named like a known bean is given that bean. */
    method AutowireByName(bd: BeanDefinition, bean: Obj, mpvs: MutablePropertyValues, fuel: nat)
      returns (o: Outcome, ghost failed: Request)
      requires Valid()
      modifies this, mpvs
      ensures Valid() && Stable()
      ensures o.Fail? ==>
        (o == Fail(NullPointerException) && MissingValues(world.table, bd, bean))
        || (IsUnsatisfied(world.table, bd, bean, failed.name) && FailedRequest(world, failed, o.error))
      ensures o.Pass? ==> forall n :: (IsUnsatisfied(world.table, bd, bean, n)
        && (Stripped(n) in old(singletons) || Stripped(n) in definitions)) ==> FilledWithBean(mpvs.values, n)
      ensures o.Pass? ==> forall n :: Lookup(mpvs.values, n) != Lookup(old(mpvs.values), n) ==>
        IsUnsatisfied(world.table, bd, bean, n) && FilledWithBean(mpvs.values, n)
      decreases fuel, 2, 0
    {
      failed := Request("", old(Snapshot()), old(Snapshot()), Err(BeansException));
      var names := UnsatisfiedObjectProperties(bd, bean);
      if names.Err? {
        return Fail(names.error), failed;
      }
      o, failed := AutowireNames(names.value, mpvs, fuel);
    }

    /** The loop of `autowireByName`: each of `props` that names a known bean is given that bean. */
    method AutowireNames(props: seq<string>, mpvs: MutablePropertyValues, fuel: nat)
      returns (o: Outcome, ghost failed: Request)
      requires Valid()
      modifies this, mpvs
      ensures Valid() && Stable()
      ensures o.Fail? ==> failed.name in props && FailedRequest(world, failed, o.error)
      ensures o.Pass? ==> forall n :: n in props && (Stripped(n) in old(singletons) || Stripped(n) in definitions) ==>
        FilledWithBean(mpvs.values, n)
      ensures o.Pass? ==> forall n :: Lookup(mpvs.values, n) != Lookup(old(mpvs.values), n) ==>
        n in props && FilledWithBean(mpvs.values, n)
      decreases fuel, 1, 1
    {
      failed := Request("", old(Snapshot()), old(Snapshot()), Err(BeansException));
      for i := 0 to |props|
        invariant Valid() && Stable()
        invariant forall n :: n in props[..i] && (Stripped(n) in old(singletons) || Stripped(n) in definitions) ==>
          FilledWithBean(mpvs.values, n)
        invariant forall n :: Lookup(mpvs.values, n) != Lookup(old(mpvs.values), n) ==>
          n in props[..i] && FilledWithBean(mpvs.values, n)
      {
        var n := props[i];
        assert props[..i + 1] == props[..i] + [n];
        ghost var before := Snapshot();
        o, failed := AutowireProperty(n, mpvs, fuel);
        GrewTrans(old(Snapshot()), before, Snapshot());
        if o.Fail? {
          return;
        }
      }
      assert props[..|props|] == props;
      return Pass, failed;
    }

    /**
     * One step of `autowireByName`: when `containsBean(n)`, the property `n` is given what
     * `getBean(n)` answers, recorded as the request `req`; otherwise nothing happens.
     */
    method AutowireProperty(n: string, mpvs: MutablePropertyValues, fuel: nat) returns (o: Outcome, ghost req: Request)
      requires Valid()
      modifies this, mpvs
      ensures Valid() && Stable()
      ensures !Known(old(Snapshot()), n) ==> o == Pass && mpvs.values == old(mpvs.values) && Snapshot() == old(Snapshot())
      ensures Known(old(Snapshot()), n) ==>
        Answered(world, req) && req == Request(n, old(Snapshot()), Snapshot(), req.result) && StopsAtFailure([req], o)
        && GotBean(world, old(Snapshot()), Snapshot(), n, req.result)
      ensures o.Pass? && Known(old(Snapshot()), n) ==> Lookup(mpvs.values, n) == Some(PropertyValue(n, Instance(req.result.value)))
      ensures o.Pass? ==> forall m :: m != n ==> Lookup(mpvs.values, m) == Lookup(old(mpvs.values), m)
      decreases fuel, 1, 0
    {
      req := Request(n, old(Snapshot()), old(Snapshot()), Err(BeansException));
      var known := ContainsBean(n);
      if known {
        var b;
        ghost var creation;
        b, creation := GetBean(n, fuel);
        req := Request(n, old(Snapshot()), Snapshot(), b);
        if b.Err? {
          return Fail(b.error), req;
        }
        var pv := PropertyValue(n, Instance(b.value));
        LookupAfterAdd(mpvs.values, pv);
        LookupOthersAfterAdd(mpvs.values, pv);
        mpvs.AddPropertyValue(pv);
      }
      return Pass, req;
    }

    /**
     * `autowireByType`: the unsatisfied properties `props`, in ascending order, are each
     * looked up by type, `found[k]` being what the lookup for `props[k]` answered: exactly
     * one bean is injected, none leaves the property alone, and several stop autowiring
     * with a BeansException, as does a lookup that fails.
     */
    method AutowireByType(name: string, bd: BeanDefinition, bean: Obj, mpvs: MutablePropertyValues, fuel: nat)
      returns (o: Outcome, ghost props: seq<string>, ghost found: seq<Result<map<string, Obj>>>)
      requires Valid()
      modifies this, mpvs
      ensures Valid() && Stable()
      ensures forall n :: n in props <==> IsUnsatisfied(world.table, bd, bean, n)
      ensures |found| <= |props| && (o.Pass? ==> |found| == |props|)
      ensures forall k :: 0 <= k < |found| - 1 ==> found[k].Ok? && |found[k].value| <= 1
      ensures o.Pass? ==> forall k :: 0 <= k < |found| ==> found[k].Ok? && |found[k].value| <= 1
      ensures o.Fail? && found == [] ==> o == Fail(NullPointerException) && MissingValues(world.table, bd, bean)
      ensures o.Fail? && found != [] ==> var last := found[|found| - 1];
        if last.Err? then o == Fail(last.error) else |last.value| > 1 && o == Fail(BeansException)
      ensures o.Pass? ==> forall k :: 0 <= k < |found| && |found[k].value| == 1 ==> FilledFrom(mpvs.values, props[k], found[k].value)
      ensures o.Pass? ==> forall k :: 0 <= k < |found| && |found[k].value| == 0 ==>
        Lookup(mpvs.values, props[k]) == Lookup(old(mpvs.values), props[k])
      ensures o.Pass? ==> forall n :: Lookup(mpvs.values, n) != Lookup(old(mpvs.values), n) ==>
        IsUnsatisfied(world.table, bd, bean, n) && FilledWithBean(mpvs.values, n)
      decreases fuel, 2, 0
    {
      var names := UnsatisfiedObjectProperties(bd, bean);
      if names.Err? {
        return Fail(names.error), [], [];
      }
      var unsatisfied := names.value;
      props := unsatisfied;
      var descriptors := Info(world.table, bean.cls).properties;
      UnsatisfiedAreProperties(world.table, bd, bean, unsatisfied);
      AscendingDistinct(unsatisfied);
      o, found := AutowireTypes(unsatisfied, descriptors, mpvs, fuel);
    }

    /** The loop of `autowireByType` over distinct property names, each a property of the bean. */
    method AutowireTypes(props: seq<string>, descriptors: seq<Property>, mpvs: MutablePropertyValues, fuel: nat)
      returns (o: Outcome, ghost found: seq<Result<map<string, Obj>>>)
      requires Valid()
      requires forall i, j :: 0 <= i < j < |props| ==> props[i] != props[j]
      requires forall i :: 0 <= i < |props| ==> HasProperty(descriptors, props[i])
      modifies this, mpvs
      ensures Valid() && Stable()
      ensures |found| <= |props| && (o.Pass? ==> |found| == |props|) && (o.Fail? ==> found != [])
      ensures forall k :: 0 <= k < |found| - 1 ==> found[k].Ok? && |found[k].value| <= 1
      ensures o.Pass? ==> forall k :: 0 <= k < |found| ==> found[k].Ok? && |found[k].value| <= 1
      ensures o.Fail? && found != [] ==> var last := found[|found| - 1];
        if last.Err? then o == Fail(last.error) else |last.value| > 1 && o == Fail(BeansException)
      ensures o.Pass? ==> forall k :: 0 <= k < |found| && |found[k].value| == 1 ==> FilledFrom(mpvs.values, props[k], found[k].value)
      ensures o.Pass? ==> forall k :: 0 <= k < |found| && |found[k].value| == 0 ==>
        Lookup(mpvs.values, props[k]) == Lookup(old(mpvs.values), props[k])
      ensures o.Pass? ==> forall n :: Lookup(mpvs.values, n) != Lookup(old(mpvs.values), n) ==>
        n in props && FilledWithBean(mpvs.values, n)
      decreases fuel, 1, 3
    {
      found := [];
      for i := 0 to |props|
        invariant Valid() && Stable()
        invariant TypedSoFar(props, found, old(mpvs.values), mpvs.values, i)
      {
        var n := props[i];
        var requiredType := PropertyType(descriptors, n);
        ghost var beforeCall := Snapshot();
        ghost var mid := mpvs.values;
        ghost var matches;
        o, matches := AutowireTypedProperty(n, requiredType, mpvs, fuel);
        GrewTrans(old(Snapshot()), beforeCall, Snapshot());
        if o.Fail? {
          found := found + [matches];
          return;
        }
        TypedStep(props, found, old(mpvs.values), mid, mpvs.values, i, matches);
        found := found + [matches];
      }
      return Pass, found;
    }

    /**
     * One step of `autowireByType`: the beans of the property's type, `found`, as
     * `getBeansOfType(requiredType, true, true)` answers; exactly one is injected under `n`,
     * several are a BeansException, none leaves the values as they were.
     */
    method AutowireTypedProperty(n: string, requiredType: Class, mpvs: MutablePropertyValues, fuel: nat)
      returns (o: Outcome, ghost found: Result<map<string, Obj>>)
      requires Valid()
      modifies this, mpvs
      ensures Valid() && Stable()
      ensures found.Ok? ==> OfType(world, old(Snapshot()), Snapshot(), requiredType, true, found.value)
      ensures found.Err? ==> o == Fail(found.error) && mpvs.values == old(mpvs.values)
      ensures found.Ok? && |found.value| == 0 ==> o == Pass && mpvs.values == old(mpvs.values)
      ensures found.Ok? && |found.value| == 1 ==> o == Pass && FilledFrom(mpvs.values, n, found.value)
      ensures found.Ok? && |found.value| > 1 ==> o == Fail(BeansException) && mpvs.values == old(mpvs.values)
      ensures forall m :: m != n ==> Lookup(mpvs.values, m) == Lookup(old(mpvs.values), m)
      decreases fuel, 1, 2
    {
      var matching;
      ghost var failedLookup;
      matching, failedLookup := GetBeansOfType(requiredType, true, true, fuel);
      found := matching;
      if matching.Err? {
        return Fail(matching.error), found;
      }
      if |matching.value| == 1 {
        assert matching.value.Keys != {};
        ghost var some := SomeElement(matching.value.Keys);
        var k :| k in matching.value;
        var pv := PropertyValue(n, Instance(matching.value[k]));
        LookupAfterAdd(mpvs.values, pv);
        LookupOthersAfterAdd(mpvs.values, pv);
        mpvs.AddPropertyValue(pv);
        return Pass, found;
      } else if |matching.value| > 1 {
        return Fail(BeansException), found;
      }
      return Pass, found;
    }

    /**
     * `applyPropertyValues`: nothing for a null list; otherwise a copy whose values are
     * resolved one by one, then handed to the bean's setters in order until one throws.
     */
    method ApplyPropertyValues(name: string, bean: Obj, pvs: Option<seq<PropertyValue>>, fuel: nat)
      returns (o: Outcome, ghost failed: Request)
      requires Valid()
      modifies this
      ensures Valid() && Stable()
      ensures pvs.None? ==> o == Pass && unchanged(this)
      ensures o.Pass? && pvs.Some? ==> EndsWithSetters(log, bean, AddAll([], pvs.value))
      ensures o.Fail? ==>
        pvs.Some? && ((RefersToIn(AddAll([], pvs.value), failed.name) && FailedRequest(world, failed, o.error))
                      || SetterFailed(world, bean, old(log), log, o.error))
      decreases fuel, 2, 1
    {
      failed := Request(name, old(Snapshot()), old(Snapshot()), Err(BeansException));
      if pvs.None? {
        return Pass, failed;
      }
      var deepCopy := new MutablePropertyValues.Copy(pvs);
      var entries := deepCopy.GetPropertyValues();
      ghost var beforeResolving := Snapshot();
      o, failed := ResolveEntries(name, entries, deepCopy, fuel);
      GrewTrans(old(Snapshot()), beforeResolving, Snapshot());
      if o.Fail? {
        return o, failed;
      }
      ghost var beforeSetting := Snapshot();
      o := SetResolved(bean, entries, deepCopy.values);
      GrewTrans(old(Snapshot()), beforeSetting, Snapshot());
    }

    /**
     * The end of `applyPropertyValues`: the resolved list handed to the bean's property
     * accessor, each attempted setter call logged, the first that throws ending it.
     */
    method SetResolved(bean: Obj, entries: seq<PropertyValue>, resolved: seq<PropertyValue>) returns (o: Outcome)
      requires Valid() && |resolved| == |entries|
      requires forall j :: 0 <= j < |entries| ==>
        resolved[j].name == entries[j].name && Resolves(entries[j].value, resolved[j].value)
      modifies this`log
      ensures Valid() && Stable()
      ensures o.Pass? ==> EndsWithSetters(log, bean, entries)
      ensures o.Fail? ==> SetterFailed(world, bean, old(log), log, o.error)
    {
      var w := world;
      var setter := (n: string, v: Value) => w.outcome(SetProperty(bean, n, v));
      var attempted;
      attempted, o := PropertyAccessor.SetAllPropertyValues(resolved, setter);
      ghost var resolvedState := Snapshot();
      log := log + SetterCalls(bean, attempted);
      CallsGrew(resolvedState, SetterCalls(bean, attempted));
      if o.Pass? {
        SettersAtEnd(resolvedState.log, bean, entries, attempted);
      } else {
        assert log[|log| - 1] == SetProperty(bean, attempted[|attempted| - 1].name, attempted[|attempted| - 1].value);
      }
    }

    /**
     * The loop of `applyPropertyValues` over the copied list: each value resolved and put
     * back at its index under its name, until a bean one of them names cannot be got.
     */
    method ResolveEntries(name: string, entries: seq<PropertyValue>, deepCopy: MutablePropertyValues, fuel: nat)
      returns (o: Outcome, ghost failed: Request)
      requires Valid() && deepCopy.values == entries
      modifies this, deepCopy
      ensures Valid() && Stable()
      ensures |deepCopy.values| == |entries|
      ensures forall j :: 0 <= j < |entries| ==> deepCopy.values[j].name == entries[j].name
      ensures o.Pass? ==> forall j :: 0 <= j < |entries| ==> Resolves(entries[j].value, deepCopy.values[j].value)
      ensures o.Fail? ==> RefersToIn(entries, failed.name) && FailedRequest(world, failed, o.error)
      decreases fuel, 2, 0
    {
      failed := Request(name, old(Snapshot()), old(Snapshot()), Err(BeansException));
      for i := 0 to |entries|
        invariant Valid() && Stable()
        invariant |deepCopy.values| == |entries|
        invariant forall j :: 0 <= j < |entries| ==> deepCopy.values[j].name == entries[j].name
        invariant forall j :: 0 <= j < i ==> Resolves(entries[j].value, deepCopy.values[j].value)
      {
        ghost var beforeCall := Snapshot();
        var v;
        ghost var req;
        v, req := ResolveValue(name, entries[i].value, fuel);
        GrewTrans(old(Snapshot()), beforeCall, Snapshot());
        if v.Err? {
          return Fail(v.error), req;
        }
        var _ := deepCopy.SetPropertyValueAtIndex(i, PropertyValue(entries[i].name, v.value));
      }
      o := Pass;
    }

    /**
     * `resolveValueIfNecessary`: a bean reference becomes the bean (a BeansException while
     * getting it is rethrown as a new one, which the model does not tell apart), a managed
     * list a new list of resolved elements, anything else itself.
     */
    method ResolveValue(name: string, v: Value, fuel: nat) returns (r: Result<Value>, ghost req: Request)
      requires Valid()
      modifies this
      ensures Valid() && Stable()
      ensures r.Ok? ==> Resolves(v, r.value)
      ensures v.Ref? ==> (Answered(world, req) && req == Request(v.beanName, old(Snapshot()), Snapshot(), req.result)
        && GotBean(world, old(Snapshot()), Snapshot(), v.beanName, req.result)
        && r == match req.result case Ok(b) => Ok(Instance(b)) case Err(e) => Err(e))
      ensures r.Err? ==> RefersTo(v, req.name) && FailedRequest(world, req, r.error)
      ensures v.Ref? && Stripped(v.beanName) in old(singletons) ==>
        r == match SharedResult(world, v.beanName, old(singletons)[Stripped(v.beanName)])
             case Ok(b) => Ok(Instance(b)) case Err(e) => Err(e)
      ensures !v.Ref? && !v.Managed? ==> r == Ok(v) && unchanged(this)
      decreases fuel, 1, v
    {
      req := Request(name, old(Snapshot()), old(Snapshot()), Err(BeansException));
      match v {
        case Ref(beanName) =>
          var b;
          ghost var creation;
          b, creation := GetBean(beanName, fuel);
          req := Request(beanName, old(Snapshot()), Snapshot(), b);
          if b.Err? {
            return Err(b.error), req;
          }
          return Ok(Instance(b.value)), req;
        case Managed(items) =>
          ghost var beforeCall := Snapshot();
          var l;
          l, req := ResolveManagedList(name, items, fuel);
          GrewTrans(old(Snapshot()), beforeCall, Snapshot());
          if l.Err? {
            return Err(l.error), req;
          }
          return Ok(JList(l.value)), req;
        case _ =>
          return Ok(v), req;
      }
    }

    /** `resolveManagedList`: the elements resolved in order into a new list. */
    method ResolveManagedList(name: string, items: seq<Value>, fuel: nat) returns (r: Result<seq<Value>>, ghost failed: Request)
      requires Valid()
      modifies this
      ensures Valid() && Stable()
      ensures r.Ok? ==> |r.value| == |items| && forall i :: 0 <= i < |items| ==> Resolves(items[i], r.value[i])
      ensures r.Err? ==> (exists i :: 0 <= i < |items| && RefersTo(items[i], failed.name)) && FailedRequest(world, failed, r.error)
      decreases fuel, 1, items
    {
      failed := Request(name, old(Snapshot()), old(Snapshot()), Err(BeansException));
      var resolved: seq<Value> := [];
      for i := 0 to |items|
        invariant Valid() && Stable()
        invariant |resolved| == i
        invariant forall j :: 0 <= j < i ==> Resolves(items[j], resolved[j])
      {
        ghost var beforeCall := Snapshot();
        var v;
        ghost var req;
        v, req := ResolveValue(name, items[i], fuel);
        GrewTrans(old(Snapshot()), beforeCall, Snapshot());
        if v.Err? {
          return Err(v.error), req;
        }
        resolved := resolved + [v.value];
      }
      return Ok(resolved), failed;
    }

    // ---- Beans by type -------------------------------------------------------------------

    /**
     * `getBeansOfType`: the defined beans of the type (prototypes only when asked), then the
     * cached objects of the type, then, when asked, the products of factory beans whose
     * product type fits; a factory bean that fails with a BeansException is skipped.
     */
    method GetBeansOfType(t: Class, includePrototypes: bool, includeFactoryBeans: bool, fuel: nat)
      returns (r: Result<map<string, Obj>>, ghost failed: Request)
      requires Valid()
      modifies this
      ensures Valid() && Stable()
      ensures r.Ok? ==> OfType(world, old(Snapshot()), Snapshot(), t, includePrototypes, r.value)
      ensures r.Err? ==>
        (FailedRequest(world, failed, r.error)
         && (failed.name in NamesOfType(world.table, definitionNames, definitions, Some(t))
             || (failed.name in singletons && IsAssignableFrom(world.table, t, singletons[failed.name].cls))))
        || (includeFactoryBeans && r.error != BeansException && (r.error == ClassCastException || FailedRequest(world, failed, r.error)))
      decreases fuel, 1, 1
    {
      var beanNames := GetBeanDefinitionNames(Some(t));
      ghost var start := Snapshot();
      var defined;
      defined, failed := DefinedBeansOfType(beanNames, includePrototypes, map[], fuel);
      if defined.Err? {
        return Err(defined.error), failed;
      }
      ghost var afterDefined := Snapshot();
      var singletonNames := GetSingletonNames(Some(t));
      var cached;
      cached, failed := CachedBeans(singletonNames, defined.value, fuel);
      GrewTrans(start, afterDefined, Snapshot());
      if cached.Err? {
        return Err(cached.error), failed;
      }
      r := Ok(cached.value);
      if includeFactoryBeans {
        ghost var afterCached := Snapshot();
        var factoryNames := GetBeanDefinitionNames(Some(Interface(FactoryBean)));
        ghost var visits;
        r, visits := FactoryProducts(factoryNames, t, includePrototypes, cached.value, fuel);
        GrewTrans(start, afterCached, Snapshot());
        forall n | n in factoryNames
          ensures n in definitions && Implements(world.table, definitions[n].beanClass, FactoryBean)
        {
          ImplementsIsAssignable(world.table, definitions[n].beanClass, FactoryBean);
        }
        if r.Err? {
          var v := visits[|visits| - 1];
          failed := if v.factory.result.Err? || v.product.None? then v.factory else v.product.value;
        }
      }
    }

    /**
     * The first part of `getBeansOfType`: the beans of `beanNames`, prototypes only when
     * asked; `isSingleton` of a name it cannot find fails as `getBean` would.
     */
    method DefinedBeansOfType(beanNames: seq<string>, includePrototypes: bool, acc: map<string, Obj>, fuel: nat)
      returns (r: Result<map<string, Obj>>, ghost failed: Request)
      requires Valid()
      modifies this
      ensures Valid() && Stable()
      ensures r.Ok? ==> acc.Keys <= r.value.Keys
      ensures r.Ok? ==> forall n :: (n in beanNames && !IsFactoryDereference(n)
        && (includePrototypes || DefinesSingleton(n))) ==> n in r.value
      ensures r.Ok? && !includePrototypes ==> forall n :: n in r.value ==>
        n in acc || n in singletons || Stripped(n) in singletons
      ensures r.Err? ==> failed.name in beanNames && FailedRequest(world, failed, r.error)
      decreases fuel, 1, 0
    {
      var result := acc;
      failed := Request("", old(Snapshot()), old(Snapshot()), Err(BeansException));
      for i := 0 to |beanNames|
        invariant Valid() && Stable()
        invariant acc.Keys <= result.Keys
        invariant forall n :: (n in beanNames[..i] && !IsFactoryDereference(n)
          && (includePrototypes || DefinesSingleton(n))) ==> n in result
        invariant !includePrototypes ==> forall n :: n in result ==>
          n in acc || n in singletons || Stripped(n) in singletons
      {
        var n := beanNames[i];
        assert beanNames[..i + 1] == beanNames[..i] + [n];
        var wanted := includePrototypes;
        if !wanted {
          var single := IsSingleton(n);
          if single.Err? {
            return Err(single.error), Request(n, Snapshot(), Snapshot(), Err(single.error));
          }
          wanted := single.value;
        }
        if wanted {
          ghost var before := Snapshot();
          var b;
          ghost var creation;
          b, creation := GetBean(n, fuel);
          GrewTrans(old(Snapshot()), before, Snapshot());
          if b.Err? {
            return Err(b.error), Request(n, before, Snapshot(), b);
          }
          result := result[n := b.value];
        }
      }
      assert beanNames[..|beanNames|] == beanNames;
      return Ok(result), failed;
    }

    /** The second part of `getBeansOfType`: the cached objects named in `names`. */
    method CachedBeans(names: set<string>, acc: map<string, Obj>, fuel: nat)
      returns (r: Result<map<string, Obj>>, ghost failed: Request)
      requires Valid()
      modifies this
      ensures Valid() && Stable()
      ensures r.Ok? ==> forall n :: n in r.value <==> n in acc || n in names
      ensures r.Err? ==> failed.name in names && FailedRequest(world, failed, r.error)
      decreases fuel, 1, 0
    {
      var result := acc;
      var rest := names;
      failed := Request("", old(Snapshot()), old(Snapshot()), Err(BeansException));
      while rest != {}
        invariant Valid() && Stable()
        invariant forall n :: n in result <==> n in acc || (n in names && n !in rest)
        invariant rest <= names
        decreases |rest|
      {
        ghost var some := SomeElement(rest);
        var n :| n in rest;
        ghost var before := Snapshot();
        var b;
        ghost var creation;
        b, creation := GetBean(n, fuel);
        GrewTrans(old(Snapshot()), before, Snapshot());
        if b.Err? {
          return Err(b.error), Request(n, before, Snapshot(), b);
        }
        result := result[n := b.value];
        rest := rest - {n};
      }
      return Ok(result), failed;
    }

    /**
     * The third part of `getBeansOfType`: every factory definition in `factoryNames` visited
     * in order, its product added under the factory's name when it is wanted and of the
     * type; a BeansException from either request skips the factory, anything else thrown
     * ends the loop.
     */
    method FactoryProducts(factoryNames: seq<string>, t: Class, includePrototypes: bool, acc: map<string, Obj>, fuel: nat)
      returns (r: Result<map<string, Obj>>, ghost visits: seq<FactoryVisit>)
      requires Valid()
      modifies this
      ensures Valid() && Stable()
      ensures |visits| <= |factoryNames|
      ensures forall i :: 0 <= i < |visits| ==> Visited(world, factoryNames[i], t, includePrototypes, visits[i])
      ensures forall i :: 0 <= i < |visits| - 1 ==> VisitPassed(world, visits[i])
      ensures r.Ok? ==> |visits| == |factoryNames| && forall i :: 0 <= i < |visits| ==> VisitPassed(world, visits[i])
      ensures r.Err? ==> visits != [] && VisitThrew(world, visits[|visits| - 1], r.error)
      ensures r.Ok? ==> acc.Keys <= r.value.Keys
      ensures r.Ok? ==> forall n :: n in r.value ==> (n in acc
        || (n in factoryNames && IsAssignableFrom(world.table, t, r.value[n].cls)))
      ensures r.Ok? ==> forall i :: 0 <= i < |visits| && ProductKept(world, t, visits[i]) ==> factoryNames[i] in r.value
      decreases fuel, 1, 0
    {
      var result := acc;
      visits := [];
      for i := 0 to |factoryNames|
        invariant Valid() && Stable() && |visits| == i
        invariant ProductsSoFar(world, factoryNames, t, includePrototypes, acc, result, visits)
      {
        ghost var before := Snapshot();
        var step;
        ghost var v;
        step, v := VisitFactory(factoryNames[i], t, includePrototypes, result, fuel);
        GrewTrans(old(Snapshot()), before, Snapshot());
        if step.Err? {
          assert forall k :: 0 <= k < i ==> (visits + [v])[k] == visits[k];
          return step, visits + [v];
        }
        ProductsStep(world, factoryNames, t, includePrototypes, acc, result, visits, v, step.value);
        visits := visits + [v];
        result := step.value;
      }
      return Ok(result), visits;
    }

    /**
     * One pass of the third loop of `getBeansOfType`: the factory got under the prefixed
     * name, then its product under the plain one when it is wanted.
     */
    method VisitFactory(factoryName: string, t: Class, includePrototypes: bool, acc: map<string, Obj>, fuel: nat)
      returns (r: Result<map<string, Obj>>, ghost v: FactoryVisit)
      requires Valid()
      modifies this
      ensures Valid() && Stable()
      ensures Visited(world, factoryName, t, includePrototypes, v)
      ensures r.Ok? <==> VisitPassed(world, v)
      ensures r.Err? ==> VisitThrew(world, v, r.error)
      ensures r.Ok? ==> acc.Keys <= r.value.Keys && forall n :: n in r.value ==>
        (n in acc && r.value[n] == acc[n]) || (n == factoryName && IsAssignableFrom(world.table, t, r.value[n].cls))
      ensures r.Ok? && ProductKept(world, t, v) ==> factoryName in r.value
      decreases fuel, 0, 6
    {
      ghost var before := Snapshot();
      var f;
      ghost var factoryRequest;
      f, factoryRequest := FetchBean(FACTORY_BEAN_PREFIX + factoryName, fuel);
      v := FactoryVisit(factoryRequest, None);
      if f.Err? {
        if f.error == BeansException {
          return Ok(acc), v;
        }
        return Err(f.error), v;
      }
      r, v := VisitProduct(factoryName, t, includePrototypes, acc, f.value, v, fuel);
      GrewTrans(before, factoryRequest.after, Snapshot());
    }

    /** The rest of one pass, once the factory `f` was got as `v` records. */
    method VisitProduct(factoryName: string, t: Class, includePrototypes: bool, acc: map<string, Obj>, f: Obj,
                        ghost v0: FactoryVisit, fuel: nat)
      returns (r: Result<map<string, Obj>>, ghost v: FactoryVisit)
      requires Valid() && v0.factory.result == Ok(f) && v0.product.None?
      requires v0.factory.name == FACTORY_BEAN_PREFIX + factoryName
      requires GotBean(world, v0.factory.before, v0.factory.after, v0.factory.name, v0.factory.result)
      modifies this
      ensures Valid() && Stable()
      ensures Visited(world, factoryName, t, includePrototypes, v)
      ensures r.Ok? <==> VisitPassed(world, v)
      ensures r.Err? ==> VisitThrew(world, v, r.error)
      ensures r.Ok? ==> acc.Keys <= r.value.Keys && forall n :: n in r.value ==>
        (n in acc && r.value[n] == acc[n]) || (n == factoryName && IsAssignableFrom(world.table, t, r.value[n].cls))
      ensures r.Ok? && ProductKept(world, t, v) ==> factoryName in r.value
      decreases fuel, 0, 5
    {
      v := v0;
      if !Implements(world.table, f.cls, FactoryBean) {
        return Err(ClassCastException), v;
      }
      if !ProductWanted(world, f, t, includePrototypes) {
        return Ok(acc), v;
      }
      ghost var product;
      r, product := AddProduct(factoryName, t, acc, fuel);
      v := v.(product := Some(product));
    }

    /** The product of a wanted factory got under the factory's name, and added to `acc` when it is of the type. */
    method AddProduct(factoryName: string, t: Class, acc: map<string, Obj>, fuel: nat)
      returns (r: Result<map<string, Obj>>, ghost req: Request)
      requires Valid()
      modifies this
      ensures Valid() && Stable()
      ensures req == Request(factoryName, old(Snapshot()), Snapshot(), req.result)
      ensures GotBean(world, req.before, req.after, factoryName, req.result)
      ensures r.Ok? <==> req.result.Ok? || req.result.error == BeansException
      ensures r.Err? ==> req.result == Err(r.error)
      ensures r.Ok? ==> acc.Keys <= r.value.Keys && forall n :: n in r.value ==>
        (n in acc && r.value[n] == acc[n]) || (n == factoryName && IsAssignableFrom(world.table, t, r.value[n].cls))
      ensures r.Ok? && req.result.Ok? && IsAssignableFrom(world.table, t, req.result.value.cls) ==> factoryName in r.value
      decreases fuel, 0, 4
    {
      var created;
      created, req := FetchBean(factoryName, fuel);
      if created.Err? {
        if created.error == BeansException {
          return Ok(acc), req;
        }
        return Err(created.error), req;
      }
      if IsAssignableFrom(world.table, t, created.value.cls) {
        return Ok(acc[factoryName := created.value]), req;
      }
      r := Ok(acc);
    }

    // ---- Whole-factory operations --------------------------------------------------------

    /**
     * `preInstantiateSingletons`: every non-lazy singleton definition, in registration
     * order, is created; for a factory bean the factory is created, and its product too
     * when the factory says the product is a singleton.
     */
    method PreInstantiateSingletons(fuel: nat) returns (o: Outcome, ghost runs: seq<seq<Request>>)
      requires Valid()
      modifies this
      ensures Valid() && Stable()
      ensures o.Pass? ==> forall n :: Eager(definitions, n) ==> n in singletons
      ensures |runs| <= |definitionNames| && (o.Pass? ==> |runs| == |definitionNames|)
      ensures forall i :: 0 <= i < |runs| ==> PreInstantiationRequests(world, definitions, definitionNames[i], runs[i])
      ensures Chain(world, old(Snapshot()), Snapshot(), Joined(runs)) && StopsAtFailure(Joined(runs), o)
    {
      var names := definitionNames;
      var i := 0;
      o, runs := Pass, [];
      while i < |names| && o.Pass?
        invariant Valid() && Stable() && i <= |names| && |runs| == i
        invariant RequestsFor(world, definitions, names[..i], runs)
        invariant o.Pass? ==> EagerCreated(Snapshot(), names[..i])
        invariant Chain(world, old(Snapshot()), Snapshot(), Joined(runs)) && StopsAtFailure(Joined(runs), o)
      {
        ghost var before := Snapshot();
        o, runs := PreInstantiateNext(names, i, old(Snapshot()), runs, fuel);
        GrewTrans(old(Snapshot()), before, Snapshot());
        i := i + 1;
      }
      RequestsForPrefix(world, definitions, names, runs);
      if o.Pass? {
        assert names[..|names|] == names;
        EagerAllCreated(Snapshot(), names);
      }
    }

    /**
     * One iteration of `preInstantiateSingletons`, over `names[i]`: its requests join the runs
     * before them, and the eager singletons among the names so far stay created.
     */
    method PreInstantiateNext(names: seq<string>, i: nat, ghost start: FactoryState, ghost runs: seq<seq<Request>>, fuel: nat)
      returns (o: Outcome, ghost runs': seq<seq<Request>>)
      requires Valid() && i < |names| && |runs| == i
      requires RequestsFor(world, definitions, names[..i], runs) && EagerCreated(Snapshot(), names[..i])
      requires Chain(world, start, Snapshot(), Joined(runs)) && StopsAtFailure(Joined(runs), Pass)
      modifies this
      ensures Valid() && Stable() && |runs'| == i + 1
      ensures RequestsFor(world, definitions, names[..i + 1], runs')
      ensures o.Pass? ==> EagerCreated(Snapshot(), names[..i + 1])
      ensures Chain(world, start, Snapshot(), Joined(runs')) && StopsAtFailure(Joined(runs'), o)
    {
      ghost var before := Snapshot();
      ghost var run;
      o, run := PreInstantiateSingleton(names[i], fuel);
      JoinedStep(world, start, before, Snapshot(), runs, run, o);
      RequestsStep(world, definitions, names, i, runs, run);
      if o.Pass? {
        EagerStep(before, Snapshot(), names, i);
      }
      runs' := runs + [run];
    }

    /**
     * One name of `preInstantiateSingletons`: a non-lazy singleton definition is created;
     * for a factory bean the factory is created, and its product too when the factory says
     * the product is a singleton. `reqs` are the `getBean` calls made, in order.
     */
    method PreInstantiateSingleton(n: string, fuel: nat) returns (o: Outcome, ghost reqs: seq<Request>)
      requires Valid()
      modifies this
      ensures Valid() && Stable()
      ensures o.Pass? && Eager(definitions, n) ==> n in singletons
      ensures PreInstantiationRequests(world, definitions, n, reqs)
      ensures Chain(world, old(Snapshot()), Snapshot(), reqs) && StopsAtFailure(reqs, o)
    {
      reqs := [];
      var known := ContainsBeanDefinition(n);
      if known {
        var bd := definitions[n];
        if bd.singleton && !bd.lazyInit {
          if Implements(world.table, bd.beanClass, FactoryBean) {
            PrefixRoundTrip(n);
            var f, req := RequestBean(FACTORY_BEAN_PREFIX + n, fuel);
            OneRequest(world, req);
            reqs := [req];
            if f.Err? {
              return Fail(f.error), reqs;
            }
            // The cast to FactoryBean cannot fail: a prefixed name yields only factory beans.
            assert Implements(world.table, f.value.cls, FactoryBean);
            if world.factoryIsSingleton(f.value) {
              ghost var beforeProduct := Snapshot();
              var p, product := RequestBean(n, fuel);
              GrewTrans(old(Snapshot()), beforeProduct, Snapshot());
              OneRequest(world, product);
              ChainAppend(world, old(Snapshot()), beforeProduct, Snapshot(), reqs, [product]);
              reqs := reqs + [product];
              if p.Err? {
                return Fail(p.error), reqs;
              }
            }
          } else {
            var b, req := RequestBean(n, fuel);
            OneRequest(world, req);
            reqs := [req];
            if b.Err? {
              return Fail(b.error), reqs;
            }
          }
        }
      }
      return Pass, reqs;
    }

    /** `destroySingleton`: the definition is required; the destroy callbacks run until one throws. */
    method DestroySingleton(name: string, obj: Obj) returns (o: Outcome)
      modifies this`log
      ensures name !in definitions ==> o == Fail(BeansException) && log == old(log)
      ensures name in definitions ==>
        var calls := DestroyCalls(world.table, obj, definitions[name]);
        log == old(log) + Attempted(world.outcome, calls)
        && o == if RunOutcome(world.outcome, calls).Fail? then Fail(Wrap(RunOutcome(world.outcome, calls).error)) else Pass
      ensures o == DestroyOutcome(world, definitions, name, obj)
    {
      var bd := GetBeanDefinition(name);
      if bd.Err? {
        return Fail(bd.error);
      }
      o := Perform(DestroyCalls(world.table, obj, bd.value));
      if o.Fail? {
        o := Fail(Wrap(o.error));
      }
    }

    /**
     * `destroySingletons`: every cached object, in the cache's iteration order, has its
     * destroy callbacks run; the cache is cleared only when none failed.
     */
    method DestroySingletons() returns (o: Outcome)
      requires Valid()
      modifies this
      ensures Valid()
      ensures o.Pass? ==> singletons == map[]
      ensures o.Fail? ==> singletons == old(singletons)
      ensures (exists k :: k in old(singletons) && k !in definitions) ==> o.Fail?
      ensures o.Pass? <==> forall k :: k in old(singletons) ==> DestroyOutcome(world, definitions, k, old(singletons)[k]).Pass?
      ensures o.Fail? ==> exists k :: k in old(singletons) && o == DestroyOutcome(world, definitions, k, old(singletons)[k])
      ensures definitionNames == old(definitionNames) && definitions == old(definitions)
      ensures postProcessors == old(postProcessors) && nextId == old(nextId)
      ensures customEditors == old(customEditors) && registrars == old(registrars) && old(log) <= log
      ensures o.Pass? ==> forall k, c :: (k in old(singletons) && k in definitions
        && c in DestroyCalls(world.table, old(singletons)[k], definitions[k])) ==> c in log[|old(log)|..]
    {
      ghost var cached := singletons;
      o := DestroyCachedObjects();
      assert o.Pass? <==> forall k :: k in cached ==> DestroyOutcome(world, definitions, k, cached[k]).Pass?;
      if o.Pass? {
        singletons := map[];
      }
    }

    /** The loop of `destroySingletons`: the destroy callbacks of every cached object, until one fails. */
    method DestroyCachedObjects() returns (o: Outcome)
      modifies this`log
      ensures old(log) <= log
      ensures (exists k :: k in singletons && k !in definitions) ==> o.Fail?
      ensures o.Pass? <==> forall k :: k in singletons ==> DestroyOutcome(world, definitions, k, singletons[k]).Pass?
      ensures o.Fail? ==> exists k :: k in singletons && o == DestroyOutcome(world, definitions, k, singletons[k])
      ensures o.Pass? ==> forall k, c :: (k in singletons && k in definitions
        && c in DestroyCalls(world.table, singletons[k], definitions[k])) ==> c in log[|old(log)|..]
    {
      var cache := singletons;
      var rest := cache.Keys;
      ghost var done: seq<Call> := [];
      while rest != {}
        invariant rest <= cache.Keys && log == old(log) + done
        invariant DestroyedSoFar(world, definitions, cache, rest, done)
        decreases |rest|
      {
        ghost var some := SomeElement(rest);
        var k :| k in rest;
        o := DestroySingleton(k, cache[k]);
        if o.Fail? {
          DestroyFailed(world, definitions, singletons, k, o);
          return;
        }
        DestroyedStep(world, definitions, cache, rest, done, k);
        done := done + Attempted(world.outcome, DestroyCalls(world.table, cache[k], definitions[k]));
        rest := rest - {k};
      }
      assert log[|old(log)|..] == done;
      DestroyPassed(world, definitions, cache, done);
      return Pass;
    }
  }

  /** A non-empty finite set of integers has a least element. */
  lemma {:induction false} Least(s: set<int>) returns (m: int)
    requires s != {}
    ensures m in s && forall k :: k in s ==> m <= k
    decreases |s|
  {
    var x := SomeElement(s);
    if s == {x} {
      m := x;
    } else {
      var rest := Least(s - {x});
      m := if x < rest then x else rest;
      assert forall k :: k in s ==> k == x || k in s - {x};
    }
  }
}
