// The application context: AbstractApplicationContext with the refreshable, XML and
// class-path subclasses folded into one class, as ClassPathXMLApplicationContext assembles
// them.
module Context {
  import opened Wrappers
  import opened Classes
  import opened Values
  import opened Runtime
  import opened FactoryStates
  import opened BeanFactory
  import opened Resources
  import opened XmlParser
  import opened Events

  // ---------------------------------------------------------------- configuration locations

  /**
   * `getResolvedConfigLocations`, as the loop is written: a location without `classpath:`
   * is kept with the prefix added, in input order; one that already has the prefix is
   * dropped, so the result is never longer than the input.
   */
  function ResolvedLocations(locations: seq<string>): (r: seq<string>)
    ensures |r| <= |locations|
    ensures forall l :: l in r ==> CLASSPATH_URL_PREFIX <= l
    ensures forall l :: l in r <==> exists k :: 0 <= k < |locations| && !(CLASSPATH_URL_PREFIX <= locations[k])
                                                && l == CLASSPATH_URL_PREFIX + locations[k]
  {
    if locations == [] then []
    else
      var init := locations[..|locations| - 1];
      var last := locations[|locations| - 1];
      var front := ResolvedLocations(init);
      assert forall k :: 0 <= k < |init| ==> init[k] == locations[k];
      if CLASSPATH_URL_PREFIX <= last then front else front + [CLASSPATH_URL_PREFIX + last]
  }

  /** Locations are resolved one by one: a list of locations resolves as its parts do. */
  lemma {:induction false} ResolvedLocationsAppend(a: seq<string>, b: seq<string>)
    ensures ResolvedLocations(a + b) == ResolvedLocations(a) + ResolvedLocations(b)
    decreases |b|
  {
    if b == [] {
      assert a + b == a;
    } else {
      var b' := b[..|b| - 1];
      ResolvedLocationsAppend(a, b');
      assert (a + b)[..|a + b| - 1] == a + b';
      assert (a + b)[|a + b| - 1] == b[|b| - 1];
    }
  }

  /** Resolving resolved locations drops them all: every one of them already has the prefix. */
  lemma {:induction false} ResolvedLocationsDropPrefixed(locations: seq<string>)
    requires forall l :: l in locations ==> CLASSPATH_URL_PREFIX <= l
    ensures ResolvedLocations(locations) == []
    decreases |locations|
  {
    if locations != [] {
      var init := locations[..|locations| - 1];
      assert forall l :: l in init ==> l in locations;
      ResolvedLocationsDropPrefixed(init);
      assert locations[|locations| - 1] in locations;
    }
  }

  /** `getResolvedConfigLocations`: the loop that builds the resolved list. */
  method GetResolvedConfigLocations(locations: seq<string>) returns (r: seq<string>)
    ensures r == ResolvedLocations(locations)
  {
    r := [];
    for i := 0 to |locations|
      invariant r == ResolvedLocations(locations[..i])
    {
      assert locations[..i + 1][..i] == locations[..i];
      if !(CLASSPATH_URL_PREFIX <= locations[i]) {
        r := r + [CLASSPATH_URL_PREFIX + locations[i]];
      }
    }
    assert locations[..|locations|] == locations;
  }

  // ---------------------------------------------------------------- steps of refresh

  /** A prefix of a prefix is a prefix; stated on opaque sequences so that no definition is unfolded. */
  lemma PrefixTrans<T>(a: seq<T>, b: seq<T>, c: seq<T>)
    requires a <= b && b <= c
    ensures a <= c
  {
  }

  /** The calls that hand the factory to each programmatically added factory post-processor. */
  function ProcessorCalls(processors: seq<Obj>): (r: seq<Call>)
    ensures |r| == |processors|
    ensures forall i :: 0 <= i < |r| ==> r[i] == PostProcessBeanFactory(processors[i])
  {
    if processors == [] then [] else [PostProcessBeanFactory(processors[0])] + ProcessorCalls(processors[1..])
  }

  /** Every non-lazy singleton definition of `bf` has its object in the cache. */
  predicate Instantiated(bf: DefaultListableBeanFactory)
    reads bf
  {
    forall n :: (n in bf.definitions && bf.definitions[n].singleton && !bf.definitions[n].lazyInit
      && !IsFactoryDereference(n)) ==> n in bf.singletons
  }

  /** The calls of `bf` end with `calls`. */
  predicate EndsWith(bf: DefaultListableBeanFactory, calls: seq<Call>)
    reads bf
  {
    |calls| <= |bf.log| && bf.log[|bf.log| - |calls|..] == calls
  }

  /** The bean post-processors from index `from` on are declared `BeanPostProcessor` beans. */
  predicate DeclaredProcessorsFrom(bf: DefaultListableBeanFactory, from: nat)
    reads bf
  {
    forall i :: from <= i < |bf.postProcessors| ==>
      bf.postProcessors[i].UserProcessor? && IsAssignableFrom(bf.world.table, Interface(BeanPostProcessor), bf.postProcessors[i].obj.cls)
  }

  /**
   * The bean post-processors `registerBeanPostProcessors` registered: for each declared name,
   * in order, `getBean` was asked as `got` records and answered an object of the type, and
   * that object was appended, after the processors already there.
   */
  ghost predicate RegisteredInOrder(world: World, names: seq<string>, before: seq<Processor>, after: seq<Processor>,
                                    got: seq<Request>)
  {
    |got| == |names| && |after| == |before| + |names| && after[..|before|] == before
    && forall i :: 0 <= i < |names| ==>
      got[i].name == names[i] && GotBean(world, got[i].before, got[i].after, names[i], got[i].result)
      && got[i].result.Ok? && IsAssignableFrom(world.table, Interface(BeanPostProcessor), got[i].result.value.cls)
      && after[|before| + i] == UserProcessor(got[i].result.value)
  }

  /** One more processor got and appended extends `RegisteredInOrder` by one name. */
  lemma RegisteredStep(world: World, names: seq<string>, i: nat, before: seq<Processor>, mid: seq<Processor>,
                       got: seq<Request>, req: Request)
    requires i < |names| && RegisteredInOrder(world, names[..i], before, mid, got)
    requires req.name == names[i] && GotBean(world, req.before, req.after, names[i], req.result)
    requires req.result.Ok? && IsAssignableFrom(world.table, Interface(BeanPostProcessor), req.result.value.cls)
    ensures RegisteredInOrder(world, names[..i + 1], before, mid + [UserProcessor(req.result.value)], got + [req])
  {
    var after := mid + [UserProcessor(req.result.value)];
    assert after[..|before|] == mid[..|before|];
    forall k | 0 <= k < i + 1
      ensures (got + [req])[k].name == names[..i + 1][k]
        && after[|before| + k] == UserProcessor((got + [req])[k].result.value)
    {
      if k < i {
        assert (got + [req])[k] == got[k] && names[..i + 1][k] == names[..i][k];
      }
    }
  }

  /** The processors `RegisteredInOrder` appended are all user processors of the type, after the ones already there. */
  lemma RegisteredAreDeclared(world: World, names: seq<string>, before: seq<Processor>, after: seq<Processor>,
                              got: seq<Request>)
    requires RegisteredInOrder(world, names, before, after, got)
    ensures before <= after
    ensures forall k :: |before| <= k < |after| ==>
      after[k].UserProcessor? && IsAssignableFrom(world.table, Interface(BeanPostProcessor), after[k].obj.cls)
  {
    forall k | |before| <= k < |after|
      ensures after[k].UserProcessor? && IsAssignableFrom(world.table, Interface(BeanPostProcessor), after[k].obj.cls)
    {
      assert after[|before| + (k - |before|)] == UserProcessor(got[k - |before|].result.value);
    }
  }

  /**
   * `registerBeanPostProcessors` stopped at the name `names[|got| - 1]`: `getBean` failed
   * with `e`, or answered an object that is not a `BeanPostProcessor` and `e` is the
   * BeansException that says so.
   */
  ghost predicate RegistrationFailed(world: World, names: seq<string>, got: seq<Request>, e: Exception)
  {
    0 < |got| <= |names| && got[|got| - 1].name == names[|got| - 1]
    && GotBean(world, got[|got| - 1].before, got[|got| - 1].after, got[|got| - 1].name, got[|got| - 1].result)
    && (got[|got| - 1].result == Err(e)
        || (got[|got| - 1].result.Ok? && e == BeansException
            && !IsAssignableFrom(world.table, Interface(BeanPostProcessor), got[|got| - 1].result.value.cls)))
  }

  /** The names of the factory's `BeanPostProcessor` definitions, in registration order. */
  function DeclaredProcessorNames(bf: DefaultListableBeanFactory): (names: seq<string>)
    reads bf
    requires bf.Valid()
    ensures forall n :: n in names <==>
      n in bf.definitionNames && IsAssignableFrom(bf.world.table, Interface(BeanPostProcessor), bf.definitions[n].beanClass)
  {
    NamesOfType(bf.world.table, bf.definitionNames, bf.definitions, Some(Interface(BeanPostProcessor)))
  }

  class ApplicationContext {
    /** The context's identity, as the aware processor and the events hand it out. */
    const id: nat
    /** The behaviour of the code the beans run. */
    const world: World
    /** The parsed XML document at each class-path location. */
    const documents: string -> Option<Node>
    /** `Class.forName` through the bean class loader. */
    const forName: string -> Option<Class>

    var configLocations: seq<string>
    var factoryPostProcessors: seq<Obj>
    var manualListeners: seq<Obj>
    var multicaster: ApplicationEventMulticaster?
    var beanFactory: DefaultListableBeanFactory?

    ghost predicate Valid()
      reads this, beanFactory, multicaster
    {
      Distinct(manualListeners)
      && (beanFactory != null ==> beanFactory.Valid() && beanFactory.world == world)
      && (multicaster != null ==> multicaster.Valid())
    }

    /** A context with its resolved locations, not yet refreshed: no factory and no multicaster. */
    constructor (id: nat, world: World, documents: string -> Option<Node>, forName: string -> Option<Class>,
                 configLocations: seq<string>)
      ensures Valid()
      ensures this.id == id && this.world == world && this.documents == documents && this.forName == forName
      ensures this.configLocations == configLocations
      ensures factoryPostProcessors == [] && manualListeners == [] && multicaster == null && beanFactory == null
    {
      this.id := id;
      this.world := world;
      this.documents := documents;
      this.forName := forName;
      this.configLocations := configLocations;
      factoryPostProcessors := [];
      manualListeners := [];
      multicaster := null;
      beanFactory := null;
    }

    /** `addBeanFactoryPostProcessor`: appended to those run on the next refresh. */
    method AddBeanFactoryPostProcessor(processor: Obj)
      modifies this`factoryPostProcessors
      ensures factoryPostProcessors == old(factoryPostProcessors) + [processor]
    {
      factoryPostProcessors := factoryPostProcessors + [processor];
    }

    /**
     * `addApplicationListener`: remembered (once) for later refreshes, then added to the
     * current multicaster, which is a NullPointerException before the first refresh.
     */
    method AddApplicationListener(listener: Obj) returns (o: Outcome)
      requires Valid()
      modifies this`manualListeners, multicaster
      ensures Valid()
      ensures manualListeners == if listener in old(manualListeners) then old(manualListeners) else old(manualListeners) + [listener]
      ensures multicaster == null ==> o == Fail(NullPointerException)
      ensures multicaster != null ==> (o == Pass && listener in multicaster.listeners
        && multicaster.listeners == if listener in old(multicaster.listeners) then old(multicaster.listeners)
                                    else old(multicaster.listeners) + [listener])
    {
      if listener !in manualListeners {
        manualListeners := manualListeners + [listener];
      }
      if multicaster == null {
        return Fail(NullPointerException);
      }
      multicaster.AddApplicationListener(listener);
      return Pass;
    }

    /** `publishEvent`: the multicaster delivers the event, the calls landing in `runtime`. */
    method PublishEvent(event: Event, runtime: DefaultListableBeanFactory) returns (o: Outcome)
      modifies runtime`log
      ensures multicaster == null ==> o == Fail(NullPointerException) && runtime.log == old(runtime.log)
      ensures multicaster != null ==>
        o == RunOutcome(runtime.world.outcome, EventCalls(multicaster.listeners, event))
        && runtime.log == old(runtime.log) + Attempted(runtime.world.outcome, EventCalls(multicaster.listeners, event))
    {
      if multicaster == null {
        return Fail(NullPointerException);
      }
      o := multicaster.MulticastEvent(event, runtime);
    }

    // ---- loading the definitions

    /** The class-path path `getResource` makes of a location, if it has the prefix. */
    function ResourcePath(location: string): Option<string>
    {
      if CLASSPATH_URL_PREFIX <= location then Some(ResolvedPath(Some(location[|CLASSPATH_URL_PREFIX|..])).value) else None
    }

    /**
     * The ids the document at `location` defines, or nothing when the location has no
     * prefix or no document with a root element is there.
     */
    function LocationIds(location: string): Option<seq<string>>
    {
      var path := ResourcePath(location);
      if path.None? || documents(path.value).None? || !documents(path.value).value.Element? then None
      else Some(BeanIds(documents(path.value).value.children))
    }

    /** The ids the documents at `locations` define, in order, or nothing when one cannot be loaded. */
    function ConfigIds(locations: seq<string>): Option<seq<string>>
    {
      if locations == [] then Some([])
      else
        match ConfigIds(locations[..|locations| - 1])
        case None => None
        case Some(front) =>
          match LocationIds(locations[|locations| - 1])
          case None => None
          case Some(ids) => Some(front + ids)
    }

    /**
     * `loadBeanDefinitions` for one location: the resource's document has its beans
     * registered; a missing document is a BeansException, a location without the prefix a
     * RuntimeException.
     */
    method LoadLocation(location: string, bf: DefaultListableBeanFactory) returns (o: Outcome)
      requires bf.Valid()
      modifies bf
      ensures bf.Valid() && OnlyDefinitionsChanged(bf)
      ensures o.Fail? ==> o.error == BeansException || o.error == RuntimeException
      ensures LocationIds(location).None? ==> o.Fail?
      ensures o.Pass? ==> (LocationIds(location).Some?
                           && bf.definitionNames == old(bf.definitionNames) + LocationIds(location).value)
    {
      var path := ResourcePath(location);
      if path.None? {
        return Fail(RuntimeException);
      }
      var document := documents(path.value);
      if document.None? || !document.value.Element? {
        return Fail(BeansException);
      }
      o := RegisterBeanDefinitions(document.value, forName, bf);
    }

    /** `loadBeanDefinitions`: every configured location in order, until one fails. */
    method LoadBeanDefinitions(bf: DefaultListableBeanFactory) returns (o: Outcome)
      requires bf.Valid()
      modifies bf
      ensures bf.Valid() && OnlyDefinitionsChanged(bf)
      ensures o.Fail? ==> o.error == BeansException || o.error == RuntimeException
      ensures ConfigIds(configLocations).None? ==> o.Fail?
      ensures o.Pass? ==> (ConfigIds(configLocations).Some?
                           && bf.definitionNames == old(bf.definitionNames) + ConfigIds(configLocations).value)
    {
      var locations := configLocations;
      for i := 0 to |locations|
        invariant bf.Valid() && OnlyDefinitionsChanged(bf)
        invariant ConfigIds(locations[..i]).Some?
        invariant bf.definitionNames == old(bf.definitionNames) + ConfigIds(locations[..i]).value
      {
        assert locations[..i + 1][..i] == locations[..i];
        ghost var names := bf.definitionNames;
        o := LoadLocation(locations[i], bf);
        if o.Fail? {
          if LocationIds(locations[i]).None? {
            assert ConfigIds(locations[..i + 1]).None?;
            ConfigIdsStop(locations, i + 1);
          }
          return;
        }
        assert (old(bf.definitionNames) + ConfigIds(locations[..i]).value) + LocationIds(locations[i]).value
            == old(bf.definitionNames) + (ConfigIds(locations[..i]).value + LocationIds(locations[i]).value);
      }
      assert locations[..|locations|] == locations;
      return Pass;
    }

    /** Once a prefix of the locations fails to load, all of them do. */
    lemma {:induction false} ConfigIdsStop(locations: seq<string>, i: nat)
      requires i <= |locations| && ConfigIds(locations[..i]).None?
      ensures ConfigIds(locations).None?
      decreases |locations| - i
    {
      if i < |locations| {
        assert locations[..i + 1][..i] == locations[..i];
        ConfigIdsStop(locations, i + 1);
      } else {
        assert locations[..i] == locations;
      }
    }

    /**
     * `refreshBeanFactory`: an existing factory has its singletons destroyed (a failure
     * there propagates and keeps it) and is dropped; a fresh factory is created and loaded,
     * and becomes the context's only when loading succeeds; a loading failure is an
     * ApplicationContextException and leaves no factory.
     */
    method RefreshBeanFactory() returns (r: Result<DefaultListableBeanFactory>)
      requires Valid()
      modifies this`beanFactory, beanFactory
      ensures Valid()
      ensures r.Ok? ==> (beanFactory == r.value && fresh(r.value)
        && ConfigIds(configLocations).Some? && r.value.definitionNames == ConfigIds(configLocations).value
        && r.value.singletons == map[] && r.value.postProcessors == [] && r.value.log == [])
      ensures r.Ok? && old(beanFactory) != null ==> old(beanFactory).singletons == map[]
      ensures ConfigIds(configLocations).None? ==> r.Err?
      ensures old(beanFactory) == null && r.Err? ==> r == Err(ApplicationContextException) && beanFactory == null
      ensures r.Err? ==> ((r.error == ApplicationContextException && beanFactory == null)
        || (beanFactory == old(beanFactory) && beanFactory.singletons == old(beanFactory.singletons)))
    {
      if beanFactory != null {
        var d := beanFactory.DestroySingletons();
        if d.Fail? {
          return Err(d.error);
        }
        beanFactory := null;
      }
      var bf := new DefaultListableBeanFactory(world);
      var o := LoadBeanDefinitions(bf);
      if o.Fail? {
        return Err(ApplicationContextException);
      }
      beanFactory := bf;
      r := Ok(bf);
    }

    /**
     * `invokeBeanFactoryPostProcessors`: the programmatically added processors first, in
     * the order they were added, then every declared `BeanFactoryPostProcessor` bean in
     * registration order, each obtained through `getBean` before it is called.
     */
    method InvokeBeanFactoryPostProcessors(fuel: nat) returns (o: Outcome)
      requires Valid() && beanFactory != null
      modifies beanFactory
      ensures Valid() && beanFactory.Stable()
      ensures RunOutcome(world.outcome, ProcessorCalls(factoryPostProcessors)).Fail? ==>
        o == RunOutcome(world.outcome, ProcessorCalls(factoryPostProcessors))
        && beanFactory.log == old(beanFactory.log) + Attempted(world.outcome, ProcessorCalls(factoryPostProcessors))
      ensures o.Pass? ==> old(beanFactory.log) + ProcessorCalls(factoryPostProcessors) <= beanFactory.log
    {
      var bf := beanFactory;
      var calls := ProcessorCalls(factoryPostProcessors);
      o := bf.Perform(calls);
      CallsGrew(old(bf.Snapshot()), Attempted(world.outcome, calls));
      if o.Fail? {
        return;
      }
      PassedAll(world.outcome, calls);
      ghost var performed := bf.Snapshot();
      o := InvokeDeclaredFactoryProcessors(fuel);
      GrewTrans(old(bf.Snapshot()), performed, bf.Snapshot());
    }

    /**
     * The second half of `invokeBeanFactoryPostProcessors`: every declared
     * `BeanFactoryPostProcessor` bean in registration order, obtained through `getBean`
     * and then called; the first failure stops the walk.
     */
    method InvokeDeclaredFactoryProcessors(fuel: nat) returns (o: Outcome)
      requires Valid() && beanFactory != null
      modifies beanFactory
      ensures Valid() && beanFactory.Stable()
    {
      var bf := beanFactory;
      var names := bf.GetBeanDefinitionNames(Some(Interface(BeanFactoryPostProcessor)));
      for i := 0 to |names|
        invariant bf.Valid() && Grew(old(bf.Snapshot()), bf.Snapshot())
      {
        ghost var before := bf.Snapshot();
        var processor;
        ghost var req;
        processor, req := bf.GetBeanOfType(names[i], Interface(BeanFactoryPostProcessor), fuel);
        GrewTrans(old(bf.Snapshot()), before, bf.Snapshot());
        if processor.Err? {
          return Fail(processor.error);
        }
        ghost var beforeCall := bf.Snapshot();
        o := bf.Invoke(PostProcessBeanFactory(processor.value));
        CallsGrew(beforeCall, [PostProcessBeanFactory(processor.value)]);
        GrewTrans(old(bf.Snapshot()), beforeCall, bf.Snapshot());
        if o.Fail? {
          return;
        }
      }
      return Pass;
    }

    /**
     * `registerBeanPostProcessors`: every declared `BeanPostProcessor` bean, in
     * registration order, is obtained through `getBean` and appended to the factory's
     * processors, after those already there.
     */
    method RegisterBeanPostProcessors(fuel: nat) returns (o: Outcome, ghost got: seq<Request>)
      requires Valid() && beanFactory != null
      modifies beanFactory
      ensures Valid()
      ensures GrewBesidesProcessors(old(beanFactory.Snapshot()), beanFactory.Snapshot())
      ensures old(beanFactory.postProcessors) <= beanFactory.postProcessors
      ensures DeclaredProcessorsFrom(beanFactory, |old(beanFactory.postProcessors)|)
      ensures o.Pass? ==> RegisteredInOrder(world, DeclaredProcessorNames(beanFactory), old(beanFactory.postProcessors),
                                            beanFactory.postProcessors, got)
      ensures o.Fail? ==> RegistrationFailed(world, DeclaredProcessorNames(beanFactory), got, o.error)
    {
      var bf := beanFactory;
      var names := bf.GetBeanDefinitionNames(Some(Interface(BeanPostProcessor)));
      got := [];
      for i := 0 to |names|
        invariant bf.Valid() && names == DeclaredProcessorNames(bf)
        invariant GrewBesidesProcessors(old(bf.Snapshot()), bf.Snapshot())
        invariant RegisteredInOrder(world, names[..i], old(bf.postProcessors), bf.postProcessors, got)
      {
        ghost var before := bf.Snapshot();
        ghost var req;
        o, req := AddDeclaredProcessor(bf, names[i], fuel);
        GrewBesidesProcessorsTrans(old(bf.Snapshot()), before, bf.Snapshot());
        if o.Fail? {
          RegisteredAreDeclared(world, names[..i], old(bf.postProcessors), bf.postProcessors, got);
          return o, got + [req];
        }
        RegisteredStep(world, names, i, old(bf.postProcessors), before.postProcessors, got, req);
        got := got + [req];
      }
      assert names[..|names|] == names;
      RegisteredAreDeclared(world, names, old(bf.postProcessors), bf.postProcessors, got);
      return Pass, got;
    }

    /** One pass of `registerBeanPostProcessors`: the bean got as a `BeanPostProcessor`, then added to `bf`. */
    method AddDeclaredProcessor(bf: DefaultListableBeanFactory, name: string, fuel: nat) returns (o: Outcome, ghost req: Request)
      requires bf.Valid()
      modifies bf
      ensures bf.Valid() && GrewBesidesProcessors(old(bf.Snapshot()), bf.Snapshot())
      ensures req.name == name && GotBean(bf.world, req.before, req.after, name, req.result)
      ensures o.Pass? ==>
        (req.result.Ok? && IsAssignableFrom(bf.world.table, Interface(BeanPostProcessor), req.result.value.cls)
         && bf.postProcessors == old(bf.postProcessors) + [UserProcessor(req.result.value)])
      ensures o.Fail? ==>
        (bf.postProcessors == old(bf.postProcessors)
         && (req.result == Err(o.error)
             || (req.result.Ok? && o.error == BeansException
                 && !IsAssignableFrom(bf.world.table, Interface(BeanPostProcessor), req.result.value.cls))))
    {
      var processor;
      processor, req := bf.GetBeanOfType(name, Interface(BeanPostProcessor), fuel);
      if processor.Err? {
        return Fail(processor.error), req;
      }
      ghost var got := bf.Snapshot();
      bf.AddBeanPostProcessor(UserProcessor(processor.value));
      assert bf.Snapshot().(postProcessors := got.postProcessors) == got;
      o := Pass;
    }

    /** `initApplicationEventMulticaster`: the old multicaster is emptied and replaced by a new, empty one. */
    method InitApplicationEventMulticaster()
      requires Valid()
      modifies this`multicaster, multicaster
      ensures Valid()
      ensures old(multicaster) != null ==> old(multicaster).listeners == []
      ensures multicaster != null && fresh(multicaster) && multicaster.listeners == []
    {
      if multicaster != null {
        multicaster.RemoveAllListeners();
      }
      multicaster := new ApplicationEventMulticaster();
    }

    /**
     * `registerApplicationListeners`: the manually added listeners first, in the order
     * they were added, then every `ApplicationListener` bean, singleton or prototype (in
     * the unspecified order of the map of them); the map is returned as `beans`.
     */
    method RegisterApplicationListeners(fuel: nat) returns (o: Outcome, ghost beans: map<string, Obj>)
      requires Valid() && beanFactory != null && multicaster != null
      modifies multicaster, beanFactory
      ensures Valid() && beanFactory.Stable()
      ensures old(multicaster.listeners) == [] ==> manualListeners <= multicaster.listeners
      ensures forall l :: l in manualListeners ==> l in multicaster.listeners
      ensures o.Pass? ==> forall n :: n in beans ==> beans[n] in multicaster.listeners
      ensures o.Pass? ==> forall n :: (n in beanFactory.definitions && !IsFactoryDereference(n)
        && IsAssignableFrom(world.table, Interface(ApplicationListener), beanFactory.definitions[n].beanClass)) ==> n in beans
    {
      var m := multicaster;
      var bf := beanFactory;
      for i := 0 to |manualListeners|
        invariant m.Valid() && unchanged(bf)
        invariant old(m.listeners) == [] ==> m.listeners == manualListeners[..i]
        invariant forall k :: 0 <= k < i ==> manualListeners[k] in m.listeners
      {
        assert manualListeners[..i + 1] == manualListeners[..i] + [manualListeners[i]];
        m.AddApplicationListener(manualListeners[i]);
      }
      assert manualListeners[..|manualListeners|] == manualListeners;
      ghost var manual := m.listeners;
      beans := map[];
      var found;
      ghost var failedLookup;
      found, failedLookup := bf.GetBeansOfType(Interface(ApplicationListener), true, false, fuel);
      if found.Err? {
        return Fail(found.error), beans;
      }
      beans := found.value;
      var rest := found.value.Values;
      while rest != {}
        invariant m.Valid() && manual <= m.listeners && bf.Valid() && bf.Stable()
        invariant forall v :: v in found.value.Values && v !in rest ==> v in m.listeners
        decreases |rest|
      {
        ghost var some := SomeElement(rest);
        var listener :| listener in rest;
        m.AddApplicationListener(listener);
        rest := rest - {listener};
      }
      return Pass, beans;
    }

    /**
     * The first steps of `refresh` inside its `try`: the empty `postProcessBeanFactory`
     * hook, then the factory post-processors, then the bean post-processors.
     */
    method ProcessFactory(fuel: nat) returns (o: Outcome, ghost got: seq<Request>)
      requires Valid() && beanFactory != null
      modifies beanFactory
      ensures Valid()
      ensures beanFactory.definitionNames == old(beanFactory.definitionNames)
      ensures beanFactory.definitions == old(beanFactory.definitions)
      ensures old(beanFactory.postProcessors) <= beanFactory.postProcessors
      ensures o.Pass? ==> DeclaredProcessorsFrom(beanFactory, |old(beanFactory.postProcessors)|)
      ensures o.Pass? ==> RegisteredInOrder(world, DeclaredProcessorNames(beanFactory), old(beanFactory.postProcessors),
                                            beanFactory.postProcessors, got)
      ensures o.Pass? ==> old(beanFactory.log) + ProcessorCalls(factoryPostProcessors) <= beanFactory.log
    {
      var bf := beanFactory;
      got := [];
      o := InvokeBeanFactoryPostProcessors(fuel);
      if o.Fail? {
        return;
      }
      ghost var invoked := bf.log;
      o, got := RegisterBeanPostProcessors(fuel);
      PrefixTrans(old(bf.log) + ProcessorCalls(factoryPostProcessors), invoked, bf.log);
    }

    /**
     * The last steps of `refresh` inside its `try`: a new multicaster, the empty
     * `onRefresh` hook, the listeners, the non-lazy singletons, and last the refreshed
     * event.
     */
    method StartUp(fuel: nat) returns (o: Outcome)
      requires Valid() && beanFactory != null
      modifies this`multicaster, multicaster, beanFactory
      ensures Valid()
      ensures beanFactory.definitionNames == old(beanFactory.definitionNames)
      ensures beanFactory.definitions == old(beanFactory.definitions)
      ensures beanFactory.postProcessors == old(beanFactory.postProcessors)
      ensures old(beanFactory.log) <= beanFactory.log
      ensures o.Pass? ==> multicaster != null && fresh(multicaster) && manualListeners <= multicaster.listeners
      ensures o.Pass? ==> Instantiated(beanFactory)
      ensures o.Pass? ==> EndsWith(beanFactory, EventCalls(multicaster.listeners, ContextRefreshed(id)))
    {
      var bf := beanFactory;
      InitApplicationEventMulticaster();
      ghost var beans;
      o, beans := RegisterApplicationListeners(fuel);
      if o.Fail? {
        return;
      }
      ghost var registered := bf.log;
      o := InstantiateSingletons(bf, fuel);
      if o.Fail? {
        PrefixTrans(old(bf.log), registered, bf.log);
        return;
      }
      ghost var instantiated := bf.log;
      PrefixTrans(old(bf.log), registered, instantiated);
      o := PublishEvent(ContextRefreshed(id), bf);
      PrefixTrans(old(bf.log), instantiated, bf.log);
      if o.Pass? {
        PassedAll(world.outcome, EventCalls(multicaster.listeners, ContextRefreshed(id)));
      }
    }

    /** `finishBeanFactoryInitialization`, a step of `refresh`: the eager singletons of `bf` are created. */
    method InstantiateSingletons(bf: DefaultListableBeanFactory, fuel: nat) returns (o: Outcome)
      requires bf.Valid()
      modifies bf
      ensures bf.Valid() && bf.Stable()
      ensures o.Pass? ==> Instantiated(bf)
    {
      ghost var runs;
      o, runs := bf.PreInstantiateSingletons(fuel);
    }

    /** The steps of `refresh` inside its `try`, in their order. */
    method RefreshSteps(fuel: nat) returns (o: Outcome, ghost got: seq<Request>)
      requires Valid() && beanFactory != null
      modifies this`multicaster, multicaster, beanFactory
      ensures Valid() && beanFactory == old(beanFactory)
      ensures beanFactory.definitionNames == old(beanFactory.definitionNames)
      ensures beanFactory.definitions == old(beanFactory.definitions)
      ensures old(beanFactory.postProcessors) <= beanFactory.postProcessors
      ensures o.Pass? ==> DeclaredProcessorsFrom(beanFactory, |old(beanFactory.postProcessors)|)
      ensures o.Pass? ==> RegisteredInOrder(world, DeclaredProcessorNames(beanFactory), old(beanFactory.postProcessors),
                                            beanFactory.postProcessors, got)
      ensures o.Pass? ==> old(beanFactory.log) + ProcessorCalls(factoryPostProcessors) <= beanFactory.log
      ensures o.Pass? ==> multicaster != null && fresh(multicaster) && manualListeners <= multicaster.listeners
      ensures o.Pass? ==> Instantiated(beanFactory)
      ensures o.Pass? ==> EndsWith(beanFactory, EventCalls(multicaster.listeners, ContextRefreshed(id)))
    {
      var bf := beanFactory;
      o, got := ProcessFactory(fuel);
      if o.Fail? {
        return;
      }
      ghost var processed := bf.log;
      o := StartUp(fuel);
      PrefixTrans(old(bf.log) + ProcessorCalls(factoryPostProcessors), processed, bf.log);
    }

    /**
     * `refresh`: the factory is refreshed and prepared (the context's aware processor is
     * its first bean post-processor), then the steps run; a BeansException from the steps
     * destroys the singletons (`rollback` is that outcome) and is rethrown, unless the
     * destruction itself throws. `stepError` is what the steps threw, if they ran and threw.
     */
    method Refresh(fuel: nat) returns (o: Outcome, ghost stepError: Option<Exception>, ghost rollback: Option<Outcome>,
                                       ghost got: seq<Request>)
      requires Valid()
      modifies this`beanFactory, this`multicaster, beanFactory, multicaster
      ensures Valid()
      ensures o.Pass? ==> (beanFactory != null && fresh(beanFactory)
        && ConfigIds(configLocations).Some? && beanFactory.definitionNames == ConfigIds(configLocations).value
        && |beanFactory.postProcessors| > 0 && beanFactory.postProcessors[0] == AwareProcessor(id)
        && DeclaredProcessorsFrom(beanFactory, 1)
        && RegisteredInOrder(world, DeclaredProcessorNames(beanFactory), [AwareProcessor(id)], beanFactory.postProcessors, got)
        && ProcessorCalls(factoryPostProcessors) <= beanFactory.log
        && multicaster != null && fresh(multicaster) && manualListeners <= multicaster.listeners
        && Instantiated(beanFactory)
        && EndsWith(beanFactory, EventCalls(multicaster.listeners, ContextRefreshed(id))))
      ensures ConfigIds(configLocations).None? ==> o.Fail?
      ensures stepError.Some? ==> beanFactory != null && fresh(beanFactory) && o.Fail?
      ensures stepError.None? && o.Fail? ==> ((o.error == ApplicationContextException && beanFactory == null)
        || beanFactory == old(beanFactory))
      ensures rollback.Some? <==> stepError == Some(BeansException)
      ensures stepError.Some? && rollback.None? ==> o == Fail(stepError.value)
      ensures rollback == Some(Pass) ==> o == Fail(BeansException) && beanFactory.singletons == map[]
      ensures rollback.Some? && rollback.value.Fail? ==> o == rollback.value
    {
      stepError, rollback, got := None, None, [];
      var r := RefreshBeanFactory();
      if r.Err? {
        return Fail(r.error), stepError, rollback, got;
      }
      var bf := r.value;
      // prepareBeanFactory
      bf.AddBeanPostProcessor(AwareProcessor(id));
      o, got := RefreshSteps(fuel);
      if o.Fail? {
        stepError := Some(o.error);
        if o.error == BeansException {
          var d := bf.DestroySingletons();
          rollback := Some(d);
          if d.Fail? {
            o := d;
          }
        }
      }
    }

    /**
     * `close`: the singletons are destroyed, then exactly one closed event is published;
     * without a factory (never refreshed, or a failed refresh) it is a NullPointerException.
     */
    method Close() returns (o: Outcome)
      requires Valid()
      modifies beanFactory
      ensures Valid()
      ensures beanFactory == null ==> o == Fail(NullPointerException)
      ensures beanFactory != null && multicaster == null ==> o.Fail?
      ensures o.Pass? ==> (beanFactory != null && multicaster != null && beanFactory.singletons == map[]
        && old(beanFactory.log) <= beanFactory.log
        && EndsWith(beanFactory, EventCalls(multicaster.listeners, ContextClosed(id))))
    {
      if beanFactory == null {
        return Fail(NullPointerException);
      }
      var bf := beanFactory;
      o := bf.DestroySingletons();
      if o.Fail? {
        return;
      }
      o := PublishEvent(ContextClosed(id), bf);
      if o.Pass? {
        PassedAll(world.outcome, EventCalls(multicaster.listeners, ContextClosed(id)));
      }
    }
  }

  /**
   * `new ClassPathXMLApplicationContext(locations)`: null locations are a
   * NullPointerException and none at all an IllegalArgumentException; otherwise the
   * locations are resolved and the new context refreshed at once, its failure being the
   * constructor's.
   */
  method NewClassPathXmlApplicationContext(id: nat, world: World, documents: string -> Option<Node>,
                                           forName: string -> Option<Class>, locations: Option<seq<string>>, fuel: nat)
    returns (r: Result<ApplicationContext>)
    ensures locations.None? ==> r == Err(NullPointerException)
    ensures locations == Some([]) ==> r == Err(IllegalArgumentException)
    ensures r.Ok? ==> (fresh(r.value) && r.value.Valid() && r.value.id == id
      && locations.Some? && r.value.configLocations == ResolvedLocations(locations.value)
      && r.value.beanFactory != null && r.value.multicaster != null
      && r.value.ConfigIds(r.value.configLocations).Some?
      && r.value.beanFactory.definitionNames == r.value.ConfigIds(r.value.configLocations).value
      && Instantiated(r.value.beanFactory)
      && EndsWith(r.value.beanFactory, EventCalls(r.value.multicaster.listeners, ContextRefreshed(id))))
  {
    if locations.None? {
      return Err(NullPointerException);
    }
    if |locations.value| == 0 {
      return Err(IllegalArgumentException);
    }
    var resolved := GetResolvedConfigLocations(locations.value);
    var context := new ApplicationContext(id, world, documents, forName, resolved);
    var o;
    ghost var stepError, rollback, got;
    o, stepError, rollback, got := context.Refresh(fuel);
    if o.Fail? {
      return Err(o.error);
    }
    r := Ok(context);
  }
}
