// The state of a bean factory as a value, and the way getting and creating beans may
// change it: the relation that every state-changing operation of the factory keeps.
module FactoryStates {
  import opened Classes
  import opened Values
  import opened BeanDefinitions
  import opened Runtime

  /**
   * The singleton cache went from `before` to `after` as bean creation may change it: every
   * entry stays, unchanged unless its name is in `replaced`, and a name is added only under
   * a singleton definition.
   */
  predicate CacheGrew(before: map<string, Obj>, after: map<string, Obj>, defs: map<string, BeanDefinition>, replaced: set<string>)
  {
    (forall k :: k in before ==> k in after && (after[k] == before[k] || k in replaced))
    && (forall k :: k in after ==> k in before || (k in defs && defs[k].singleton))
  }

  /** The state of a factory, as the fields of `DefaultListableBeanFactory` hold it. */
  datatype FactoryState = FactoryState(
    definitionNames: seq<string>, definitions: map<string, BeanDefinition>, singletons: map<string, Obj>,
    postProcessors: seq<Processor>, customEditors: map<Class, Obj>, registrars: set<Obj>,
    nextId: nat, log: seq<Call>)

  /**
   * What getting and creating beans may change, with the cache entries named in `replaced`
   * free to change as well: the cache gains entries only for singleton definitions and
   * keeps every other entry as it was; the configuration is untouched, identities are never
   * reused, and the call log only grows.
   */
  predicate GrewReplacing(a: FactoryState, b: FactoryState, replaced: set<string>)
  {
    a.definitionNames == b.definitionNames && a.definitions == b.definitions
    && a.postProcessors == b.postProcessors && a.customEditors == b.customEditors
    && a.registrars == b.registrars
    && a.nextId <= b.nextId && a.log <= b.log
    && CacheGrew(a.singletons, b.singletons, b.definitions, replaced)
  }

  /**
   * What getting a bean may change: every cached object stays cached under its name. Only
   * the creation of a bean replaces an entry, its own early-published one.
   */
  predicate Grew(a: FactoryState, b: FactoryState)
  {
    GrewReplacing(a, b, {})
  }

  /** Such a change stays one when both states are given the same processors. */
  lemma GrewWithProcessors(a: FactoryState, b: FactoryState, p: seq<Processor>)
    requires Grew(a, b)
    ensures Grew(a.(postProcessors := p), b.(postProcessors := p))
  {
  }

  /** A change `Grew` allows, except that the processors may have changed too. */
  predicate GrewBesidesProcessors(a: FactoryState, b: FactoryState)
  {
    Grew(a, b.(postProcessors := a.postProcessors))
  }

  /** Two such changes in a row are one such change. */
  lemma GrewBesidesProcessorsTrans(a: FactoryState, b: FactoryState, c: FactoryState)
    requires GrewBesidesProcessors(a, b) && GrewBesidesProcessors(b, c)
    ensures GrewBesidesProcessors(a, c)
  {
    GrewWithProcessors(b, c.(postProcessors := b.postProcessors), a.postProcessors);
    GrewTrans(a, b.(postProcessors := a.postProcessors), c.(postProcessors := a.postProcessors));
  }

  /** Two such changes in a row are one such change. */
  lemma GrewTrans(a: FactoryState, b: FactoryState, c: FactoryState)
    requires Grew(a, b) && Grew(b, c)
    ensures Grew(a, c)
  {
  }

  /** A change that may replace the entries in `replaced`, after or before one that replaces none, is one such change. */
  lemma GrewReplacingTrans(a: FactoryState, b: FactoryState, c: FactoryState, replaced: set<string>)
    requires GrewReplacing(a, b, replaced) && GrewReplacing(b, c, replaced)
    ensures GrewReplacing(a, c, replaced)
  {
  }

  /** Publishing an object under a singleton definition replaces at most that entry. */
  lemma PublishGrew(a: FactoryState, name: string, obj: Obj)
    requires name in a.definitions && a.definitions[name].singleton
    ensures GrewReplacing(a, a.(singletons := a.singletons[name := obj]), {name})
  {
  }

  /** A change that replaced only `name`, which was not cached before, followed by caching `name`, adds to the cache only. */
  lemma PublishNew(a: FactoryState, b: FactoryState, name: string, obj: Obj)
    requires GrewReplacing(a, b, {name}) && name !in a.singletons
    requires name in b.definitions && b.definitions[name].singleton
    ensures Grew(a, b.(singletons := b.singletons[name := obj]))
  {
  }

  /** So is making more calls. */
  lemma CallsGrew(a: FactoryState, calls: seq<Call>)
    ensures Grew(a, a.(log := a.log + calls))
  {
  }
}
