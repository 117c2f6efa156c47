// CustomEditorConfigurer: a bean-factory post-processor that hands its property-editor
// registrars to the factory.
module EditorConfigurer {
  import opened Wrappers
  import opened Values
  import opened BeanFactory

  /** The registrars listed in `rs`, as a set. */
  function RegistrarSet(rs: seq<Obj>): (r: set<Obj>)
    ensures forall x :: x in r <==> x in rs
  {
    set x | x in rs
  }

  class CustomEditorConfigurer {
    /** The registrars to hand over; the array may never have been set. */
    var propertyEditorRegistrars: Option<seq<Obj>>

    constructor ()
      ensures propertyEditorRegistrars.None?
    {
      propertyEditorRegistrars := None;
    }

    /** `setPropertyEditorRegistrars`. */
    method SetPropertyEditorRegistrars(registrars: Option<seq<Obj>>)
      modifies this
      ensures propertyEditorRegistrars == registrars
    {
      propertyEditorRegistrars := registrars;
    }

    /**
     * `postProcessBeanFactory`: when registrars were set, each is added to the factory's
     * registrars, which thereby gain exactly these; nothing else of the factory changes.
     */
    method PostProcessBeanFactory(factory: DefaultListableBeanFactory)
      modifies factory
      ensures propertyEditorRegistrars.None? ==> factory.registrars == old(factory.registrars)
      ensures propertyEditorRegistrars.Some? ==>
        factory.registrars == old(factory.registrars) + RegistrarSet(propertyEditorRegistrars.value)
      ensures factory.definitionNames == old(factory.definitionNames) && factory.definitions == old(factory.definitions)
      ensures factory.singletons == old(factory.singletons) && factory.log == old(factory.log)
      ensures factory.nextId == old(factory.nextId) && factory.customEditors == old(factory.customEditors)
      ensures factory.postProcessors == old(factory.postProcessors)
    {
      if propertyEditorRegistrars.Some? {
        var rs := propertyEditorRegistrars.value;
        for i := 0 to |rs|
          invariant factory.registrars == old(factory.registrars) + RegistrarSet(rs[..i])
          invariant factory.definitionNames == old(factory.definitionNames) && factory.definitions == old(factory.definitions)
          invariant factory.singletons == old(factory.singletons) && factory.log == old(factory.log)
          invariant factory.nextId == old(factory.nextId) && factory.customEditors == old(factory.customEditors)
          invariant factory.postProcessors == old(factory.postProcessors)
        {
          assert rs[..i + 1] == rs[..i] + [rs[i]];
          factory.AddPropertyEditorRegistrar(rs[i]);
        }
        assert rs[..|rs|] == rs;
      }
    }
  }
}
