// BeanDefinition: what the container knows about one bean before it creates it.
module BeanDefinitions {
  import opened Wrappers
  import opened Classes
  import opened PropertyValues
  import opened ConstructorArgs

  const AUTOWIRE_NO := 0
  const AUTOWIRE_BY_NAME := 1
  const AUTOWIRE_BY_TYPE := 2
  const AUTOWIRE_CONSTRUCTOR := 3
  const AUTOWIRE_AUTODETECT := 4

  /**
   * A bean definition. The setters of the Java class become record updates: the parser
   * calls all of them before it registers the definition, and nothing changes it later.
   * The property and constructor-argument holders are kept as their contents.
   */
  datatype BeanDefinition = BeanDefinition(
    beanClass: Class,
    singleton: bool,
    lazyInit: bool,
    autowireMode: int,
    dependsOn: Option<seq<string>>,
    initMethodName: Option<string>,
    destroyMethodName: Option<string>,
    propertyValues: Option<seq<PropertyValue>>,
    constructorArgumentValues: Option<ArgValues>)

  /** The constructor: the class is required; everything else starts at its default. */
  function NewBeanDefinition(beanClass: Option<Class>, pvs: Option<seq<PropertyValue>>, cargs: Option<ArgValues>): (r: Result<BeanDefinition>)
    ensures beanClass.None? <==> r == Err(NullPointerException)
    ensures r.Ok? ==>
      var bd := r.value;
      bd.beanClass == beanClass.value && bd.singleton && !bd.lazyInit && bd.autowireMode == AUTOWIRE_NO
      && bd.dependsOn.None? && bd.initMethodName.None? && bd.destroyMethodName.None?
      && bd.propertyValues == pvs && bd.constructorArgumentValues == cargs
  {
    if beanClass.None? then Err(NullPointerException)
    else Ok(BeanDefinition(beanClass.value, true, false, AUTOWIRE_NO, None, None, None, pvs, cargs))
  }

  /** `validate`: the definition describes a bean the container can create. */
  function Validate(bd: BeanDefinition, table: ClassTable): (r: Outcome)
    ensures r.Fail? ==> r.error == BeansException
    ensures r.Fail? <==>
      (bd.lazyInit && !bd.singleton)
      || (Implements(table, bd.beanClass, FactoryBean) && !bd.singleton)
      || Info(table, bd.beanClass).constructors == []
  {
    if bd.lazyInit && !bd.singleton then Fail(BeansException)
    else if IsAssignableFrom(table, Interface(FactoryBean), bd.beanClass) && !bd.singleton then Fail(BeansException)
    else if |Info(table, bd.beanClass).constructors| == 0 then Fail(BeansException)
    else Pass
  }

  /** Some public constructor of the class takes no parameters. */
  predicate HasNoArgConstructor(table: ClassTable, c: Class)
  {
    exists k :: 0 <= k < |Info(table, c).constructors| && Info(table, c).constructors[k] == []
  }

  /** The AUTODETECT rule: setter injection by type when a no-argument constructor exists, else constructor injection. */
  function ResolvedAutowireMode(bd: BeanDefinition, table: ClassTable): int
  {
    if bd.autowireMode != AUTOWIRE_AUTODETECT then bd.autowireMode
    else if HasNoArgConstructor(table, bd.beanClass) then AUTOWIRE_BY_TYPE
    else AUTOWIRE_CONSTRUCTOR
  }

  /** `getResolvedAutowireMode`: scans the constructors for one without parameters. */
  method GetResolvedAutowireMode(bd: BeanDefinition, table: ClassTable) returns (mode: int)
    ensures mode == ResolvedAutowireMode(bd, table)
  {
    if bd.autowireMode == AUTOWIRE_AUTODETECT {
      var ctors := Info(table, bd.beanClass).constructors;
      for k := 0 to |ctors|
        invariant forall m :: 0 <= m < k ==> ctors[m] != []
      {
        if |ctors[k]| == 0 {
          return AUTOWIRE_BY_TYPE;
        }
      }
      return AUTOWIRE_CONSTRUCTOR;
    }
    return bd.autowireMode;
  }

  /** The resolved mode is never AUTODETECT, and a mode in range stays in range. */
  lemma ResolvedModeIsConcrete(bd: BeanDefinition, table: ClassTable)
    ensures ResolvedAutowireMode(bd, table) != AUTOWIRE_AUTODETECT
    ensures AUTOWIRE_NO <= bd.autowireMode <= AUTOWIRE_AUTODETECT ==>
      AUTOWIRE_NO <= ResolvedAutowireMode(bd, table) <= AUTOWIRE_CONSTRUCTOR
    ensures bd.autowireMode == AUTOWIRE_AUTODETECT ==>
      (ResolvedAutowireMode(bd, table) == AUTOWIRE_BY_TYPE <==> HasNoArgConstructor(table, bd.beanClass))
  {
  }

  /** `hasConstructorArgumentValues`: a holder is set and holds at least one argument. */
  function HasConstructorArgumentValues(bd: BeanDefinition): (b: bool)
    ensures b <==> (bd.constructorArgumentValues.Some? &&
      (bd.constructorArgumentValues.value.indexed != map[] || bd.constructorArgumentValues.value.generic != []))
  {
    bd.constructorArgumentValues.Some? && NumberOfArguments(bd.constructorArgumentValues.value) != 0
  }
}
