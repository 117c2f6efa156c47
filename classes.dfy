// The Java classes the container reasons about, replacing reflection by metadata.
module Classes {

  /** The eight primitive types. */
  datatype Prim = Boolean | Byte | Char | Short | Int | Long | Float | Double

  /** The container's callback and marker interfaces. */
  datatype Iface =
    | FactoryBean | BeanNameAware | BeanFactoryAware | InitializingBean | DisposableBean
    | BeanPostProcessor | BeanFactoryPostProcessor | ApplicationListener
    | ResourceLoaderAware | ApplicationEventPublisherAware | ApplicationContextAware

  /**
   * A `java.lang.Class`: primitives and their wrappers, the library classes the
   * container names, arrays, the container's interfaces, and application classes,
   * known only by name and described by a `ClassInfo`.
   */
  datatype Class =
    | Primitive(prim: Prim)
    | Wrapper(prim: Prim)
    | ObjectClass | StringClass | NumberClass | BigIntegerClass | BigDecimalClass | ClassClass
    | ListClass | ArrayListClass | ManagedListClass | ReferenceClass
    | ArrayOf(component: Class)
    | Interface(iface: Iface)
    | Named(name: string)

  /** A JavaBeans property: its name, its type, and whether it has a setter. */
  datatype Property = Property(name: string, ptype: Class, writable: bool)

  /**
   * What reflection reveals about an application class: its proper supertypes
   * (closed under inheritance), the parameter types of each public constructor, in
   * declaration order, and its bean properties.
   */
  datatype ClassInfo = ClassInfo(supers: set<Class>, constructors: seq<seq<Class>>, properties: seq<Property>)

  /** The application classes on the class path, by name. */
  type ClassTable = map<string, ClassInfo>

  /** The metadata of `c`; library classes expose no constructors or properties here. */
  function Info(table: ClassTable, c: Class): ClassInfo
  {
    if c.Named? && c.name in table then table[c.name] else ClassInfo({}, [], [])
  }

  /** The classes `Number` is a superclass of. */
  predicate IsNumberClass(c: Class)
  {
    (c.Wrapper? && c.prim != Boolean && c.prim != Char) || c == BigIntegerClass || c == BigDecimalClass
  }

  /** `lhs.isAssignableFrom(rhs)`: `rhs` is `lhs` or one of its subtypes. */
  predicate IsAssignableFrom(table: ClassTable, lhs: Class, rhs: Class)
  {
    lhs == rhs
    || (lhs == ObjectClass && !rhs.Primitive?)
    || (lhs == NumberClass && IsNumberClass(rhs))
    || (lhs == ListClass && (rhs == ArrayListClass || rhs == ManagedListClass))
    || (lhs == ArrayListClass && rhs == ManagedListClass)
    || (rhs.Named? && rhs.name in table && lhs in table[rhs.name].supers)
  }

  /** `c` implements the container interface `i`: it is that interface or lists it among its supertypes. */
  predicate Implements(table: ClassTable, c: Class, i: Iface)
  {
    c == Interface(i) || (c.Named? && c.name in table && Interface(i) in table[c.name].supers)
  }

  /** Implementing an interface is being assignable to it. */
  lemma ImplementsIsAssignable(table: ClassTable, c: Class, i: Iface)
    ensures Implements(table, c, i) <==> IsAssignableFrom(table, Interface(i), c)
  {
  }

  function PrimName(p: Prim): string
  {
    match p
    case Boolean => "boolean" case Byte => "byte" case Char => "char" case Short => "short"
    case Int => "int" case Long => "long" case Float => "float" case Double => "double"
  }

  function WrapperName(p: Prim): string
  {
    match p
    case Boolean => "java.lang.Boolean" case Byte => "java.lang.Byte"
    case Char => "java.lang.Character" case Short => "java.lang.Short"
    case Int => "java.lang.Integer" case Long => "java.lang.Long"
    case Float => "java.lang.Float" case Double => "java.lang.Double"
  }

  function IfaceName(i: Iface): string
  {
    match i
    case FactoryBean => "com.archer.spring.factory.FactoryBean"
    case BeanNameAware => "com.archer.spring.factory.BeanNameAware"
    case BeanFactoryAware => "com.archer.spring.factory.BeanFactoryAware"
    case InitializingBean => "com.archer.spring.factory.InitializingBean"
    case DisposableBean => "com.archer.spring.factory.DisposableBean"
    case BeanPostProcessor => "com.archer.spring.factory.config.BeanPostProcessor"
    case BeanFactoryPostProcessor => "com.archer.spring.factory.config.BeanFactoryPostProcessor"
    case ApplicationListener => "com.archer.spring.context.ApplicationListener"
    case ResourceLoaderAware => "com.archer.spring.context.ResourceLoaderAware"
    case ApplicationEventPublisherAware => "com.archer.spring.context.ApplicationEventPublisherAware"
    case ApplicationContextAware => "com.archer.spring.context.ApplicationContextAware"
  }

  /** The one-letter descriptor of a primitive inside an array class name. */
  function PrimDescriptor(p: Prim): string
  {
    match p
    case Boolean => "Z" case Byte => "B" case Char => "C" case Short => "S"
    case Int => "I" case Long => "J" case Float => "F" case Double => "D"
  }

  /** `Class.getName()`. */
  function ClassName(c: Class): string
    decreases c, 0
  {
    match c
    case Primitive(p) => PrimName(p)
    case Wrapper(p) => WrapperName(p)
    case ObjectClass => "java.lang.Object"
    case StringClass => "java.lang.String"
    case NumberClass => "java.lang.Number"
    case BigIntegerClass => "java.math.BigInteger"
    case BigDecimalClass => "java.math.BigDecimal"
    case ClassClass => "java.lang.Class"
    case ListClass => "java.util.List"
    case ArrayListClass => "java.util.ArrayList"
    case ManagedListClass => "com.archer.spring.factory.support.ManagedList"
    case ReferenceClass => "com.archer.spring.factory.support.RuntimeBeanReference"
    case ArrayOf(e) => "[" + Descriptor(e)
    case Interface(i) => IfaceName(i)
    case Named(n) => n
  }

  /** The descriptor of an array's component type. */
  function Descriptor(c: Class): string
    decreases c, 1
  {
    match c
    case Primitive(p) => PrimDescriptor(p)
    case ArrayOf(e) => "[" + Descriptor(e)
    case _ => "L" + ClassName(c) + ";"
  }
}
