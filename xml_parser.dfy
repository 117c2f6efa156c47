// DefaultXMLBeanDefinitionParser: bean definitions read from the element tree of an XML
// document and registered with a factory.
module XmlParser {
  import opened Wrappers
  import opened Classes
  import opened Values
  import opened PropertyValues
  import opened ConstructorArgs
  import opened BeanDefinitions
  import opened StringUtils
  import NumberUtils
  import opened BeanFactory

  const BEAN_ELEMENT := "bean"
  const CLASS_ATTRIBUTE := "class"
  const ID_ATTRIBUTE := "id"
  const NAME_ATTRIBUTE := "name"
  const SINGLETON_ATTRIBUTE := "singleton"
  const DEPENDS_ON_ATTRIBUTE := "depends-on"
  const INIT_METHOD_ATTRIBUTE := "init-method"
  const DESTROY_METHOD_ATTRIBUTE := "destroy-method"
  const CONSTRUCTOR_ARG_ELEMENT := "constructor-arg"
  const INDEX_ATTRIBUTE := "index"
  const TYPE_ATTRIBUTE := "type"
  const PROPERTY_ELEMENT := "property"
  const REF_ELEMENT := "ref"
  const BEAN_REF_ATTRIBUTE := "bean"
  const LIST_ELEMENT := "list"
  const VALUE_ELEMENT := "value"
  const NULL_ELEMENT := "null"
  const LAZY_INIT_ATTRIBUTE := "lazy-init"
  const AUTOWIRE_ATTRIBUTE := "autowire"
  const TRUE_VALUE := "true"

  /** The delimiters `depends-on` is split at. */
  const DEPENDS_ON_DELIMITERS := ",; "

  /**
   * A DOM node: an element with its tag name, attributes and child nodes; a text node
   * (CDATA included); or any other node, such as a comment.
   */
  datatype Node =
    | Element(tag: string, attributes: map<string, string>, children: seq<Node>)
    | TextNode(data: string)
    | OtherNode

  /** `getAttribute`: the attribute's value, or "" when the element has no such attribute. */
  function Attribute(e: Node, name: string): string
    requires e.Element?
  {
    if name in e.attributes then e.attributes[name] else ""
  }

  /** An element with the given tag name. */
  predicate IsElement(n: Node, tag: string)
  {
    n.Element? && n.tag == tag
  }

  /** The element children of `nodes`, in document order. */
  function Elements(nodes: seq<Node>): (r: seq<Node>)
    ensures forall k :: 0 <= k < |r| ==> r[k].Element?
  {
    if nodes == [] then []
    else
      var last := nodes[|nodes| - 1];
      Elements(nodes[..|nodes| - 1]) + (if last.Element? then [last] else [])
  }

  // ---------------------------------------------------------------- values

  /**
   * `parsePropertySubElement`: `<ref bean>` is a reference and needs its bean name; `<list>`
   * is a managed list of its element children; `<value>` is its text; `<null>` is null; any
   * other tag is an error. What it yields is declared, never an already built list.
   */
  function ParseSubElement(e: Node): (r: Result<Value>)
    requires e.Element?
    ensures r.Err? ==> r.error == BeansException
    ensures r.Ok? ==> Declared(r.value)
    ensures e.tag == REF_ELEMENT ==> (r.Ok? <==> |Attribute(e, BEAN_REF_ATTRIBUTE)| > 0)
    ensures r.Ok? && e.tag == REF_ELEMENT ==> r.value == Ref(Attribute(e, BEAN_REF_ATTRIBUTE))
    ensures e.tag == NULL_ELEMENT ==> r == Ok(Null)
    ensures e.tag !in {REF_ELEMENT, LIST_ELEMENT, VALUE_ELEMENT, NULL_ELEMENT} ==> r == Err(BeansException)
    decreases e, 1
  {
    if e.tag == REF_ELEMENT then
      var beanRef := Attribute(e, BEAN_REF_ATTRIBUTE);
      if |beanRef| == 0 then Err(BeansException) else Ok(Ref(beanRef))
    else if e.tag == LIST_ELEMENT then
      var items :- ParseList(e.children);
      Ok(Managed(items))
    else if e.tag == VALUE_ELEMENT then TextValue(e)
    else if e.tag == NULL_ELEMENT then Ok(Null)
    else Err(BeansException)
  }

  /**
   * `getList`: the values of the element children in document order; other nodes are
   * skipped, and the first child that fails fails the list.
   */
  function ParseList(nodes: seq<Node>): (r: Result<seq<Value>>)
    ensures r.Err? ==> r.error == BeansException
    ensures r.Ok? ==> |r.value| == |Elements(nodes)|
    ensures r.Ok? ==> forall i :: 0 <= i < |r.value| ==> Declared(r.value[i])
    decreases nodes, 0
  {
    if nodes == [] then Ok([])
    else
      var front :- ParseList(nodes[..|nodes| - 1]);
      var last := nodes[|nodes| - 1];
      if last.Element? then
        var v :- ParseSubElement(last);
        Ok(front + [v])
      else Ok(front)
  }

  /** Each item of a parsed list is the value its element child parses to. */
  lemma {:induction false} ListParsesEachElement(nodes: seq<Node>)
    requires ParseList(nodes).Ok?
    ensures forall i :: 0 <= i < |Elements(nodes)| ==> ParseSubElement(Elements(nodes)[i]) == Ok(ParseList(nodes).value[i])
    decreases |nodes|
  {
    if nodes != [] {
      var init := nodes[..|nodes| - 1];
      ListParsesEachElement(init);
      var front := ParseList(init).value;
      assert |front| == |Elements(init)|;
    }
  }

  /**
   * `getTextValue`: an element without children reads as ""; one with a single text child
   * reads as its text; anything else is an error.
   */
  function TextValue(e: Node): (r: Result<Value>)
    requires e.Element?
    ensures r.Ok? <==> e.children == [] || (|e.children| == 1 && e.children[0].TextNode?)
    ensures r.Ok? ==> r.value == Text(if e.children == [] then "" else e.children[0].data)
    ensures r.Err? ==> r.error == BeansException
  {
    if e.children == [] then Ok(Text(""))
    else if |e.children| != 1 || !e.children[0].TextNode? then Err(BeansException)
    else Ok(Text(e.children[0].data))
  }

  /** The first element child, if any. */
  function FirstElement(nodes: seq<Node>): (r: Option<Node>)
    ensures r.None? <==> forall k :: 0 <= k < |nodes| ==> !nodes[k].Element?
    ensures r.Some? ==> r.value.Element? && exists k :: 0 <= k < |nodes| && nodes[k] == r.value &&
                                                      forall j :: 0 <= j < k ==> !nodes[j].Element?
  {
    if nodes == [] then None
    else if nodes[0].Element? then Some(nodes[0])
    else
      var r := FirstElement(nodes[1..]);
      assert forall j :: 0 <= j < |nodes[1..]| ==> nodes[1..][j] == nodes[j + 1];
      r
  }

  /** The value of a `<property>` or `<constructor-arg>`: its first element child parsed, which must exist. */
  function ElementValue(e: Node): (r: Result<Value>)
    requires e.Element?
    ensures r.Err? ==> r.error == BeansException
    ensures r.Ok? ==> Declared(r.value)
  {
    match FirstElement(e.children)
    case None => Err(BeansException)
    case Some(c) => ParseSubElement(c)
  }

  /** `getPropertyValue`: scans the children for the first element and parses it. */
  method GetPropertyValue(e: Node) returns (r: Result<Value>)
    requires e.Element?
    ensures r == ElementValue(e)
  {
    var nodes := e.children;
    var i := 0;
    while i < |nodes| && !nodes[i].Element?
      invariant 0 <= i <= |nodes|
      invariant forall j :: 0 <= j < i ==> !nodes[j].Element?
    {
      i := i + 1;
    }
    if i == |nodes| {
      return Err(BeansException);
    }
    r := ParseSubElement(nodes[i]);
  }

  // ---------------------------------------------------------------- properties

  /** What one `<property>` adds: its name, which must not be empty, and its value. */
  function PropertyOf(e: Node): (r: Result<PropertyValue>)
    requires e.Element?
    ensures r.Ok? <==> |Attribute(e, NAME_ATTRIBUTE)| > 0 && ElementValue(e).Ok?
    ensures r.Ok? ==> r.value == PropertyValue(Attribute(e, NAME_ATTRIBUTE), ElementValue(e).value)
  {
    var name := Attribute(e, NAME_ATTRIBUTE);
    if |name| == 0 then Err(BeansException)
    else
      var v :- ElementValue(e);
      Ok(PropertyValue(name, v))
  }

  /**
   * `parseAllPropertyElements`, continued from the entries `acc`: every `<property>` child
   * is added in document order. An entry never moves once added, and names stay distinct.
   */
  function PropertiesFrom(acc: seq<PropertyValue>, nodes: seq<Node>): (r: Result<seq<PropertyValue>>)
    ensures r.Err? ==> r.error == BeansException
    ensures r.Ok? ==> |acc| <= |r.value| && forall i :: 0 <= i < |acc| ==> r.value[i].name == acc[i].name
    ensures r.Ok? && DistinctNames(acc) ==> DistinctNames(r.value)
    decreases |nodes|
  {
    if nodes == [] then Ok(acc)
    else if IsElement(nodes[0], PROPERTY_ELEMENT) then
      var pv :- PropertyOf(nodes[0]);
      var next := WithAdded(acc, pv);
      if DistinctNames(acc) then AddKeepsNamesDistinct(acc, pv); PropertiesFrom(next, nodes[1..])
      else PropertiesFrom(next, nodes[1..])
    else PropertiesFrom(acc, nodes[1..])
  }

  /** The name of a `<property>` element. */
  predicate NamesProperty(n: Node, name: string)
  {
    IsElement(n, PROPERTY_ELEMENT) && Attribute(n, NAME_ATTRIBUTE) == name
  }

  /** Properties of other names leave the lookup of `name` as it was. */
  lemma {:induction false} PropertiesKeepOthers(acc: seq<PropertyValue>, nodes: seq<Node>, name: string)
    requires PropertiesFrom(acc, nodes).Ok?
    requires forall j :: 0 <= j < |nodes| ==> !NamesProperty(nodes[j], name)
    ensures Lookup(PropertiesFrom(acc, nodes).value, name) == Lookup(acc, name)
    decreases |nodes|
  {
    if nodes != [] {
      if IsElement(nodes[0], PROPERTY_ELEMENT) {
        var pv := PropertyOf(nodes[0]).value;
        LookupOthersAfterAdd(acc, pv);
        PropertiesKeepOthers(WithAdded(acc, pv), nodes[1..], name);
      } else {
        PropertiesKeepOthers(acc, nodes[1..], name);
      }
    }
  }

  /** Of several `<property>` elements with one name, the last one's value is what a lookup finds. */
  lemma {:induction false} LastPropertyWins(acc: seq<PropertyValue>, nodes: seq<Node>, k: nat)
    requires PropertiesFrom(acc, nodes).Ok?
    requires k < |nodes| && IsElement(nodes[k], PROPERTY_ELEMENT)
    requires forall j :: k < j < |nodes| ==> !NamesProperty(nodes[j], Attribute(nodes[k], NAME_ATTRIBUTE))
    ensures PropertyOf(nodes[k]).Ok?
    ensures Lookup(PropertiesFrom(acc, nodes).value, Attribute(nodes[k], NAME_ATTRIBUTE)) == Some(PropertyOf(nodes[k]).value)
    decreases k
  {
    var rest := nodes[1..];
    if k == 0 {
      var pv := PropertyOf(nodes[0]).value;
      LookupAfterAdd(acc, pv);
      PropertiesKeepOthers(WithAdded(acc, pv), rest, pv.name);
    } else if IsElement(nodes[0], PROPERTY_ELEMENT) {
      LastPropertyWins(WithAdded(acc, PropertyOf(nodes[0]).value), rest, k - 1);
    } else {
      LastPropertyWins(acc, rest, k - 1);
    }
  }

  /** `parsePropertyElement`: the name is checked, the value parsed, and the entry added. */
  method ParsePropertyElement(e: Node, mpvs: MutablePropertyValues) returns (o: Outcome)
    requires e.Element?
    modifies mpvs
    ensures PropertyOf(e).Err? ==> o == Fail(PropertyOf(e).error) && mpvs.values == old(mpvs.values)
    ensures PropertyOf(e).Ok? ==> o == Pass && mpvs.values == WithAdded(old(mpvs.values), PropertyOf(e).value)
  {
    var name := Attribute(e, NAME_ATTRIBUTE);
    if |name| == 0 {
      return Fail(BeansException);
    }
    var value := GetPropertyValue(e);
    if value.Err? {
      return Fail(value.error);
    }
    mpvs.AddPropertyValue(PropertyValue(name, value.value));
    return Pass;
  }

  /** `parseAllPropertyElements`: the `<property>` children gathered into a new list. */
  method ParseAllPropertyElements(e: Node) returns (r: Result<seq<PropertyValue>>)
    requires e.Element?
    ensures r == PropertiesFrom([], e.children)
  {
    var mpvs := new MutablePropertyValues();
    var nodes := e.children;
    for i := 0 to |nodes|
      invariant PropertiesFrom(mpvs.values, nodes[i..]) == PropertiesFrom([], nodes)
    {
      assert nodes[i..][1..] == nodes[i + 1..];
      if IsElement(nodes[i], PROPERTY_ELEMENT) {
        var o := ParsePropertyElement(nodes[i], mpvs);
        if o.Fail? {
          return Err(o.error);
        }
      }
    }
    return Ok(mpvs.values);
  }

  // ---------------------------------------------------------------- constructor arguments

  /** `Integer.parseInt` on decimal text: a signed number in the `int` range, or a format error. */
  function ParseInt(s: string): (r: Option<int>)
    ensures r.Some? ==> NumberUtils.INT_MIN <= r.value <= NumberUtils.INT_MAX
  {
    match NumberUtils.ParseSigned(s, 10)
    case Err(_) => None
    case Ok(v) => if NumberUtils.INT_MIN <= v <= NumberUtils.INT_MAX then Some(v) else None
  }

  /** The declared type of a `<constructor-arg>`, when the attribute is not empty. */
  function TypeNameOf(e: Node): Option<string>
    requires e.Element?
  {
    var t := Attribute(e, TYPE_ATTRIBUTE);
    if |t| > 0 then Some(t) else None
  }

  /**
   * `parseConstructorArgElement` on the holders `acc`: the value is parsed first; with an
   * index, which must be a non-negative `int`, the holder goes to that index, replacing
   * any earlier one; without, it joins the generic holders.
   */
  function ArgumentOf(acc: ArgValues, e: Node): (r: Result<ArgValues>)
    requires e.Element?
    ensures r.Err? ==> r.error == BeansException
    ensures r.Ok? <==> ElementValue(e).Ok? && (|Attribute(e, INDEX_ATTRIBUTE)| > 0 ==>
      ParseInt(Attribute(e, INDEX_ATTRIBUTE)).Some? && ParseInt(Attribute(e, INDEX_ATTRIBUTE)).value >= 0)
  {
    var value :- ElementValue(e);
    var holder := ValueHolder(value, TypeNameOf(e));
    var index := Attribute(e, INDEX_ATTRIBUTE);
    if |index| > 0 then
      match ParseInt(index)
      case None => Err(BeansException)
      case Some(k) => if k < 0 then Err(BeansException) else Ok(acc.(indexed := acc.indexed[k := holder]))
    else Ok(acc.(generic := acc.generic + [holder]))
  }

  /** The `<constructor-arg>` children without an index. */
  function UnindexedCount(nodes: seq<Node>): nat
  {
    if nodes == [] then 0
    else
      var here := if IsElement(nodes[0], CONSTRUCTOR_ARG_ELEMENT) && |Attribute(nodes[0], INDEX_ATTRIBUTE)| == 0 then 1 else 0;
      here + UnindexedCount(nodes[1..])
  }

  /**
   * `parseAllConstructorArgElements`, continued from the holders `acc`: each unindexed
   * argument adds one generic holder, and every index held is non-negative.
   */
  function ArgumentsFrom(acc: ArgValues, nodes: seq<Node>): (r: Result<ArgValues>)
    ensures r.Err? ==> r.error == BeansException
    ensures r.Ok? ==> |r.value.generic| == |acc.generic| + UnindexedCount(nodes)
    ensures r.Ok? && (forall k :: k in acc.indexed ==> k >= 0) ==> forall k :: k in r.value.indexed ==> k >= 0
    ensures r.Ok? ==> acc.indexed.Keys <= r.value.indexed.Keys
    decreases |nodes|
  {
    if nodes == [] then Ok(acc)
    else if IsElement(nodes[0], CONSTRUCTOR_ARG_ELEMENT) then
      var next :- ArgumentOf(acc, nodes[0]);
      ArgumentsFrom(next, nodes[1..])
    else ArgumentsFrom(acc, nodes[1..])
  }

  /** `parseConstructorArgElement` on a holder object. */
  method ParseConstructorArgElement(e: Node, cargs: ConstructorArgumentValues) returns (o: Outcome)
    requires e.Element?
    modifies cargs
    ensures ArgumentOf(old(cargs.Contents()), e).Err? ==> o.Fail? && cargs.Contents() == old(cargs.Contents())
    ensures ArgumentOf(old(cargs.Contents()), e).Ok? ==> o == Pass && cargs.Contents() == ArgumentOf(old(cargs.Contents()), e).value
  {
    var indexAttribute := Attribute(e, INDEX_ATTRIBUTE);
    var typeAttribute := Attribute(e, TYPE_ATTRIBUTE);
    var value := GetPropertyValue(e);
    if value.Err? {
      return Fail(value.error);
    }
    var typeName := if |typeAttribute| > 0 then Some(typeAttribute) else None;
    if |indexAttribute| > 0 {
      var index := ParseInt(indexAttribute);
      if index.None? || index.value < 0 {
        return Fail(BeansException);
      }
      cargs.AddIndexedArgumentValue(index.value, value.value, typeName);
    } else {
      cargs.AddGenericArgumentValue(value.value, typeName);
    }
    return Pass;
  }

  /** `parseAllConstructorArgElements`: the `<constructor-arg>` children gathered into new holders. */
  method ParseAllConstructorArgElements(e: Node) returns (r: Result<ArgValues>)
    requires e.Element?
    ensures r == ArgumentsFrom(ArgValues(map[], []), e.children)
  {
    var cargs := new ConstructorArgumentValues();
    var nodes := e.children;
    for i := 0 to |nodes|
      invariant ArgumentsFrom(cargs.Contents(), nodes[i..]) == ArgumentsFrom(ArgValues(map[], []), nodes)
    {
      assert nodes[i..][1..] == nodes[i + 1..];
      if IsElement(nodes[i], CONSTRUCTOR_ARG_ELEMENT) {
        var o := ParseConstructorArgElement(nodes[i], cargs);
        if o.Fail? {
          return Err(BeansException);
        }
      }
    }
    return Ok(cargs.Contents());
  }

  // ---------------------------------------------------------------- bean definitions

  /** `getAutowireMode`: the four mode names map to their modes; anything else, "" included, to NO. */
  function AutowireMode(attribute: string): (mode: int)
    ensures attribute == "byName" <==> mode == AUTOWIRE_BY_NAME
    ensures attribute == "byType" <==> mode == AUTOWIRE_BY_TYPE
    ensures attribute == "constructor" <==> mode == AUTOWIRE_CONSTRUCTOR
    ensures attribute == "autodetect" <==> mode == AUTOWIRE_AUTODETECT
    ensures AUTOWIRE_NO <= mode <= AUTOWIRE_AUTODETECT
  {
    if attribute == "byName" then AUTOWIRE_BY_NAME
    else if attribute == "byType" then AUTOWIRE_BY_TYPE
    else if attribute == "constructor" then AUTOWIRE_CONSTRUCTOR
    else if attribute == "autodetect" then AUTOWIRE_AUTODETECT
    else AUTOWIRE_NO
  }

  /** An optional attribute that is set only when it is not empty. */
  function NonEmpty(s: string): Option<string>
  {
    if |s| > 0 then Some(s) else None
  }

  /**
   * `parseBeanDefinition`: the class must be named and loadable (`forName` stands for
   * `Class.forName`); then the properties, the constructor arguments, `depends-on` (only
   * when present), the autowire mode, the init and destroy method names (only when not
   * empty), `singleton` (only when present) and `lazy-init` (only for a singleton).
   */
  function DefinitionOf(e: Node, forName: string -> Option<Class>): (r: Result<BeanDefinition>)
    requires e.Element?
    ensures r.Err? ==> r.error == BeansException
    ensures |Attribute(e, CLASS_ATTRIBUTE)| == 0 || forName(Attribute(e, CLASS_ATTRIBUTE)).None? ==> r.Err?
    ensures r.Ok? ==> r.value.beanClass == forName(Attribute(e, CLASS_ATTRIBUTE)).value
  {
    var className := Attribute(e, CLASS_ATTRIBUTE);
    if |className| == 0 || forName(className).None? then Err(BeansException)
    else
      var props :- PropertiesFrom([], e.children);
      var args :- ArgumentsFrom(ArgValues(map[], []), e.children);
      Ok(Attributed(BeanDefinition(forName(className).value, true, false, AUTOWIRE_NO, None, None, None, Some(props), Some(args)), e))
  }

  /** The names `depends-on` lists: trimmed, empty ones dropped. */
  function DependsOnNames(attribute: string): seq<string>
  {
    KeptTokens(Tokens(attribute, DEPENDS_ON_DELIMITERS), true, true)
  }

  /**
   * The attributes of a `<bean>` applied to a fresh definition `bd`: `depends-on` only when
   * present, then the flags and method names.
   */
  function Attributed(bd: BeanDefinition, e: Node): BeanDefinition
    requires e.Element?
  {
    var bd := if DEPENDS_ON_ATTRIBUTE in e.attributes then bd.(dependsOn := Some(DependsOnNames(e.attributes[DEPENDS_ON_ATTRIBUTE]))) else bd;
    Flagged(bd, e)
  }

  /**
   * The autowire mode, the init and destroy method names only when not empty, `singleton`
   * only when present, and `lazy-init` only for a singleton; nothing else is touched.
   */
  function Flagged(bd: BeanDefinition, e: Node): (r: BeanDefinition)
    requires e.Element?
    ensures r.beanClass == bd.beanClass && r.dependsOn == bd.dependsOn
    ensures r.propertyValues == bd.propertyValues && r.constructorArgumentValues == bd.constructorArgumentValues
  {
    var bd := bd.(autowireMode := AutowireMode(Attribute(e, AUTOWIRE_ATTRIBUTE)));
    var init := Attribute(e, INIT_METHOD_ATTRIBUTE);
    var bd := if |init| > 0 then bd.(initMethodName := Some(init)) else bd;
    var destroy := Attribute(e, DESTROY_METHOD_ATTRIBUTE);
    var bd := if |destroy| > 0 then bd.(destroyMethodName := Some(destroy)) else bd;
    var bd := if SINGLETON_ATTRIBUTE in e.attributes then bd.(singleton := e.attributes[SINGLETON_ATTRIBUTE] == TRUE_VALUE) else bd;
    if bd.singleton then bd.(lazyInit := Attribute(e, LAZY_INIT_ATTRIBUTE) == TRUE_VALUE) else bd
  }

  /**
   * The attribute-driven part of a parsed definition: a singleton unless `singleton` says
   * otherwise, lazy only when a singleton (so validation never rejects it for laziness),
   * the mode `autowire` names, and the method names that are not empty.
   */
  lemma AttributedFlags(bd: BeanDefinition, e: Node)
    requires e.Element? && bd.singleton && !bd.lazyInit && bd.initMethodName.None? && bd.destroyMethodName.None?
    ensures var r := Attributed(bd, e);
      (r.singleton <==> SINGLETON_ATTRIBUTE !in e.attributes || e.attributes[SINGLETON_ATTRIBUTE] == TRUE_VALUE)
      && (r.lazyInit <==> r.singleton && Attribute(e, LAZY_INIT_ATTRIBUTE) == TRUE_VALUE)
      && r.autowireMode == AutowireMode(Attribute(e, AUTOWIRE_ATTRIBUTE))
      && r.initMethodName == NonEmpty(Attribute(e, INIT_METHOD_ATTRIBUTE))
      && r.destroyMethodName == NonEmpty(Attribute(e, DESTROY_METHOD_ATTRIBUTE))
      && r.beanClass == bd.beanClass && r.propertyValues == bd.propertyValues
      && r.constructorArgumentValues == bd.constructorArgumentValues
  {
  }

  /** `depends-on` is unset exactly when absent, and otherwise lists trimmed, non-empty, delimiter-free names. */
  lemma AttributedDependsOn(bd: BeanDefinition, e: Node)
    requires e.Element? && bd.dependsOn.None?
    ensures var r := Attributed(bd, e);
      (r.dependsOn.None? <==> DEPENDS_ON_ATTRIBUTE !in e.attributes)
      && (r.dependsOn.Some? ==> forall t :: t in r.dependsOn.value ==>
        t != [] && IsTrimmed(t) && forall c :: c in t ==> c !in DEPENDS_ON_DELIMITERS)
  {
    if DEPENDS_ON_ATTRIBUTE in e.attributes {
      SplitTokensHaveNoDelimiter(e.attributes[DEPENDS_ON_ATTRIBUTE], DEPENDS_ON_DELIMITERS, true, true);
    }
  }

  /**
   * What a parsed definition looks like: it passes the laziness rule of validation, its
   * property names are distinct and its constructor-argument indices non-negative.
   */
  lemma ParsedDefinitionShape(e: Node, forName: string -> Option<Class>)
    requires e.Element? && DefinitionOf(e, forName).Ok?
    ensures var bd := DefinitionOf(e, forName).value;
      !(bd.lazyInit && !bd.singleton)
      && bd.propertyValues.Some? && DistinctNames(bd.propertyValues.value)
      && bd.constructorArgumentValues.Some? && forall k :: k in bd.constructorArgumentValues.value.indexed ==> k >= 0
  {
    var className := Attribute(e, CLASS_ATTRIBUTE);
    var props := PropertiesFrom([], e.children).value;
    var args := ArgumentsFrom(ArgValues(map[], []), e.children).value;
    AttributedFlags(BeanDefinition(forName(className).value, true, false, AUTOWIRE_NO, None, None, None, Some(props), Some(args)), e);
  }

  /** `parseBeanDefinition`, setting the definition's fields one after another. */
  method ParseBeanDefinition(e: Node, forName: string -> Option<Class>) returns (r: Result<BeanDefinition>)
    requires e.Element?
    ensures r == DefinitionOf(e, forName)
  {
    var beanClassName := Attribute(e, CLASS_ATTRIBUTE);
    if |beanClassName| == 0 {
      return Err(BeansException);
    }
    var beanClass := forName(beanClassName);
    if beanClass.None? {
      return Err(BeansException);
    }
    var propertyValues := ParseAllPropertyElements(e);
    if propertyValues.Err? {
      return Err(propertyValues.error);
    }
    var constructorArgumentValues := ParseAllConstructorArgElements(e);
    if constructorArgumentValues.Err? {
      return Err(constructorArgumentValues.error);
    }
    var created := NewBeanDefinition(beanClass, Some(propertyValues.value), Some(constructorArgumentValues.value));
    var bd := created.value;
    if DEPENDS_ON_ATTRIBUTE in e.attributes {
      var dependsOn := Split(e.attributes[DEPENDS_ON_ATTRIBUTE], DEPENDS_ON_DELIMITERS, true, true);
      assert dependsOn == DependsOnNames(e.attributes[DEPENDS_ON_ATTRIBUTE]);
      bd := bd.(dependsOn := Some(dependsOn));
    }
    bd := bd.(autowireMode := AutowireMode(Attribute(e, AUTOWIRE_ATTRIBUTE)));
    var initMethodName := Attribute(e, INIT_METHOD_ATTRIBUTE);
    if |initMethodName| > 0 {
      bd := bd.(initMethodName := Some(initMethodName));
    }
    var destroyMethodName := Attribute(e, DESTROY_METHOD_ATTRIBUTE);
    if |destroyMethodName| > 0 {
      bd := bd.(destroyMethodName := Some(destroyMethodName));
    }
    if SINGLETON_ATTRIBUTE in e.attributes {
      bd := bd.(singleton := e.attributes[SINGLETON_ATTRIBUTE] == TRUE_VALUE);
    }
    var lazyInit := Attribute(e, LAZY_INIT_ATTRIBUTE);
    if bd.singleton {
      bd := bd.(lazyInit := lazyInit == TRUE_VALUE);
    }
    return Ok(bd);
  }

  /**
   * `loadBeanDefinition` before registration: the `<bean>` needs a non-empty id, a
   * definition that parses, and one that validates; the result is the name and definition
   * to register.
   */
  function LoadedDefinition(e: Node, forName: string -> Option<Class>, table: ClassTable): (r: Result<(string, BeanDefinition)>)
    requires e.Element?
    ensures r.Err? ==> r.error == BeansException
    ensures r.Ok? ==> r.value.0 == Attribute(e, ID_ATTRIBUTE) && |r.value.0| > 0
    ensures r.Ok? ==> Ok(r.value.1) == DefinitionOf(e, forName) && Validate(r.value.1, table).Pass?
  {
    var beanName := Attribute(e, ID_ATTRIBUTE);
    if |beanName| == 0 then Err(BeansException)
    else
      var bd :- DefinitionOf(e, forName);
      match Validate(bd, table)
      case Fail(x) => Err(x)
      case Pass => Ok((beanName, bd))
  }

  /** The ids of the `<bean>` elements among `nodes`, in document order. */
  function BeanIds(nodes: seq<Node>): seq<string>
  {
    if nodes == [] then []
    else
      var last := nodes[|nodes| - 1];
      BeanIds(nodes[..|nodes| - 1]) + (if IsElement(last, BEAN_ELEMENT) then [Attribute(last, ID_ATTRIBUTE)] else [])
  }

  /** Only the bean definitions of `factory` changed. */
  twostate predicate OnlyDefinitionsChanged(factory: DefaultListableBeanFactory)
    reads factory
  {
    factory.singletons == old(factory.singletons) && factory.log == old(factory.log)
    && factory.postProcessors == old(factory.postProcessors) && factory.nextId == old(factory.nextId)
    && factory.customEditors == old(factory.customEditors) && factory.registrars == old(factory.registrars)
  }

  /** `later` keeps every definition of `earlier`. */
  predicate KeepsDefinitions(earlier: map<string, BeanDefinition>, later: map<string, BeanDefinition>)
  {
    forall n :: n in earlier ==> n in later && later[n] == earlier[n]
  }

  /**
   * The `<bean>` node `n` was registered in `defs` under a name new with respect to
   * `before`, with the definition it loads to.
   */
  predicate Registered(n: Node, forName: string -> Option<Class>, table: ClassTable,
                       before: map<string, BeanDefinition>, defs: map<string, BeanDefinition>)
    requires n.Element?
  {
    LoadedDefinition(n, forName, table).Ok?
    && var (name, bd) := LoadedDefinition(n, forName, table).value;
    name !in before && name in defs && defs[name] == bd
  }

  /**
   * Registrations survive a later registration that keeps every definition, and one made
   * after the start stays new with respect to the start.
   */
  lemma RegisteredKept(nodes: seq<Node>, i: nat, forName: string -> Option<Class>, table: ClassTable,
                       start: map<string, BeanDefinition>, before: map<string, BeanDefinition>, after: map<string, BeanDefinition>)
    requires i < |nodes| && nodes[i].Element?
    requires forall k :: 0 <= k < i && IsElement(nodes[k], BEAN_ELEMENT) ==> Registered(nodes[k], forName, table, start, before)
    requires KeepsDefinitions(start, before) && KeepsDefinitions(before, after)
    requires Registered(nodes[i], forName, table, before, after)
    ensures KeepsDefinitions(start, after)
    ensures forall k :: 0 <= k <= i && IsElement(nodes[k], BEAN_ELEMENT) ==> Registered(nodes[k], forName, table, start, after)
  {
  }

  /** `loadBeanDefinition`: parse, validate and register one `<bean>`. */
  method LoadBeanDefinition(e: Node, forName: string -> Option<Class>, factory: DefaultListableBeanFactory) returns (o: Outcome)
    requires e.Element? && factory.Valid()
    modifies factory
    ensures factory.Valid() && OnlyDefinitionsChanged(factory)
    ensures o.Fail? ==> o.error == BeansException && unchanged(factory)
    ensures o.Pass? <==> LoadedDefinition(e, forName, factory.world.table).Ok?
                         && LoadedDefinition(e, forName, factory.world.table).value.0 !in old(factory.definitions)
    ensures o.Pass? ==> factory.definitionNames == old(factory.definitionNames) + [Attribute(e, ID_ATTRIBUTE)]
                        && factory.definitions == old(factory.definitions)[Attribute(e, ID_ATTRIBUTE) := LoadedDefinition(e, forName, factory.world.table).value.1]
    ensures o.Pass? ==> Registered(e, forName, factory.world.table, old(factory.definitions), factory.definitions)
                        && KeepsDefinitions(old(factory.definitions), factory.definitions)
  {
    var beanName := Attribute(e, ID_ATTRIBUTE);
    if |beanName| == 0 {
      return Fail(BeansException);
    }
    var bd := ParseBeanDefinition(e, forName);
    if bd.Err? {
      return Fail(bd.error);
    }
    o := Validate(bd.value, factory.world.table);
    if o.Fail? {
      return;
    }
    o := factory.RegisterBeanDefinition(beanName, bd.value);
  }

  /**
   * The walk over `nodes` has reached `i`: the ids of the `<bean>` elements before it were
   * appended to the names, each of those elements registered, and nothing defined at the
   * start lost.
   */
  predicate Progress(startNames: seq<string>, startDefs: map<string, BeanDefinition>,
                     names: seq<string>, defs: map<string, BeanDefinition>,
                     nodes: seq<Node>, i: nat, forName: string -> Option<Class>, table: ClassTable)
    requires i <= |nodes|
  {
    names == startNames + BeanIds(nodes[..i])
    && KeepsDefinitions(startDefs, defs)
    && forall k :: 0 <= k < i && IsElement(nodes[k], BEAN_ELEMENT) ==> Registered(nodes[k], forName, table, startDefs, defs)
  }

  /**
   * The walk over `nodes` stopped at the `<bean>` element `j`: the elements before it were
   * registered, and `j` either does not load (no id, no definition, or one that does not
   * validate) or its id is already defined.
   */
  predicate StoppedAt(startNames: seq<string>, startDefs: map<string, BeanDefinition>,
                      names: seq<string>, defs: map<string, BeanDefinition>,
                      nodes: seq<Node>, j: nat, forName: string -> Option<Class>, table: ClassTable)
  {
    j < |nodes| && IsElement(nodes[j], BEAN_ELEMENT)
    && Progress(startNames, startDefs, names, defs, nodes, j, forName, table)
    && (LoadedDefinition(nodes[j], forName, table).Err? || LoadedDefinition(nodes[j], forName, table).value.0 in defs)
  }

  /** One step of `registerBeanDefinitions`: a `<bean>` child is loaded, anything else skipped. */
  method RegisterChild(nodes: seq<Node>, i: nat, forName: string -> Option<Class>, factory: DefaultListableBeanFactory,
                       ghost startNames: seq<string>, ghost startDefs: map<string, BeanDefinition>)
    returns (o: Outcome)
    requires i < |nodes| && factory.Valid()
    requires Progress(startNames, startDefs, factory.definitionNames, factory.definitions, nodes, i, forName, factory.world.table)
    modifies factory
    ensures factory.Valid() && OnlyDefinitionsChanged(factory)
    ensures o.Fail? ==> o.error == BeansException
                        && StoppedAt(startNames, startDefs, factory.definitionNames, factory.definitions, nodes, i, forName, factory.world.table)
    ensures o.Pass? ==> Progress(startNames, startDefs, factory.definitionNames, factory.definitions, nodes, i + 1, forName, factory.world.table)
  {
    assert nodes[..i + 1] == nodes[..i] + [nodes[i]];
    assert nodes[..i + 1][..i] == nodes[..i];
    if !IsElement(nodes[i], BEAN_ELEMENT) {
      return Pass;
    }
    ghost var before := factory.definitions;
    o := LoadBeanDefinition(nodes[i], forName, factory);
    if o.Pass? {
      RegisteredKept(nodes, i, forName, factory.world.table, startDefs, before, factory.definitions);
    }
  }

  /**
   * `registerBeanDefinitions`: every `<bean>` child of the root element, in document order,
   * is loaded and registered; other children are ignored, and the first failure stops the
   * walk with the earlier beans left registered.
   */
  method RegisterBeanDefinitions(root: Node, forName: string -> Option<Class>, factory: DefaultListableBeanFactory)
    returns (o: Outcome)
    requires root.Element? && factory.Valid()
    modifies factory
    ensures factory.Valid() && OnlyDefinitionsChanged(factory)
    ensures old(factory.definitionNames) <= factory.definitionNames
    ensures KeepsDefinitions(old(factory.definitions), factory.definitions)
    ensures o.Fail? ==> o.error == BeansException
    ensures o.Fail? ==> exists j :: StoppedAt(old(factory.definitionNames), old(factory.definitions), factory.definitionNames,
                                             factory.definitions, root.children, j, forName, factory.world.table)
    ensures o.Pass? ==> factory.definitionNames == old(factory.definitionNames) + BeanIds(root.children)
    ensures o.Pass? ==> forall k :: 0 <= k < |root.children| && IsElement(root.children[k], BEAN_ELEMENT) ==>
      Registered(root.children[k], forName, factory.world.table, old(factory.definitions), factory.definitions)
  {
    var nodes := root.children;
    for i := 0 to |nodes|
      invariant factory.Valid() && OnlyDefinitionsChanged(factory)
      invariant Progress(old(factory.definitionNames), old(factory.definitions), factory.definitionNames, factory.definitions,
                         nodes, i, forName, factory.world.table)
    {
      o := RegisterChild(nodes, i, forName, factory, old(factory.definitionNames), old(factory.definitions));
      if o.Fail? {
        assert StoppedAt(old(factory.definitionNames), old(factory.definitions), factory.definitionNames,
                         factory.definitions, nodes, i, forName, factory.world.table);
        return;
      }
    }
    assert nodes[..|nodes|] == nodes;
    return Pass;
  }
}
