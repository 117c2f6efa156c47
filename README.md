# tiny-spring in Dafny

A verified model of the core of tiny-spring, a small inversion-of-control container written
in Java: bean definitions and their XML parser, the listable bean factory with its
singleton cache, autowiring, value resolution and lifecycle callbacks, the property
editors and number utilities the factory uses for conversion, and the application context
that drives a refresh, its event multicaster and the context-aware post-processor.

## How the model is built

- **Modules follow the Java packages.**
  - `StringUtils`, `ClassUtils` and `NumberUtils` are the utility classes.
  - `PropertyValues`, `ConstructorArgs`, `BeanDefinitions` and `PropertyAccessor` are the definition model.
  - `EditorRegistry`, `BooleanEditor` and `NumberEditor` are the property editors.
  - `BeanFactory` is the three factory classes (`AbstractBeanFactory`, `AbstractAutowireCapableBeanFactory`, `DefaultListableBeanFactory`) folded into one class.
  - `XmlParser` is the XML parser.
  - `ContextAwareProcessor`, `Events`, `EditorConfigurer`, `Resources` and `Context` are the context side.
  - `Context` folds the three abstract context classes into `ClassPathXMLApplicationContext`.
- **Reflection becomes metadata.**
  - Classes are a `Class` datatype.
  - A `ClassTable` gives each application class its supertypes, public constructors and writable JavaBean properties.
  - Objects are opaque references with a class.
- **Java exceptions become error kinds.** Each is an `Exception` value inside `Result` or `Outcome`. `null` is `Option.None` or the `Null` value.
- **Code the container calls but does not own is a `World` of oracles.**
  - Setters, init and destroy methods, aware callbacks, user post-processors, `FactoryBean` methods and listeners are oracles.
  - `convertIfNecessary` of the bean wrapper is one too.
  - Every such call is appended to the factory's `log` of calls, and `world.outcome` says whether it returns or throws.
  - Properties about order ("the refreshed event is the last thing published", "processors run in the order they were added") are stated on that log.
- **Classes where Java mutates state in place.**
  - The factory, the mutable property and argument holders, the editors, the multicaster, the configurer and the context are `class`es whose methods state their whole new state.
  - Loops are methods with invariants, each proved against a specification function.
  - Pure Java code is functions and lemmas.
- **Recursion through `getBean` carries `fuel`.** Dependencies, references, constructor arguments and autowiring all recurse this way. Running out of fuel is a `StackOverflowError`, which is what the Java stack does on an unbounded chain.
- **Quirks are modelled as written.**
  - `getResolvedConfigLocations` drops locations that already carry `classpath:`.
  - `autowireConstructor` converts a held argument to the type of the parameter at the constructor's own index.
  - `equals` of `PropertyValue` dereferences a null value on one side.

## Model

| member | source | states |
|---|---|---|
| StringUtils.IndexFrom | src/main/java/com/archer/spring/utils/StringUtils.java:29-46 | `indexOf(p, from)`: -1, or a position at or after `from` where the pattern occurs |
| StringUtils.IndexFromIsFirst | src/main/java/com/archer/spring/utils/StringUtils.java:29-46 | the position found is the first occurrence at or after `from`; -1 means there is none |
| StringUtils.ReplaceAllNoMatch | src/main/java/com/archer/spring/utils/StringUtils.java:42-49 | with no further occurrence the rest of the input is copied unchanged |
| StringUtils.ReplaceAllNextMatch | src/main/java/com/archer/spring/utils/StringUtils.java:42-47 | one loop step: the text up to the next occurrence, the new pattern, then the rest after the occurrence |
| StringUtils.Replace | src/main/java/com/archer/spring/utils/StringUtils.java:25-51 | the input is returned as is when it or the old pattern is empty or null, or the new pattern is null; otherwise the result is the left-to-right replacement of every non-overlapping occurrence |
| StringUtils.ReplaceStep | src/main/java/com/archer/spring/utils/StringUtils.java:43-46 | the builder plus the replacement of the rest is preserved by one iteration of the loop |
| StringUtils.ReplaceWithoutOccurrence | src/main/java/com/archer/spring/utils/StringUtils.java:29-32 | when the old pattern does not occur the input comes back unchanged |
| StringUtils.ReplaceAllLength | src/main/java/com/archer/spring/utils/StringUtils.java:40-50 | the result's length is the input's plus, per replaced occurrence, the difference of the pattern lengths |
| StringUtils.ReplaceAllSelf | src/main/java/com/archer/spring/utils/StringUtils.java:40-50 | replacing a pattern by itself gives back the input |
| StringUtils.HasLength | src/main/java/com/archer/spring/utils/StringUtils.java:18 | a non-null, non-empty string; its partner is `StrippedHasLength` |
| StringUtils.Trim | src/main/java/com/archer/spring/utils/StringUtils.java:62 | `String.trim`: no leading or trailing whitespace, no longer than the input, only its characters |
| StringUtils.TrimOfTrimmed | src/main/java/com/archer/spring/utils/StringUtils.java:62 | trimming a trimmed string changes nothing |
| StringUtils.RunLength | src/main/java/com/archer/spring/utils/StringUtils.java:57-60 | the length of a token: a run of non-delimiters ended by a delimiter or the end |
| StringUtils.Tokens | src/main/java/com/archer/spring/utils/StringUtils.java:57-60 | the tokenizer's tokens are non-empty and contain no delimiter |
| StringUtils.TokensInOrder | src/main/java/com/archer/spring/utils/StringUtils.java:57-60 | the tokens, concatenated in order, are exactly the input's non-delimiter characters |
| StringUtils.KeptTokens | src/main/java/com/archer/spring/utils/StringUtils.java:60-66 | with `trimTokens` every token is trimmed, with `ignoreEmptyTokens` none is empty, untrimmed tokens are tokenizer tokens, and no character is invented |
| StringUtils.Split | src/main/java/com/archer/spring/utils/StringUtils.java:56-69 | the loop returns the tokenizer's tokens in order, each trimmed and filtered as the flags ask |
| StringUtils.SplitTokensHaveNoDelimiter | src/main/java/com/archer/spring/utils/StringUtils.java:56-69 | no token returned by `split` contains a delimiter character |
| StringUtils.TrimAllWhitespace | src/main/java/com/archer/spring/utils/StringUtils.java:74-88 | null and "" come back unchanged; otherwise exactly the non-whitespace characters, in their order |
| StringUtils.TrimAllWhitespaceIdempotent | src/main/java/com/archer/spring/utils/StringUtils.java:79-87 | the result has no whitespace and stripping it again changes nothing |
| StringUtils.StrippedHasLength | src/main/java/com/archer/spring/utils/StringUtils.java:18 | `hasLength` of the whitespace-stripped text holds exactly when the text has a character that is not whitespace |
| StringUtils.FilterIdempotent | src/main/java/com/archer/spring/utils/StringUtils.java:81-86 | keeping the characters a test accepts, twice, is the same as once |
| ClassUtils.WrapperTableIsExact | src/main/java/com/archer/spring/utils/ClassUtils.java:59-70 | the wrapper table holds exactly the eight wrapper classes, each mapped to its own primitive |
| ClassUtils.IsAssignable | src/main/java/com/archer/spring/utils/ClassUtils.java:83-88 | a null type gives NullPointerException; otherwise true iff the left type is a supertype of the right or the primitive the right one wraps |
| ClassUtils.IsAssignableReflexive | src/main/java/com/archer/spring/utils/ClassUtils.java:83-88 | every type is assignable from itself |
| ClassUtils.PrimitiveAcceptsOnlyItsWrapper | src/main/java/com/archer/spring/utils/ClassUtils.java:83-88 | a primitive type accepts exactly itself and its own wrapper |
| ClassUtils.IsAssignableValue | src/main/java/com/archer/spring/utils/ClassUtils.java:75-78 | a null type is rejected; a null value fits iff the type is not primitive; a non-null value fits as its class does under `isAssignable` |
| ClassUtils.IsPrimitiveWrapper | src/main/java/com/archer/spring/utils/ClassUtils.java:93-96 | null is rejected; otherwise true iff the class is one of the wrappers |
| ClassUtils.IsPrimitiveOrWrapper | src/main/java/com/archer/spring/utils/ClassUtils.java:101-104 | null is rejected; otherwise true iff primitive or `isPrimitiveWrapper` |
| ClassUtils.IsSimpleProperty | src/main/java/com/archer/spring/utils/ClassUtils.java:109-112 | null is rejected; otherwise true iff primitive or `String` |
| ClassUtils.NullTypeRejected | src/main/java/com/archer/spring/utils/ClassUtils.java:76-111 | every predicate rejects a null type argument |
| NumberUtils.Wrap64 | src/main/java/com/archer/spring/utils/NumberUtils.java:64 | `longValue()` of a wide integer: 64-bit two's-complement wrap-around, the identity inside the `long` range |
| NumberUtils.Clamp64 | src/main/java/com/archer/spring/utils/NumberUtils.java:154 | the integral part of a floating value, saturated to the `long` range, the identity inside it |
| NumberUtils.LongValue | src/main/java/com/archer/spring/utils/NumberUtils.java:154 | `number.longValue()` lies in the `long` range and is the value itself when that fits |
| NumberUtils.CheckedLongValue | src/main/java/com/archer/spring/utils/NumberUtils.java:142-155 | fails with the overflow error iff a BigInteger or BigDecimal lies outside the `long` range; otherwise it is `longValue()` |
| NumberUtils.ConvertNumberToTargetClass | src/main/java/com/archer/spring/utils/NumberUtils.java:32-76 | every success is a well-formed number of the target class, every failure is IllegalArgumentException |
| NumberUtils.ConvertToOwnClass | src/main/java/com/archer/spring/utils/NumberUtils.java:37-38 | a number already of the target class comes back unchanged |
| NumberUtils.ConvertFixedRange | src/main/java/com/archer/spring/utils/NumberUtils.java:39-59 | for Byte, Short, Integer and Long targets an integral value inside the target's range is kept and one outside it is an overflow error |
| NumberUtils.BigOutsideLongRejected | src/main/java/com/archer/spring/utils/NumberUtils.java:142-155 | a BigInteger or BigDecimal outside the `long` range is rejected for every Byte, Short, Integer and Long target |
| NumberUtils.ConvertUnsupportedTarget | src/main/java/com/archer/spring/utils/NumberUtils.java:72-75 | a target class outside the supported list raises IllegalArgumentException |
| NumberUtils.ParseSigned | src/main/java/com/archer/spring/utils/NumberUtils.java:96 | `new BigInteger(text, radix)`: an optional sign then digits of the radix; anything else is NumberFormatException |
| NumberUtils.ValueOf | src/main/java/com/archer/spring/utils/NumberUtils.java:88-94 | `Byte.valueOf` and its siblings: a decimal value of the target's kind within its range, or NumberFormatException |
| NumberUtils.Decode | src/main/java/com/archer/spring/utils/NumberUtils.java:88-94 | `Byte.decode` and its siblings: a value of the target's kind, or NumberFormatException |
| NumberUtils.DecodeBigInteger | src/main/java/com/archer/spring/utils/NumberUtils.java:167-194 | the result of decoding, or NumberFormatException for malformed digits |
| NumberUtils.DecodeBigIntegerHex | src/main/java/com/archer/spring/utils/NumberUtils.java:179-186 | after "0x" or "#" the digits are read in radix 16 |
| NumberUtils.DecodeBigIntegerOctal | src/main/java/com/archer/spring/utils/NumberUtils.java:187-190 | a leading 0 followed by more characters selects radix 8 |
| NumberUtils.DecodeBigIntegerNegated | src/main/java/com/archer/spring/utils/NumberUtils.java:173-193 | a leading '-' negates whatever the rest decodes to, and keeps its errors |
| NumberUtils.ParseNumber | src/main/java/com/archer/spring/utils/NumberUtils.java:82-107 | null text or class gives NullPointerException; a success is a number of the target class; an unsupported class gives IllegalArgumentException |
| NumberUtils.ParseNumberIgnoresWhitespace | src/main/java/com/archer/spring/utils/NumberUtils.java:85 | parsing strips all whitespace first, so the text and its stripped form parse alike |
| NumberUtils.Digits | src/main/java/com/archer/spring/utils/NumberUtils.java:96 | the decimal digits of a natural number, without a leading zero, read back as that number |
| NumberUtils.DecimalStringChars | src/main/java/com/archer/spring/utils/NumberUtils.java:96 | `toString()` of an integer consists of '-' and decimal digits only |
| NumberUtils.IsHexNumber | src/main/java/com/archer/spring/utils/NumberUtils.java:162-165 | after an optional leading `-`, the text starts with `0x`, `0X` or `#`; its partner is `DecimalStringNotHex` |
| NumberUtils.DecimalStringNotHex | src/main/java/com/archer/spring/utils/NumberUtils.java:162-165 | `toString()` of an integer is never taken for a hex number |
| NumberUtils.ParseSignedDecimal | src/main/java/com/archer/spring/utils/NumberUtils.java:96 | `toString()` of an integer parses back to it |
| NumberUtils.ParseNumberPlain | src/main/java/com/archer/spring/utils/NumberUtils.java:87-96 | stripped text that is not hex dispatches to `valueOf` for fixed targets and to decimal `BigInteger` parsing |
| NumberUtils.ParsePlainDecimal | src/main/java/com/archer/spring/utils/NumberUtils.java:82-96 | plain decimal text of a number parses to that number in its own class |
| NumberUtils.ParseDecimalString | src/main/java/com/archer/spring/utils/NumberUtils.java:82-96 | `parseNumber(n.toString(), n's class)` gives back n for every integral number |
| PropertyValues.NewPropertyValue | src/main/java/com/archer/spring/factory/PropertyValue.java:33-37 | a null name is NullPointerException; otherwise the pair keeps exactly the given name and value |
| PropertyValues.Equals | src/main/java/com/archer/spring/factory/PropertyValue.java:53-63 | equal iff the names are equal and the values both null or equal; a null value of its own against a non-null one dereferences null |
| PropertyValues.EqualsReflexive | src/main/java/com/archer/spring/factory/PropertyValue.java:54-56 | every pair equals itself |
| PropertyValues.Wrap32 | src/main/java/com/archer/spring/factory/PropertyValue.java:67 | `int` arithmetic of the hash wraps into the 32-bit range |
| PropertyValues.StringHash | src/main/java/com/archer/spring/factory/PropertyValue.java:66-68 | `String.hashCode` of the name, always a Java `int` |
| PropertyValues.HashCode | src/main/java/com/archer/spring/factory/PropertyValue.java:66-68 | the hash is a Java `int`; equal property values hash equally (`EqualsImpliesEqualHash`) |
| PropertyValues.EqualsImpliesEqualHash | src/main/java/com/archer/spring/factory/PropertyValue.java:53-68 | equal pairs have equal hash codes, given value hashes that agree with value equality |
| PropertyValues.IndexOfName | src/main/java/com/archer/spring/factory/MutablePropertyValues.java:42-49 | the first index holding the name, or -1 exactly when no entry has it |
| PropertyValues.AddReplacesInPlace | src/main/java/com/archer/spring/factory/MutablePropertyValues.java:42-49 | adding a present name replaces the entry at its first position; length and every other entry stay |
| PropertyValues.AddAppendsNewName | src/main/java/com/archer/spring/factory/MutablePropertyValues.java:51 | adding a new name appends it at the end |
| PropertyValues.AddKeepsNamesDistinct | src/main/java/com/archer/spring/factory/MutablePropertyValues.java:41-52 | names stay pairwise distinct under `addPropertyValue` |
| PropertyValues.LookupAfterAdd | src/main/java/com/archer/spring/factory/MutablePropertyValues.java:41-73 | after adding a pair, looking up its name returns that pair |
| PropertyValues.LookupOthersAfterAdd | src/main/java/com/archer/spring/factory/MutablePropertyValues.java:41-73 | adding a pair does not change what any other name looks up to |
| PropertyValues.CopyKeepsEntries | src/main/java/com/archer/spring/factory/MutablePropertyValues.java:27-33 | copying a list with distinct names gives the same entries in the same order |
| PropertyValues.MutablePropertyValues.constructor | src/main/java/com/archer/spring/factory/MutablePropertyValues.java:25 | a new list is empty |
| PropertyValues.MutablePropertyValues.Copy | src/main/java/com/archer/spring/factory/MutablePropertyValues.java:27-33 | copying null gives an empty list; copying a list adds its entries one by one, in order, into a new object |
| PropertyValues.MutablePropertyValues.AddPropertyValue | src/main/java/com/archer/spring/factory/MutablePropertyValues.java:41-52 | the list becomes the old one with the pair added (replace in place or append) |
| PropertyValues.MutablePropertyValues.SetPropertyValueAtIndex | src/main/java/com/archer/spring/factory/MutablePropertyValues.java:59-61 | an index outside the list is IndexOutOfBoundsException and changes nothing; otherwise only that entry is replaced |
| PropertyValues.MutablePropertyValues.GetPropertyValue | src/main/java/com/archer/spring/factory/MutablePropertyValues.java:66-73 | the first entry with the name, or null exactly when no entry has it |
| PropertyValues.MutablePropertyValues.GetPropertyValues | src/main/java/com/archer/spring/factory/MutablePropertyValues.java:78-80 | all entries in their order |
| PropertyValues.MutablePropertyValues.Contains | src/main/java/com/archer/spring/factory/MutablePropertyValues.java:85-87 | true iff `getPropertyValue` finds the name |
| ConstructorArgs.IndexedMatch | src/main/java/com/archer/spring/factory/ConstructorArgumentValues.java:50-58 | a holder is found iff the index is present and the holder is untyped or names the required type; it is then that holder |
| ConstructorArgs.TypedHolderMatchesOnlyByName | src/main/java/com/archer/spring/factory/ConstructorArgumentValues.java:53-86 | a typed holder whose type name differs from the required type matches neither lookup |
| ConstructorArgs.UntypedListFitsArray | src/main/java/com/archer/spring/factory/ConstructorArgumentValues.java:92 | an untyped list value fits any required array type |
| ConstructorArgs.ConstructorArgumentValues.constructor | src/main/java/com/archer/spring/factory/ConstructorArgumentValues.java:18-20 | both collections start empty |
| ConstructorArgs.ConstructorArgumentValues.AddIndexedArgumentValue | src/main/java/com/archer/spring/factory/ConstructorArgumentValues.java:35-44 | the holder is put at the index, overwriting any holder there; the generic set is unchanged |
| ConstructorArgs.ConstructorArgumentValues.AddGenericArgumentValue | src/main/java/com/archer/spring/factory/ConstructorArgumentValues.java:63-72 | a fresh holder is added, so the generic collection grows by exactly one; the indexed map is unchanged |
| ConstructorArgs.ConstructorArgumentValues.GetIndexedArgumentValue | src/main/java/com/archer/spring/factory/ConstructorArgumentValues.java:50-58 | the indexed match as defined by `IndexedMatch` |
| ConstructorArgs.ConstructorArgumentValues.GetGenericArgumentValue | src/main/java/com/archer/spring/factory/ConstructorArgumentValues.java:77-97 | some held value that fits (type name match, or untyped and an instance, or a list for an array); null iff none fits |
| ConstructorArgs.ConstructorArgumentValues.GetArgumentValue | src/main/java/com/archer/spring/factory/ConstructorArgumentValues.java:104-110 | the indexed match when there is one, otherwise a fitting generic holder; null iff neither exists |
| ConstructorArgs.ConstructorArgumentValues.GetNumberOfArguments | src/main/java/com/archer/spring/factory/ConstructorArgumentValues.java:115-117 | the number of indexed plus generic holders |
| ConstructorArgs.ConstructorArgumentValues.IsEmpty | src/main/java/com/archer/spring/factory/ConstructorArgumentValues.java:122-124 | true iff both collections are empty, i.e. iff the count is 0 |
| ConstructorArgs.IndexedLookupAfterAdd | src/main/java/com/archer/spring/factory/ConstructorArgumentValues.java:35-58 | after adding at an index, the lookup there finds the new holder exactly when its type fits; the map grows only for a new index |
| BeanDefinitions.NewBeanDefinition | src/main/java/com/archer/spring/factory/config/BeanDefinition.java:43-71 | a null class is rejected; a new definition is singleton, eager, AUTOWIRE_NO, with no depends-on, init or destroy names, and exactly the given values |
| BeanDefinitions.Validate | src/main/java/com/archer/spring/factory/config/BeanDefinition.java:171-188 | fails, always with BeansException, iff lazy and not singleton, or a prototype FactoryBean, or a class without public constructors |
| BeanDefinitions.GetResolvedAutowireMode | src/main/java/com/archer/spring/factory/config/BeanDefinition.java:193-208 | the loop over the constructors computes the resolved mode |
| BeanDefinitions.ResolvedModeIsConcrete | src/main/java/com/archer/spring/factory/config/BeanDefinition.java:193-208 | the resolved mode is never AUTODETECT; AUTODETECT becomes BY_TYPE iff some public constructor has no parameters, CONSTRUCTOR otherwise |
| BeanDefinitions.HasConstructorArgumentValues | src/main/java/com/archer/spring/factory/config/BeanDefinition.java:213-215 | true iff the holder is present and not empty |
| PropertyAccessor.FirstEscaping | src/main/java/com/archer/spring/factory/PropertyAccessor.java:51-58 | the index of the first assignment whose failure escapes the loop (every failure when strict, only non-Java errors when lenient), or the length when none does |
| PropertyAccessor.SetPropertyValues | src/main/java/com/archer/spring/factory/PropertyAccessor.java:35-60 | entries are assigned in list order, each as `setPropertyValue(name, value)`; the loop stops right after the first escaping failure and returns it, otherwise it passes |
| PropertyAccessor.SetAllPropertyValues | src/main/java/com/archer/spring/factory/PropertyAccessor.java:42-44 | the one-argument form is the strict form |
| PropertyAccessor.StrictStopsAtFirstFailure | src/main/java/com/archer/spring/factory/PropertyAccessor.java:54-58 | when strict, the first failing assignment is the one that propagates, and nothing after it is attempted |
| PropertyAccessor.LenientAttemptsAll | src/main/java/com/archer/spring/factory/PropertyAccessor.java:54-58 | when lenient, every entry is attempted and every Java exception is swallowed |
| EditorRegistry.FindDefaultEditor | src/main/java/com/archer/spring/factory/PropertyEditorRegistrySupport.java:72-74 | the default editor registered for exactly that type, or null |
| EditorRegistry.DefaultEditorsAllowEmpty | src/main/java/com/archer/spring/factory/PropertyEditorRegistrySupport.java:26-47 | every primitive but `char` has a Boolean or Number editor that refuses empty text, its wrapper one that accepts it, each number editor targets the wrapper class; BigDecimal and BigInteger accept empty text |
| EditorRegistry.PropertyEditorRegistry.constructor | src/main/java/com/archer/spring/factory/PropertyEditorRegistrySupport.java:50 | no custom editors at first |
| EditorRegistry.PropertyEditorRegistry.RegisterCustomEditor | src/main/java/com/archer/spring/factory/PropertyEditorRegistrySupport.java:53-58 | a null type fails with IllegalArgumentException and changes nothing; otherwise the editor replaces any earlier one for that exact type |
| EditorRegistry.PropertyEditorRegistry.ContainsCustomEditor | src/main/java/com/archer/spring/factory/PropertyEditorRegistrySupport.java:60-62 | true iff an editor was registered for the type |
| EditorRegistry.PropertyEditorRegistry.FindCustomEditor | src/main/java/com/archer/spring/factory/PropertyEditorRegistrySupport.java:65-67 | the editor last registered for exactly that type, or null |
| BooleanEditor.ParseBoolean | src/main/java/com/archer/spring/factory/propertyeditor/CustomBooleanEditor.java:56-76 | after trimming: null exactly when empty input is allowed and the text has no non-whitespace character; otherwise the words decide in the source's order: a case-insensitive match of the custom true word gives TRUE, else of the custom false word FALSE, else a built-in true word (when no custom true word is set) TRUE, else a built-in false word (when no custom false word is set) FALSE, else IllegalArgumentException; conversely TRUE and FALSE come only from those words |
| BooleanEditor.EqualsIgnoreCaseSymmetric | src/main/java/com/archer/spring/factory/propertyeditor/CustomBooleanEditor.java:61-71 | `equalsIgnoreCase` is symmetric |
| BooleanEditor.EqualsIgnoreCaseReflexive | src/main/java/com/archer/spring/factory/propertyeditor/CustomBooleanEditor.java:61-71 | `equalsIgnoreCase` is reflexive |
| BooleanEditor.BuiltInTrueWordParses | src/main/java/com/archer/spring/factory/propertyeditor/CustomBooleanEditor.java:65-68 | with no custom words, "true", "on", "yes" in any letter case and "1" all parse to TRUE |
| BooleanEditor.BuiltInFalseWordParses | src/main/java/com/archer/spring/factory/propertyeditor/CustomBooleanEditor.java:69-72 | with no custom words, "false", "off", "no" in any letter case and "0" all parse to FALSE, none of them being a TRUE word |
| BooleanEditor.BlanksAroundWordIgnored | src/main/java/com/archer/spring/factory/propertyeditor/CustomBooleanEditor.java:57-68 | the text is trimmed before the comparison: " YeS " parses to TRUE |
| BooleanEditor.BuiltInWordIsVisible | src/main/java/com/archer/spring/factory/propertyeditor/CustomBooleanEditor.java:19-33 | every built-in word is made of visible characters, so trimming leaves it as it is |
| BooleanEditor.TextRoundTrip | src/main/java/com/archer/spring/factory/propertyeditor/CustomBooleanEditor.java:56-89 | with non-blank, trimmed custom words that do not collide, `setAsText(getAsText())` gives back the boolean |
| BooleanEditor.CustomBooleanEditor.constructor | src/main/java/com/archer/spring/factory/propertyeditor/CustomBooleanEditor.java:44-52 | keeps the two words and the empty flag; the value starts null |
| BooleanEditor.CustomBooleanEditor.SetAsText | src/main/java/com/archer/spring/factory/propertyeditor/CustomBooleanEditor.java:56-76 | stores the parsed value, or fails with the parse error and keeps the old value |
| BooleanEditor.CustomBooleanEditor.GetAsText | src/main/java/com/archer/spring/factory/propertyeditor/CustomBooleanEditor.java:79-89 | TRUE and FALSE render as the custom word or "true"/"false", anything else as "" |
| NumberEditor.CustomNumberEditor.Init | src/main/java/com/archer/spring/factory/propertyeditor/CustomNumberEditor.java:42-44 | keeps the class and the empty flag; the value starts null |
| NumberEditor.CustomNumberEditor.New | src/main/java/com/archer/spring/factory/propertyeditor/CustomNumberEditor.java:30-45 | fails with IllegalArgumentException iff the class is not a `Number` subtype; otherwise a new editor for that class |
| NumberEditor.CustomNumberEditor.SetValue | src/main/java/com/archer/spring/factory/propertyeditor/CustomNumberEditor.java:60-66 | a number is stored converted to the editor's class, or the conversion error is raised and the value kept; anything else is stored unchanged |
| NumberEditor.CustomNumberEditor.SetAsText | src/main/java/com/archer/spring/factory/propertyeditor/CustomNumberEditor.java:48-57 | with empty input allowed, null or "" stores null (whitespace is not empty); otherwise the text is parsed into the editor's class and stored, or the parse error is raised and the value kept |
| NumberEditor.CustomNumberEditor.GetAsText | src/main/java/com/archer/spring/factory/propertyeditor/CustomNumberEditor.java:69-79 | "" for null, the decimal `toString()` of a number, and the value's own `toString()` otherwise |
| NumberEditor.TextRoundTrip | src/main/java/com/archer/spring/factory/propertyeditor/CustomNumberEditor.java:48-79 | the text an integral number renders to is non-empty and parses back to that number |
| Runtime.Wrap | src/main/java/com/archer/spring/factory/support/AbstractAutowireCapableBeanFactory.java:77-79 | a Java exception becomes BeansException; other errors pass through |
| Runtime.StopsAt | src/main/java/com/archer/spring/factory/support/AbstractAutowireCapableBeanFactory.java:67-79 | a run of calls stops at the first that throws and reports its error |
| Runtime.RunsThrough | src/main/java/com/archer/spring/factory/support/AbstractAutowireCapableBeanFactory.java:67-79 | when no call throws, every call is made and the run passes |
| Runtime.RunAppend | src/main/java/com/archer/spring/factory/support/AbstractAutowireCapableBeanFactory.java:67-79 | running two lists in a row is running the first, then the second only if the first passed |
| Runtime.PassedAll | src/main/java/com/archer/spring/factory/support/AbstractAutowireCapableBeanFactory.java:67-79 | a run that passed made every call |
| FactoryStates.GrewTrans | src/main/java/com/archer/spring/factory/support/AbstractBeanFactory.java:75-113 | two factory changes of the kind `getBean` makes add up to one |
| FactoryStates.PublishGrew | src/main/java/com/archer/spring/factory/support/AbstractBeanFactory.java:102 | caching an object under a singleton definition is such a change |
| FactoryStates.CallsGrew | src/main/java/com/archer/spring/factory/support/AbstractAutowireCapableBeanFactory.java:67-79 | making calls into beans is such a change |
| SortedNames.LessIrreflexive | src/main/java/com/archer/spring/factory/support/AbstractAutowireCapableBeanFactory.java:287 | `compareTo` order is irreflexive |
| SortedNames.LessTotal | src/main/java/com/archer/spring/factory/support/AbstractAutowireCapableBeanFactory.java:287 | `compareTo` order is total and asymmetric |
| SortedNames.LessTransitive | src/main/java/com/archer/spring/factory/support/AbstractAutowireCapableBeanFactory.java:287 | `compareTo` order is transitive |
| SortedNames.Insert | src/main/java/com/archer/spring/factory/support/AbstractAutowireCapableBeanFactory.java:293 | `TreeSet.add` keeps the set ascending, adds exactly the element, and ignores a duplicate |
| SortedNames.AscendingUnique | src/main/java/com/archer/spring/factory/support/AbstractAutowireCapableBeanFactory.java:287-296 | an ascending list is determined by its elements, so the `TreeSet` order is unique |
| Values.ValueEqualsReflexive | src/main/java/com/archer/spring/factory/PropertyValue.java:61-62 | value equality is reflexive |
| Values.ResolvedIsPlain | src/main/java/com/archer/spring/factory/support/AbstractAutowireCapableBeanFactory.java:353-392 | resolving a declared value leaves no reference and no managed list in it |
| Classes.ImplementsIsAssignable | src/main/java/com/archer/spring/factory/support/AbstractBeanFactory.java:257 | `instanceof` an interface is assignability to it |
| Lifecycle.BeforeCallsSnoc | src/main/java/com/archer/spring/factory/support/AbstractAutowireCapableBeanFactory.java:129-131 | one more processor adds its own calls at the end of the before-phase |
| Lifecycle.BeforeCallsAppend | src/main/java/com/archer/spring/factory/support/AbstractAutowireCapableBeanFactory.java:129-131 | the before-phase of two processor lists is the first's calls, then the second's |
| Lifecycle.AfterCallsAppend | src/main/java/com/archer/spring/factory/support/AbstractAutowireCapableBeanFactory.java:138-140 | the after-phase of two processor lists is the first's calls, then the second's |
| Lifecycle.BeforePhaseIsSteps | src/main/java/com/archer/spring/factory/support/AbstractAutowireCapableBeanFactory.java:126-133 | the before-phase is the processors' calls in list order and returns the last answer, or the bean |
| Lifecycle.AfterPhaseIsSteps | src/main/java/com/archer/spring/factory/support/AbstractAutowireCapableBeanFactory.java:136-142 | the after-phase is the processors' calls in list order and returns the last answer, or the bean |
| Lifecycle.BeforePhaseSeesOriginal | src/main/java/com/archer/spring/factory/support/AbstractAutowireCapableBeanFactory.java:130 | every before-processor is handed the original bean, never a previous processor's answer |
| Lifecycle.AfterPhaseSeesOriginal | src/main/java/com/archer/spring/factory/support/AbstractAutowireCapableBeanFactory.java:139 | every after-processor is handed the original bean, never a previous processor's answer |
| Lifecycle.NoProcessorsKeepBean | src/main/java/com/archer/spring/factory/support/AbstractAutowireCapableBeanFactory.java:66-81 | with no processors the bean comes back unchanged, after the aware and init calls only |
| Lifecycle.AwareProcessorsKeepBean | src/main/java/com/archer/spring/context/support/ApplicationContextAwareProcessor.java:41-47 | aware processors return the bean unchanged and make no after-phase calls |
| ContextAwareProcessor.BeforeCallbacksHandOverContext | src/main/java/com/archer/spring/context/support/ApplicationContextAwareProcessor.java:23-39 | every callback goes to the bean and hands over the context given at construction |
| ContextAwareProcessor.BeforeCallbacksAreFiltered | src/main/java/com/archer/spring/context/support/ApplicationContextAwareProcessor.java:30-42 | the callbacks are `setResourceLoader`, `setApplicationEventPublisher`, `setApplicationContext`, in that order, keeping those whose interface the bean implements |
| ContextAwareProcessor.WantedByInterface | src/main/java/com/archer/spring/context/support/ApplicationContextAwareProcessor.java:31-39 | each callback is made exactly when the bean implements its interface |
| ContextAwareProcessor.BeforeCallbacks | src/main/java/com/archer/spring/context/support/ApplicationContextAwareProcessor.java:30-42 | at most three callbacks, each the setter of an aware interface the bean implements |
| ContextAwareProcessor.AfterCallbacks | src/main/java/com/archer/spring/context/support/ApplicationContextAwareProcessor.java:45-47 | no callback is made after initialisation |
| BeanFactory.Stripped | src/main/java/com/archer/spring/factory/support/AbstractBeanFactory.java:241-250 | a name with the "&" prefix loses exactly that prefix; any other name is unchanged |
| BeanFactory.PrefixRoundTrip | src/main/java/com/archer/spring/factory/support/AbstractBeanFactory.java:241-250 | stripping "&" + name gives back the name |
| BeanFactory.SharedResult | src/main/java/com/archer/spring/factory/support/AbstractBeanFactory.java:255-279 | "&name" yields the factory bean itself and fails for a non-factory; a plain name yields a non-factory as is, and a factory's product, failing when `getObject` throws or returns null |
| BeanFactory.NamesOfType | src/main/java/com/archer/spring/factory/support/DefaultListableBeanFactory.java:98-107 | the registered names whose class is assignable to the type (all of them for null), in registration order |
| BeanFactory.NamesOfAnyType | src/main/java/com/archer/spring/factory/support/DefaultListableBeanFactory.java:93-95 | with a null type every registered name is returned, in order |
| BeanFactory.DistinctCount | src/main/java/com/archer/spring/factory/support/DefaultListableBeanFactory.java:88-90 | a duplicate-free list has as many distinct names as entries |
| BeanFactory.CountOfDistinct | src/main/java/com/archer/spring/factory/support/DefaultListableBeanFactory.java:59-90 | when the name list matches the map keys one to one, the map's size is the number of registrations |
| BeanFactory.SetterCalls | src/main/java/com/archer/spring/factory/support/AbstractAutowireCapableBeanFactory.java:312 | one setter call per entry, in order, on the bean |
| BeanFactory.SettersAtEnd | src/main/java/com/archer/spring/factory/support/AbstractAutowireCapableBeanFactory.java:302-313 | after the resolved entries are set, the log ends with setter calls for every entry, in order, each with a resolution of the declared value |
| BeanFactory.DefaultListableBeanFactory.constructor | src/main/java/com/archer/spring/factory/support/DefaultListableBeanFactory.java:25-32 | a new factory has no definitions, no singletons, no processors, editors or registrars |
| BeanFactory.DefaultListableBeanFactory.Invoke | src/main/java/com/archer/spring/factory/support/AbstractAutowireCapableBeanFactory.java:67-79 | one call into application code: it is logged and answers as the world says |
| BeanFactory.DefaultListableBeanFactory.Perform | src/main/java/com/archer/spring/factory/support/AbstractAutowireCapableBeanFactory.java:67-79 | calls made in order until one throws: the log gains exactly the calls attempted and the outcome is that of the run |
| BeanFactory.DefaultListableBeanFactory.InstantiateClass | src/main/java/com/archer/spring/utils/ClassUtils.java:40-46 | without a public no-argument constructor BeansException and nothing changes; otherwise the constructor is called and a success is a new object of that class |
| BeanFactory.DefaultListableBeanFactory.Construct | src/main/java/com/archer/spring/utils/ClassUtils.java:51-57 | the selected constructor is called with the arguments; a success is a new object of that class with a new identity |
| BeanFactory.DefaultListableBeanFactory.RegisterBeanDefinition | src/main/java/com/archer/spring/factory/support/DefaultListableBeanFactory.java:58-64 | an existing name fails with BeansException and changes nothing; otherwise the name is appended to the list and the definition put in the map; nothing else changes and the list stays duplicate-free, matching the map keys |
| BeanFactory.DefaultListableBeanFactory.GetBeanDefinition | src/main/java/com/archer/spring/factory/support/DefaultListableBeanFactory.java:37-43 | the registered definition, and BeansException exactly for an unknown name |
| BeanFactory.DefaultListableBeanFactory.ContainsBeanDefinition | src/main/java/com/archer/spring/factory/support/DefaultListableBeanFactory.java:46-48 | true iff the name is registered |
| BeanFactory.DefaultListableBeanFactory.GetBeanDefinitionCount | src/main/java/com/archer/spring/factory/support/DefaultListableBeanFactory.java:88-90 | the size of the map, equal to the number of registered names |
| BeanFactory.DefaultListableBeanFactory.GetBeanDefinitionNames | src/main/java/com/archer/spring/factory/support/DefaultListableBeanFactory.java:98-107 | the loop returns the names of the given type in registration order |
| BeanFactory.DefaultListableBeanFactory.RegisterSingleton | src/main/java/com/archer/spring/factory/support/AbstractBeanFactory.java:172-182 | fails with BeansException iff the name starts with "&" or is cached, changing nothing; otherwise exactly that entry is added |
| BeanFactory.DefaultListableBeanFactory.ContainsBean | src/main/java/com/archer/spring/factory/support/AbstractBeanFactory.java:126-135 | true iff the stripped name is cached or defined; nothing is created |
| BeanFactory.DefaultListableBeanFactory.IsSingleton | src/main/java/com/archer/spring/factory/support/AbstractBeanFactory.java:138-151 | true for a cached name; otherwise the definition's flag, and BeansException for an unknown name; nothing is created |
| BeanFactory.DefaultListableBeanFactory.GetSingletonNames | src/main/java/com/archer/spring/factory/support/AbstractBeanFactory.java:218-227 | the cached names whose object is of the type (all of them for null) |
| BeanFactory.DefaultListableBeanFactory.AddBeanPostProcessor | src/main/java/com/archer/spring/factory/support/AbstractBeanFactory.java:167-169 | the processor is appended at the end; nothing else changes |
| BeanFactory.DefaultListableBeanFactory.AddPropertyEditorRegistrar | src/main/java/com/archer/spring/factory/support/AbstractBeanFactory.java:156-158 | the registrar is added to the set; nothing else changes |
| BeanFactory.DefaultListableBeanFactory.RegisterCustomEditor | src/main/java/com/archer/spring/factory/support/AbstractBeanFactory.java:161-164 | on success an editor of the given class is stored for exactly that type; without a public no-argument constructor it fails; definitions, cache and processors are untouched |
| BeanFactory.DefaultListableBeanFactory.GetObjectForSharedInstance | src/main/java/com/archer/spring/factory/support/AbstractBeanFactory.java:255-279 | the shared-instance rule of `SharedResult`; `getObject` is called only for a factory bean requested without "&" |
| BeanFactory.EarlyReference | src/main/java/com/archer/spring/factory/support/AbstractAutowireCapableBeanFactory.java:57-61 | a cached bean that is not a factory, requested by its name, is returned as it is and the cache is untouched: the early reference that lets circular references resolve |
| BeanFactory.ChainGrew | src/main/java/com/archer/spring/factory/support/AbstractBeanFactory.java:75-113 | a run of `getBean` requests only adds cache entries and never changes the configuration |
| BeanFactory.ChainCaches | src/main/java/com/archer/spring/factory/support/AbstractBeanFactory.java:75-113 | after a run of requests, every singleton named by a successful request is cached |
| BeanFactory.DefaultListableBeanFactory.GetBean | src/main/java/com/archer/spring/factory/support/AbstractBeanFactory.java:75-113 | a name cached without its prefix is served as the shared-instance result and the cache is left as it was; an unknown name is BeansException and nothing changes; out of fuel, an uncached definition is StackOverflowError with nothing changed; otherwise the creation is exactly `Creating`: the depends-on requests in order up to the first failure, then instantiation, early caching of a singleton, population and the lifecycle callbacks, each failure ending the creation with its error and the state it left; a singleton that succeeds is cached and served as a shared instance, a prototype is returned as is; configuration never changes |
| BeanFactory.DefaultListableBeanFactory.CreateUncached | src/main/java/com/archer/spring/factory/support/AbstractBeanFactory.java:89-110 | a defined, uncached name: the result and new state are exactly what `Creating` prescribes for its definition |
| BeanFactory.DefaultListableBeanFactory.CreateSingleton | src/main/java/com/archer/spring/factory/support/AbstractBeanFactory.java:91-106 | a singleton definition: `createBean` under the resolved name, exactly as `Creating` prescribes; a success is cached under that name and the answer is the shared-instance result for the requested name |
| BeanFactory.DefaultListableBeanFactory.CreatePrototype | src/main/java/com/archer/spring/factory/support/AbstractBeanFactory.java:107-110 | a prototype definition: `createBean` under the requested name, exactly as `Creating` prescribes, with its result returned as is and nothing cached for it |
| BeanFactory.DefaultListableBeanFactory.RequestBean | src/main/java/com/archer/spring/factory/support/AbstractBeanFactory.java:75-113 | the same `getBean` answer, recorded as a request from the state before to the state after that satisfies `Served` |
| BeanFactory.DefaultListableBeanFactory.FetchBean | src/main/java/com/archer/spring/factory/support/AbstractBeanFactory.java:75-113 | a `getBean` call recorded as a request from the state before to the state after, answered as `GotBean` promises |
| BeanFactory.DefaultListableBeanFactory.GetBeanOfType | src/main/java/com/archer/spring/factory/support/AbstractBeanFactory.java:117-123 | exactly one `getBean` request for the name, answered as `getBean` promises; its answer is the result unless it is an object not of the required type, which is BeansException; for a cached name the cache is untouched |
| BeanFactory.DefaultListableBeanFactory.CreateBean | src/main/java/com/archer/spring/factory/support/AbstractAutowireCapableBeanFactory.java:36-82 | `CreateBeanDid`: the depends-on names are requested in order, each request starting where the last ended; the first failed request ends creation with its error and nothing after it happens; otherwise the bean is built exactly as `Built` prescribes; a success is the lifecycle result for a new object of the definition's class, cached under its name when a singleton, the only cache entry that may be replaced |
| BeanFactory.DefaultListableBeanFactory.BuildBean | src/main/java/com/archer/spring/factory/support/AbstractAutowireCapableBeanFactory.java:45-81 | `Built`: the instance is made as `MadeInstance` prescribes and a failure there is the result with that state; a new singleton is cached under its name before population; a population failure is the result with the state population left; otherwise the lifecycle callbacks run as `Initialized` prescribes and give the result |
| BeanFactory.DefaultListableBeanFactory.PopulateAndInitialize | src/main/java/com/archer/spring/factory/support/AbstractAutowireCapableBeanFactory.java:63-81 | property population exactly as `Populated` prescribes; its failure is the result and nothing else happens; otherwise the lifecycle callbacks as `Initialized` prescribes, a success being the lifecycle result for the bean |
| BeanFactory.DefaultListableBeanFactory.GetDependencies | src/main/java/com/archer/spring/factory/support/AbstractAutowireCapableBeanFactory.java:38-43 | one `getBean` request per depends-on name, in the order given, each starting where the last ended; the loop stops at the first failed request, whose error is the outcome, and passes only after requesting every name |
| BeanFactory.DefaultListableBeanFactory.NewInstance | src/main/java/com/archer/spring/factory/support/AbstractAutowireCapableBeanFactory.java:47-55 | `MadeInstance`: with constructor autowiring or held arguments, the result of `autowireConstructor` as `ConstructorInjected` prescribes; otherwise no public no-argument constructor is BeansException with nothing changed, and else exactly the no-argument instantiation is logged, a throw is its error and a return is a new object of the class with the next identity |
| BeanFactory.DefaultListableBeanFactory.InitializeBean | src/main/java/com/archer/spring/factory/support/AbstractAutowireCapableBeanFactory.java:67-79 | `setBeanName`, `setBeanFactory`, the before-processors, `afterPropertiesSet`, the init method, the after-processors, in that order until one throws; a throw becomes BeansException |
| BeanFactory.DefaultListableBeanFactory.ProcessBean | src/main/java/com/archer/spring/factory/support/AbstractAutowireCapableBeanFactory.java:74-76 | the before-processors, then init and after-processors on the before-phase's result |
| BeanFactory.DefaultListableBeanFactory.CompleteInitialization | src/main/java/com/archer/spring/factory/support/AbstractAutowireCapableBeanFactory.java:75-76 | the init calls, then the after-processors; a throw becomes BeansException |
| BeanFactory.DefaultListableBeanFactory.RunProcessors | src/main/java/com/archer/spring/factory/support/AbstractAutowireCapableBeanFactory.java:128-132 | processors run in order until one throws; the result is the last one's answer, or the bean when there are none |
| BeanFactory.DefaultListableBeanFactory.ApplyBeforeProcessors | src/main/java/com/archer/spring/factory/support/AbstractAutowireCapableBeanFactory.java:126-133 | every processor is given the original bean, in order, and the last answer is returned |
| BeanFactory.DefaultListableBeanFactory.ApplyAfterProcessors | src/main/java/com/archer/spring/factory/support/AbstractAutowireCapableBeanFactory.java:136-142 | every processor is given the original bean, in order, and the last answer is returned |
| BeanFactory.DefaultListableBeanFactory.AscendingIndices | src/main/java/com/archer/spring/factory/support/AbstractAutowireCapableBeanFactory.java:162-163 | `AscendingKeys`: the indexed keys, each once, in ascending order |
| BeanFactory.ArgCount | src/main/java/com/archer/spring/factory/support/AbstractAutowireCapableBeanFactory.java:158-166 | the count `numberOfCArgs` reaches: never below the starting count, and never below an index already visited |
| BeanFactory.ArgCountOrderMatters | src/main/java/com/archer/spring/factory/support/AbstractAutowireCapableBeanFactory.java:162-166 | the count depends on the visiting order: indices 4 and 5 from a start of 3 give 5 ascending and 6 descending |
| BeanFactory.AscendingKeysUnique | src/main/java/com/archer/spring/factory/support/AbstractAutowireCapableBeanFactory.java:162-163 | there is one ascending listing of the indices, so the count `HeldResolution` fixes depends on the held arguments alone |
| BeanFactory.HeldCountCovers | src/main/java/com/archer/spring/factory/support/AbstractAutowireCapableBeanFactory.java:158-166 | the count covers the number of held arguments and every held index |
| BeanFactory.DefaultListableBeanFactory.AutowireConstructor | src/main/java/com/archer/spring/factory/support/AbstractAutowireCapableBeanFactory.java:154-224 | `ConstructorInjected`: a failed resolution of the held arguments is the result, naming the holder whose reference failed and its request; otherwise the resolved holders keep the indices, type names and count of the held ones and the argument count is exactly Java's `numberOfCArgs` over the indices in ascending order (`HeldResolution`), and the constructors are tried as `Selected` prescribes: a success or a BeansException means every constructor tried failed at most with a BeansException, so any other exception, on the last constructor too, is the result; the chosen one is instantiated with its arguments and a throw there wrapped; every constructor shorter than the argument count means failure |
| BeanFactory.DefaultListableBeanFactory.ConstructWithHeld | src/main/java/com/archer/spring/factory/support/AbstractAutowireCapableBeanFactory.java:180-223 | after resolution: the constructors are tried and the chosen one instantiated exactly as `Selected` prescribes, for the resolved holders and the exact argument count; a selection or a BeansException result implies no constructor threw anything else |
| BeanFactory.DefaultListableBeanFactory.ResolveHeldArguments | src/main/java/com/archer/spring/factory/support/AbstractAutowireCapableBeanFactory.java:158-178 | the indexed holders are resolved in ascending index order, then the generic ones; a success is `HeldResolution` (same indices, as many generic holders, each keeping its type name and holding a value that resolves the held one, and the count equal to `ArgCount` over the ascending indices from the number of held arguments); a failure names a holder referring to a bean whose request failed with that error |
| BeanFactory.DefaultListableBeanFactory.ResolveIndexedArguments | src/main/java/com/archer/spring/factory/support/AbstractAutowireCapableBeanFactory.java:162-172 | the indexed loop: each resolved holder keeps its index and type name and resolves the held value; on success every index is present and the count is exactly `ArgCount` over the keys in the order visited, starting from the number of held arguments (an index larger than the count so far makes it that index plus one) |
| BeanFactory.DefaultListableBeanFactory.ResolveIndexedArgument | src/main/java/com/archer/spring/factory/support/AbstractAutowireCapableBeanFactory.java:169-171 | one indexed holder: on success its resolved value is stored under its index with its type name and nothing else in the indexed map changes; on failure the map is as it was |
| BeanFactory.DefaultListableBeanFactory.ResolveGenericArguments | src/main/java/com/archer/spring/factory/support/AbstractAutowireCapableBeanFactory.java:174-177 | the generic loop: the resolved holders, in order, keep their type names and resolve the held values; on success there is one per held holder |
| BeanFactory.DefaultListableBeanFactory.ResolveGenericArgument | src/main/java/com/archer/spring/factory/support/AbstractAutowireCapableBeanFactory.java:175-176 | one generic holder: on success its resolved value is appended with its type name; on failure the generic list is as it was; the indexed map never changes |
| BeanFactory.DefaultListableBeanFactory.SelectConstructor | src/main/java/com/archer/spring/factory/support/AbstractAutowireCapableBeanFactory.java:185-220 | tries the constructors in order: one with fewer parameters than the argument count is a BeansException, and any other has its arguments sought slot by slot as `ArgumentsFor` describes, with the constructor's own position as the index of the conversion type; a BeansException is swallowed except on the last constructor when none was selected, and any other exception propagates at once, so a success or a BeansException result means every attempt was a fit or a BeansException; a success is the last constructor whose arguments were all found, with one argument per parameter, and every later one failed |
| BeanFactory.DefaultListableBeanFactory.TryConstructor | src/main/java/com/archer/spring/factory/support/AbstractAutowireCapableBeanFactory.java:187-206 | one pass of the constructor loop: too few parameters is a BeansException, otherwise the slots are sought as `ArgumentsFor` describes |
| BeanFactory.DefaultListableBeanFactory.ArgumentsFor | src/main/java/com/archer/spring/factory/support/AbstractAutowireCapableBeanFactory.java:191-207 | one slot per parameter, in order, until one fails: a slot is held exactly when a held argument fits it (the indexed one at its position when the type fits, else a fitting generic one), and then the value is converted to the type of the parameter at the constructor's own index, as the code writes it (IndexOutOfBoundsException past the last parameter); any other slot takes the single bean of its type, and none or several is IllegalStateException; a failure is the failing slot's error |
| BeanFactory.DefaultListableBeanFactory.ArgumentFor | src/main/java/com/archer/spring/factory/support/AbstractAutowireCapableBeanFactory.java:195-205 | one slot: held exactly when a held argument fits it, then converted to the type of the parameter at the constructor's index; otherwise the single bean of the slot's type, with IllegalStateException for none or several |
| BeanFactory.DefaultListableBeanFactory.PopulateBean | src/main/java/com/archer/spring/factory/support/AbstractAutowireCapableBeanFactory.java:229-248 | without autowiring: no property values does nothing, and otherwise the setters for the declared values end the log; by name or by type: the setters for the applied values end the log, and an applied value differs from the declared one only for an unsatisfied property, which then holds a bean; by name, every unsatisfied property naming a known bean is filled |
| BeanFactory.DefaultListableBeanFactory.UnsatisfiedObjectProperties | src/main/java/com/archer/spring/factory/support/AbstractAutowireCapableBeanFactory.java:286-297 | the writable, non-simple properties without a declared value, sorted and unique; with no property values and some candidate it is a NullPointerException |
| BeanFactory.DefaultListableBeanFactory.AutowireByName | src/main/java/com/archer/spring/factory/support/AbstractAutowireCapableBeanFactory.java:253-262 | every unsatisfied property naming a known bean is filled with a bean; only unsatisfied properties change, each to a bean |
| BeanFactory.DefaultListableBeanFactory.AutowireNames | src/main/java/com/archer/spring/factory/support/AbstractAutowireCapableBeanFactory.java:256-261 | the loop fills every listed name that is a known bean; only listed names change, each to a bean |
| BeanFactory.DefaultListableBeanFactory.AutowireProperty | src/main/java/com/archer/spring/factory/support/AbstractAutowireCapableBeanFactory.java:257-260 | an unknown name changes nothing; a known one is one `getBean` request, answered as `getBean` promises (a cached name from the cache, a defined one by a newly made bean), and on success the entry under that name holds exactly the bean returned; other names keep their entries |
| BeanFactory.DefaultListableBeanFactory.AutowireByType | src/main/java/com/archer/spring/factory/support/AbstractAutowireCapableBeanFactory.java:267-281 | the properties tried are exactly the unsatisfied ones, in order; for each, the beans of its type: none leaves it as it was, one fills it with that bean, several is BeansException and a failed lookup propagates, stopping the loop; only unsatisfied properties change, each to a bean |
| BeanFactory.DefaultListableBeanFactory.AutowireTypes | src/main/java/com/archer/spring/factory/support/AbstractAutowireCapableBeanFactory.java:269-280 | the loop over the unsatisfied properties: every property before the last found at most one bean, each one found filled its property, none left it alone, and no other name changed |
| BeanFactory.DefaultListableBeanFactory.AutowireTypedProperty | src/main/java/com/archer/spring/factory/support/AbstractAutowireCapableBeanFactory.java:270-279 | one property: the beans found satisfy `OfType` for the property's type; none keeps the values, one fills the property from them, several is BeansException; no other name changes |
| BeanFactory.DefaultListableBeanFactory.ApplyPropertyValues | src/main/java/com/archer/spring/factory/support/AbstractAutowireCapableBeanFactory.java:302-313 | null values do nothing; otherwise every entry is resolved on a copy and the log ends with the setters for all entries, in order; a failure is either a reference among the entries whose request failed with that error, or a setter that threw it |
| BeanFactory.DefaultListableBeanFactory.ResolveEntries | src/main/java/com/archer/spring/factory/support/AbstractAutowireCapableBeanFactory.java:305-310 | the resolving loop: the copy keeps the entries' names and count; on success each value resolves the declared one; a failure is a reference among the entries whose request failed with that error |
| BeanFactory.DefaultListableBeanFactory.SetResolved | src/main/java/com/archer/spring/factory/support/AbstractAutowireCapableBeanFactory.java:311-312 | the setters for the resolved entries end the log when they all return; otherwise one of them threw the error |
| BeanFactory.DefaultListableBeanFactory.ResolveValue | src/main/java/com/archer/spring/factory/support/AbstractAutowireCapableBeanFactory.java:353-380 | a reference is one `getBean` request for the referenced name, answered as `getBean` promises, and yields exactly the bean returned, which for a cached name is the shared-instance result; a list resolves element by element; any other value comes back unchanged and nothing changes; every success resolves the given value |
| BeanFactory.DefaultListableBeanFactory.ResolveManagedList | src/main/java/com/archer/spring/factory/support/AbstractAutowireCapableBeanFactory.java:385-392 | a list of the same length whose elements resolve the given ones, position by position |
| BeanFactory.DefaultListableBeanFactory.GetBeansOfType | src/main/java/com/archer/spring/factory/support/DefaultListableBeanFactory.java:110-145 | `OfType`: every defined bean of the type (prototypes only when asked for) and every cached object of the type without a definition is in the map; without prototypes every entry is cached or belongs to a factory bean; a failure is a request for a name of the type, or cached with an object of the type, that failed with that error, or, with factory beans, an exception other than BeansException from a factory visit |
| BeanFactory.DefaultListableBeanFactory.DefinedBeansOfType | src/main/java/com/archer/spring/factory/support/DefaultListableBeanFactory.java:113-117 | the first loop adds every matching singleton, and every prototype when asked; a failure is a request for one of the names that failed with that error |
| BeanFactory.DefaultListableBeanFactory.CachedBeans | src/main/java/com/archer/spring/factory/support/DefaultListableBeanFactory.java:119-122 | the second loop adds exactly the cached names; a failure is a request for one of them that failed with that error |
| BeanFactory.DefaultListableBeanFactory.FactoryProducts | src/main/java/com/archer/spring/factory/support/DefaultListableBeanFactory.java:124-142 | one visit per factory name, in order, each fetching the factory with the prefix and its product exactly when the factory is a `FactoryBean` whose type and singleton answers ask for it (`Visited`); BeansException from either request is swallowed and the loop goes on; any other exception, or a non-factory bean (ClassCastException), stops it with that error; on success every product of the type is in the map, and only products of the type are added |
| BeanFactory.ProductsStep | src/main/java/com/archer/spring/factory/support/DefaultListableBeanFactory.java:124-142 | one more passing visit keeps the third loop's invariant: earlier entries kept, only typed products added under factory names, every kept product present |
| BeanFactory.DefaultListableBeanFactory.VisitFactory | src/main/java/com/archer/spring/factory/support/DefaultListableBeanFactory.java:127-140 | one pass of the third loop: succeeds exactly when the visit passed, fails with the exception that escaped, and adds only a product of the type, which it adds whenever the product was fetched and fits |
| BeanFactory.DefaultListableBeanFactory.VisitProduct | src/main/java/com/archer/spring/factory/support/DefaultListableBeanFactory.java:129-137 | the part of a pass after the factory was fetched: the product is requested exactly when `ProductWanted` says so, and the pass ends as `VisitFactory` states |
| BeanFactory.DefaultListableBeanFactory.AddProduct | src/main/java/com/archer/spring/factory/support/DefaultListableBeanFactory.java:133-136 | one product request: BeansException is swallowed, any other error is the result; an object of the type is added under the factory name and nothing else changes |
| BeanFactory.DefaultListableBeanFactory.PreInstantiateSingletons | src/main/java/com/archer/spring/factory/support/DefaultListableBeanFactory.java:69-85 | the requests made for each definition name, in registration order, are those `PreInstantiationRequests` prescribes (none for a lazy or prototype definition; for a factory bean the factory and then its product when the factory says it is a singleton; the bean otherwise), each starting where the last ended and stopping at the first failure, whose error is the outcome; on success every eager singleton is cached |
| BeanFactory.DefaultListableBeanFactory.PreInstantiateNext | src/main/java/com/archer/spring/factory/support/DefaultListableBeanFactory.java:71-83 | one iteration: the requests for the next name extend the runs and the chain of requests, and the eager singletons among the names so far stay cached |
| BeanFactory.DefaultListableBeanFactory.PreInstantiateSingleton | src/main/java/com/archer/spring/factory/support/DefaultListableBeanFactory.java:71-82 | the requests for one name, as `PreInstantiationRequests` prescribes, one after another, stopping at the first failure, whose error is the outcome; on success an eager singleton is cached |
| BeanFactory.DefaultListableBeanFactory.DestroySingleton | src/main/java/com/archer/spring/factory/support/AbstractAutowireCapableBeanFactory.java:85-92 | an undefined name fails with BeansException; otherwise `destroy` then the destroy method are called until one throws, which becomes BeansException; the outcome is `DestroyOutcome` |
| BeanFactory.DefaultListableBeanFactory.DestroySingletons | src/main/java/com/archer/spring/factory/support/AbstractBeanFactory.java:185-193 | passes exactly when the destroy outcome of every cached object passes, and a failure is the outcome of one of them; on success the cache is empty and every cached bean received its destroy calls; on failure the cache is kept; configuration is untouched |
| BeanFactory.DefaultListableBeanFactory.DestroyCachedObjects | src/main/java/com/archer/spring/factory/support/AbstractBeanFactory.java:187-190 | the loop passes exactly when every cached object's destroy outcome passes, a failure is one object's outcome, a cached name without a definition makes it fail, and on success every destroy call is in the log |
| XmlParser.Elements | src/main/java/com/archer/spring/factory/xml/DefaultXMLBeanDefinitionParser.java:239-244 | the children a parser loop visits are exactly the element nodes, all of them elements |
| XmlParser.ParseSubElement | src/main/java/com/archer/spring/factory/xml/DefaultXMLBeanDefinitionParser.java:208-230 | a `<ref>` parses if and only if its `bean` attribute is non-empty and then yields a reference to that name; `<null>` yields null; any other unknown tag fails with BeansException; every parsed value is a declared value |
| XmlParser.ParseList | src/main/java/com/archer/spring/factory/xml/DefaultXMLBeanDefinitionParser.java:235-247 | a `<list>` yields one declared value per element child, failing only with BeansException |
| XmlParser.ListParsesEachElement | src/main/java/com/archer/spring/factory/xml/DefaultXMLBeanDefinitionParser.java:239-244 | element `i` of a parsed list is the parse of the `i`-th element child |
| XmlParser.TextValue | src/main/java/com/archer/spring/factory/xml/DefaultXMLBeanDefinitionParser.java:252-263 | a `<value>` parses if and only if it has no children or exactly one text child; the result is that text, or the empty string when there are no children |
| XmlParser.FirstElement | src/main/java/com/archer/spring/factory/xml/DefaultXMLBeanDefinitionParser.java:191-198 | finds nothing exactly when no child is an element, and otherwise returns the first element child |
| XmlParser.ElementValue | src/main/java/com/archer/spring/factory/xml/DefaultXMLBeanDefinitionParser.java:189-203 | a property value is the parse of the first element child; a missing child or a bad child fails with BeansException |
| XmlParser.GetPropertyValue | src/main/java/com/archer/spring/factory/xml/DefaultXMLBeanDefinitionParser.java:189-203 | the scanning loop returns the value `ElementValue` specifies |
| XmlParser.PropertyOf | src/main/java/com/archer/spring/factory/xml/DefaultXMLBeanDefinitionParser.java:174-184 | a `<property>` parses if and only if its name is non-empty and its value parses, and then pairs that name with that value |
| XmlParser.PropertiesFrom | src/main/java/com/archer/spring/factory/xml/DefaultXMLBeanDefinitionParser.java:155-169 | parsing the `<property>` children keeps the names already collected in place and keeps the names distinct |
| XmlParser.PropertiesKeepOthers | src/main/java/com/archer/spring/factory/xml/DefaultXMLBeanDefinitionParser.java:155-169 | a name no `<property>` child mentions keeps its earlier value |
| XmlParser.LastPropertyWins | src/main/java/com/archer/spring/factory/xml/DefaultXMLBeanDefinitionParser.java:160-167 | a property named by several `<property>` children ends up with the value of the last of them |
| XmlParser.ParsePropertyElement | src/main/java/com/archer/spring/factory/xml/DefaultXMLBeanDefinitionParser.java:174-184 | on failure the collection is untouched; on success it is the old collection with the parsed property added |
| XmlParser.ParseAllPropertyElements | src/main/java/com/archer/spring/factory/xml/DefaultXMLBeanDefinitionParser.java:155-169 | the loop over the children returns what `PropertiesFrom` specifies from an empty collection |
| XmlParser.ParseInt | src/main/java/com/archer/spring/factory/xml/DefaultXMLBeanDefinitionParser.java:299 | a parsed index lies within the 32-bit signed range |
| XmlParser.ArgumentOf | src/main/java/com/archer/spring/factory/xml/DefaultXMLBeanDefinitionParser.java:288-323 | a `<constructor-arg>` parses if and only if its value parses and any `index` attribute is a non-negative 32-bit integer |
| XmlParser.ArgumentsFrom | src/main/java/com/archer/spring/factory/xml/DefaultXMLBeanDefinitionParser.java:269-283 | every `<constructor-arg>` without an index adds one generic argument, indexed keys are kept and stay non-negative |
| XmlParser.ParseConstructorArgElement | src/main/java/com/archer/spring/factory/xml/DefaultXMLBeanDefinitionParser.java:288-323 | on failure the argument holder is untouched; on success it holds what `ArgumentOf` specifies |
| XmlParser.ParseAllConstructorArgElements | src/main/java/com/archer/spring/factory/xml/DefaultXMLBeanDefinitionParser.java:269-283 | the loop over the children returns what `ArgumentsFrom` specifies from an empty holder |
| XmlParser.AutowireMode | src/main/java/com/archer/spring/factory/xml/DefaultXMLBeanDefinitionParser.java:328-343 | each of the four spellings maps to its mode and back, and every other attribute value is "no autowiring" |
| XmlParser.DefinitionOf | src/main/java/com/archer/spring/factory/xml/DefaultXMLBeanDefinitionParser.java:102-117 | a missing `class` attribute or a class that cannot be loaded fails with BeansException; a parsed definition carries the loaded class |
| XmlParser.Flagged | src/main/java/com/archer/spring/factory/xml/DefaultXMLBeanDefinitionParser.java:124-144 | setting the flags leaves the class, the dependencies, the properties and the constructor arguments alone |
| XmlParser.AttributedFlags | src/main/java/com/archer/spring/factory/xml/DefaultXMLBeanDefinitionParser.java:124-144 | singleton unless the attribute says otherwise, lazy only for a singleton whose attribute is `true`, the autowire mode from `AutowireMode`, init and destroy names only when non-empty |
| XmlParser.AttributedDependsOn | src/main/java/com/archer/spring/factory/xml/DefaultXMLBeanDefinitionParser.java:119-122 | dependencies are set exactly when the attribute is present, split into non-empty trimmed names free of delimiters |
| XmlParser.ParsedDefinitionShape | src/main/java/com/archer/spring/factory/xml/DefaultXMLBeanDefinitionParser.java:102-149 | a parsed definition is never lazy without being a singleton, and has distinct property names and non-negative argument indexes |
| XmlParser.ParseBeanDefinition | src/main/java/com/archer/spring/factory/xml/DefaultXMLBeanDefinitionParser.java:102-149 | the method returns what `DefinitionOf` specifies |
| XmlParser.LoadedDefinition | src/main/java/com/archer/spring/factory/xml/DefaultXMLBeanDefinitionParser.java:83-97 | a `<bean>` loads only with a non-empty `id`, a parsed definition and a passing validation |
| XmlParser.RegisteredKept | src/main/java/com/archer/spring/factory/xml/DefaultXMLBeanDefinitionParser.java:66-76 | a later registration keeps the definitions registered for earlier `<bean>` elements |
| XmlParser.LoadBeanDefinition | src/main/java/com/archer/spring/factory/xml/DefaultXMLBeanDefinitionParser.java:83-97 | registration succeeds exactly when the definition loads and the id is new; it then appends the id and maps it to the definition, changes nothing else, and on failure changes nothing |
| XmlParser.RegisterChild | src/main/java/com/archer/spring/factory/xml/DefaultXMLBeanDefinitionParser.java:67-75 | one step of the loop keeps the registration invariant (each `<bean>` seen so far is registered in order); a failure is a `<bean>` that does not load or whose id is taken, with the earlier ones registered (`StoppedAt`) |
| XmlParser.RegisterBeanDefinitions | src/main/java/com/archer/spring/factory/xml/DefaultXMLBeanDefinitionParser.java:58-78 | on success the names gained are the `<bean>` ids in document order and each `<bean>` is registered; a failure stops at a `<bean>` that does not load (no id, no definition, or one that does not validate) or whose id is already defined, every `<bean>` before it registered in order; earlier definitions are never lost, and only definitions change |
| Resources.ResolvedPath | src/main/java/com/archer/spring/io/ClassPathResource.java:87-98 | a null path fails with NullPointerException; a path starting with `classpath:` loses exactly that prefix and then one `/` if the rest starts with one; any other path loses one leading `/` if it has one and is otherwise kept as it is |
| Resources.SpellingsResolveAlike | src/test/java/com/archer/spring/io/ResourceTests.java:36-70 | `name`, `classpath:name`, `/name` and `classpath:/name` all resolve to the same location |
| Events.Without | src/main/java/com/archer/spring/context/event/DefaultApplicationEventMulticaster.java:40-42 | removing a listener leaves exactly the other listeners, keeps them distinct and never grows the set |
| Events.RemoveClosesGap | src/main/java/com/archer/spring/context/event/DefaultApplicationEventMulticaster.java:40-42 | removing a registered listener keeps the others in their order of registration; removing an absent one changes nothing |
| Events.RemoveNothing | src/main/java/com/archer/spring/context/event/DefaultApplicationEventMulticaster.java:40-42 | removing a listener that is not registered leaves the listeners unchanged |
| Events.EventCalls | src/main/java/com/archer/spring/context/event/DefaultApplicationEventMulticaster.java:50-52 | a multicast makes one call per registered listener, in order of registration, each passing the event |
| Events.EachListenerOnce | src/main/java/com/archer/spring/context/event/DefaultApplicationEventMulticaster.java:50-52 | with a duplicate-free listener set, each registered listener is called exactly once and no one else is called |
| Events.ApplicationEventMulticaster.constructor | src/main/java/com/archer/spring/context/event/DefaultApplicationEventMulticaster.java:24 | a new multicaster has no listeners |
| Events.ApplicationEventMulticaster.GetApplicationListeners | src/main/java/com/archer/spring/context/event/DefaultApplicationEventMulticaster.java:28-30 | the view holds exactly the registered listeners |
| Events.ApplicationEventMulticaster.AddApplicationListener | src/main/java/com/archer/spring/context/event/DefaultApplicationEventMulticaster.java:35-37 | adding appends a new listener and leaves a registered one where it is (set semantics in insertion order) |
| Events.ApplicationEventMulticaster.RemoveApplicationListener | src/main/java/com/archer/spring/context/event/DefaultApplicationEventMulticaster.java:40-42 | the listeners become `Without(old listeners, listener)` |
| Events.ApplicationEventMulticaster.RemoveAllListeners | src/main/java/com/archer/spring/context/event/DefaultApplicationEventMulticaster.java:45-47 | no listener remains |
| Events.ApplicationEventMulticaster.MulticastEvent | src/main/java/com/archer/spring/context/event/DefaultApplicationEventMulticaster.java:50-52 | the log gains the `EventCalls` made before the first failing listener, and the outcome is that of the first failure or success |
| EditorConfigurer.RegistrarSet | src/main/java/com/archer/spring/factory/config/CustomEditorConfigurer.java:26-30 | the registrars added are exactly those of the configured array |
| EditorConfigurer.CustomEditorConfigurer.constructor | src/main/java/com/archer/spring/factory/config/CustomEditorConfigurer.java:18 | a new configurer has no registrars (null array) |
| EditorConfigurer.CustomEditorConfigurer.SetPropertyEditorRegistrars | src/main/java/com/archer/spring/factory/config/CustomEditorConfigurer.java:20-22 | the configured array is replaced by the argument |
| EditorConfigurer.CustomEditorConfigurer.PostProcessBeanFactory | src/main/java/com/archer/spring/factory/config/CustomEditorConfigurer.java:24-31 | with no array the factory is untouched; otherwise the factory's registrars gain every configured registrar and nothing else of the factory changes |
| Context.ResolvedLocations | src/main/java/com/archer/spring/context/support/ClassPathXMLApplicationContext.java:39-47 | at most one location per input location; every resolved location carries `classpath:`; a location is in the result exactly when it is an unprefixed input with the prefix added |
| Context.ResolvedLocationsAppend | src/main/java/com/archer/spring/context/support/ClassPathXMLApplicationContext.java:41-45 | locations resolve one at a time: resolving a concatenation concatenates the resolutions |
| Context.ResolvedLocationsDropPrefixed | src/main/java/com/archer/spring/context/support/ClassPathXMLApplicationContext.java:42-44 | a list of locations that all carry the prefix resolves to nothing |
| Context.GetResolvedConfigLocations | src/main/java/com/archer/spring/context/support/ClassPathXMLApplicationContext.java:39-47 | the loop returns what `ResolvedLocations` specifies |
| Context.ProcessorCalls | src/main/java/com/archer/spring/context/support/AbstractApplicationContext.java:209-211 | one call per programmatically added factory post-processor, in the order they were added |
| Context.ApplicationContext.constructor | src/main/java/com/archer/spring/context/support/AbstractApplicationContext.java:31-47 | a new context has its resolved locations, no factory post-processors, no manual listeners, no multicaster and no factory |
| Context.ApplicationContext.AddBeanFactoryPostProcessor | src/main/java/com/archer/spring/context/support/AbstractApplicationContext.java:55-58 | the processor is appended to the list |
| Context.ApplicationContext.AddApplicationListener | src/main/java/com/archer/spring/context/support/AbstractApplicationContext.java:60-64 | the listener joins the manual listeners once; without a multicaster the call is a NullPointerException, otherwise the multicaster holds the listener too |
| Context.ApplicationContext.PublishEvent | src/main/java/com/archer/spring/context/support/AbstractApplicationContext.java:129-132 | without a multicaster a NullPointerException and no calls; otherwise exactly the multicaster's calls for the event |
| Context.ApplicationContext.LoadLocation | src/main/java/com/archer/spring/context/support/AbstractXMLApplicationContext.java:52-58 | a location whose document cannot be loaded fails; on success the factory's names gain the document's `<bean>` ids in order; only definitions change |
| Context.ApplicationContext.LoadBeanDefinitions | src/main/java/com/archer/spring/context/support/AbstractXMLApplicationContext.java:24-61 | all locations in order: on success the names gained are the ids of all documents in order; any location that cannot be loaded makes it fail; only definitions change |
| Context.ApplicationContext.ConfigIdsStop | src/main/java/com/archer/spring/context/support/AbstractXMLApplicationContext.java:56-58 | once one location cannot be loaded, the whole list cannot |
| Context.ApplicationContext.RefreshBeanFactory | src/main/java/com/archer/spring/context/support/AbstractRefreshableApplicationContext.java:36-59 | an old factory is emptied of singletons before it is dropped; on success a fresh factory holds exactly the configured ids, no singletons, no processors and no calls; a loading failure is an ApplicationContextException and leaves no factory |
| Context.ApplicationContext.InvokeBeanFactoryPostProcessors | src/main/java/com/archer/spring/context/support/AbstractApplicationContext.java:207-222 | the added processors are called first, in order; if one of them fails, the calls up to it are all that happen and its failure is the outcome |
| Context.ApplicationContext.InvokeDeclaredFactoryProcessors | src/main/java/com/archer/spring/context/support/AbstractApplicationContext.java:214-220 | the declared factory post-processors are fetched and called with the factory kept valid and its definitions and processors stable |
| Context.ApplicationContext.RegisterBeanPostProcessors | src/main/java/com/archer/spring/context/support/AbstractApplicationContext.java:227-241 | on success the factory's processors are the old ones followed, for each declared `BeanPostProcessor` name in registration order, by the object `getBean` answered for it (`RegisteredInOrder`); a failure is the first name whose request failed or answered an object that is not a `BeanPostProcessor`, with the processors of the earlier names kept; nothing else of the factory but its singletons and calls changes |
| Context.ApplicationContext.AddDeclaredProcessor | src/main/java/com/archer/spring/context/support/AbstractApplicationContext.java:235-237 | one pass: one `getBean` request for the name; on success its answer is a `BeanPostProcessor` and is appended to the processors; on failure the processors are unchanged and the error is the request's or BeansException for an object of another type |
| Context.RegisteredStep | src/main/java/com/archer/spring/context/support/AbstractApplicationContext.java:233-238 | a passing registration of the next declared name extends `RegisteredInOrder` by that name and its request |
| Context.RegisteredAreDeclared | src/main/java/com/archer/spring/context/support/AbstractApplicationContext.java:231-238 | every processor appended by the registration loop is a user processor of type `BeanPostProcessor`, after the processors already there |
| Context.DeclaredProcessorNames | src/main/java/com/archer/spring/context/support/AbstractApplicationContext.java:231 | the names registered in the loop are exactly the definitions of type `BeanPostProcessor` |
| Context.ApplicationContext.InitApplicationEventMulticaster | src/main/java/com/archer/spring/context/support/AbstractApplicationContext.java:252-257 | an old multicaster is emptied and a fresh, empty one replaces it |
| Context.ApplicationContext.RegisterApplicationListeners | src/main/java/com/archer/spring/context/support/AbstractApplicationContext.java:262-271 | every manual listener is registered, first and in order on a new multicaster; on success so is every `ApplicationListener` bean of the factory |
| Context.ApplicationContext.ProcessFactory | src/main/java/com/archer/spring/context/support/AbstractApplicationContext.java:76-80 | definitions unchanged; the added factory post-processors called in order; on success the declared `BeanPostProcessor`s registered in order after the existing processors, as `RegisteredInOrder` states |
| Context.ApplicationContext.StartUp | src/main/java/com/archer/spring/context/support/AbstractApplicationContext.java:82-90 | definitions and processors unchanged; on success a fresh multicaster holds the manual listeners, every non-lazy singleton is instantiated and the last calls are the refreshed event to every listener |
| Context.ApplicationContext.InstantiateSingletons | src/main/java/com/archer/spring/context/support/AbstractApplicationContext.java:276-278 | `finishBeanFactoryInitialization`, the last step of refresh before the event: on success every eager singleton definition of the factory is cached |
| Context.ApplicationContext.RefreshSteps | src/main/java/com/archer/spring/context/support/AbstractApplicationContext.java:74-90 | the steps of refresh in order, with the combined guarantees of `ProcessFactory` and `StartUp`, the processor registration included |
| Context.ApplicationContext.Refresh | src/main/java/com/archer/spring/context/support/AbstractApplicationContext.java:66-97 | on success a fresh factory holds exactly the configured ids, the aware processor comes first, followed by every declared `BeanPostProcessor` in registration order, each the object `getBean` answered for its name; the added processors have run, every non-lazy singleton exists and the refreshed event was the last thing published; a BeansException from the steps destroys the singletons and is rethrown, unless the destruction fails first |
| Context.ApplicationContext.Close | src/main/java/com/archer/spring/context/support/AbstractApplicationContext.java:99-106 | without a factory a NullPointerException; on success the singletons are gone and the last calls are the closed event to every listener |
| Context.NewClassPathXmlApplicationContext | src/main/java/com/archer/spring/context/support/ClassPathXMLApplicationContext.java:23-30 | null locations are a NullPointerException and an empty array an IllegalArgumentException; a context that is returned has the resolved locations, has been refreshed and holds exactly the configured ids, with every non-lazy singleton instantiated |

## Left out

- Floating point: `Float`, `Double` and `BigDecimal` carry only their integral part; conversions to them, NumberFormat-based parsing and the JDK decimal parsers are not modelled.
- NumberUtils.ConvertNumberToTargetClass: requires a target other than `Float`/`Double`/`BigDecimal`, because the floating-point branches are left out.
- NumberUtils.ParseNumber: requires a target other than `Float`, `Double`, `BigDecimal` and `Number`, because the floating-point parsers are left out. `Number` is among them because `parseNumber` parses it as a `BigDecimal` (NumberUtils.java line 101).
- NumberUtils.ParseNumberIgnoresWhitespace, NumberUtils.ParseNumberPlain, NumberUtils.ConvertToOwnClass and NumberUtils.ConvertUnsupportedTarget: the same exclusion of floating-point targets.
- NumberEditor.CustomNumberEditor.SetValue and NumberEditor.CustomNumberEditor.SetAsText: the same exclusion of floating-point number classes and of `Number`, which the editor would parse as a `BigDecimal`.
- Case folding in `equalsIgnoreCase` is ASCII only, and digits are ASCII digits. `Character.isWhitespace` is modelled over its whole set of whitespace characters, Unicode separators included.
- Reflection: `Class.forName`, JavaBeans introspection, `BeanWrapper`, constructor invocation and method invocation are oracles over the class table and the `World`; `ClassEditor` and the introspection cache are not modelled.
- Type conversion: `convertIfNecessary` is the oracle `world.convert`, possibly failing, because the delegate it calls is a stub.
- `FactoryBean.getObject`, `getObjectType` and `isSingleton`, and what a user post-processor returns, are oracles.
- The effects of user `BeanFactoryPostProcessor`s on the factory are not modelled: they are calls in the log. `CustomEditorConfigurer` is modelled on its own but is not wired into `refresh` as a declared processor.
- Iteration order of Java hash maps and sets: the singleton cache and the map of listener beans are walked in an unspecified order (`:|`); indexed constructor arguments are walked in ascending index order, as `HashMap` does for small integer keys. The argument count `autowireConstructor` computes depends on that order (`ArgCountOrderMatters`: indices 4 and 5 from a start of 3 give 5 ascending, 6 descending), so a `HashMap` that iterated otherwise, as it may for large or colliding keys, could give a different count than the model's.
- BeanFactory.DefaultListableBeanFactory.ResolveGenericArguments: the generic argument holders are a `HashSet` (ConstructorArgumentValues.java line 20) walked in the order of their identity hashes; the model keeps them in insertion order. With several failing holders the one whose error is reported may differ, and the resolved holders are listed in insertion order.
- ConstructorArgs.ConstructorArgumentValues.GetGenericArgumentValue: returns some fitting holder without saying which, because Java returns the first one in hash order. Holders have identity equality, so the set never merges two of them, and neither does the sequence.
- `world.objectType` and `world.factoryIsSingleton` always answer. Java's `getObjectType` and `isSingleton` of a user `FactoryBean` may throw; in the third loop of `getBeansOfType` a `BeansException` from them is swallowed like one from `getBean`, and any other exception propagates. The model has no such throw.
- Context.ApplicationContext.RegisterApplicationListeners: the order in which listener beans are registered is left unspecified, because `getBeansOfType` returns a `HashMap`.
- Context.ApplicationContext.InvokeDeclaredFactoryProcessors: states only that the factory stays valid and stable, not which declared processors are called.
- Context.ApplicationContext.InvokeBeanFactoryPostProcessors: the calls to declared processors after the added ones are not enumerated, only that the added ones come first and in order.
- Context.ApplicationContext.Refresh: after a rolled-back failure it states the destroyed cache, not the rest of the factory's state.
- BeanFactory.DefaultListableBeanFactory.PopulateBean: with by-type autowiring it states which properties may change and that the setters for the applied values end the log, not which bean each property received, because each lookup runs against the factory as the earlier lookups left it, and those states are not carried out of the loop. `AutowireTypedProperty` states the bean for one lookup.
- BeanFactory.DefaultListableBeanFactory.AutowireByType: the beans found for each property are not restated as `OfType` for that property's type, for the same reason; `AutowireTypedProperty` states it for one lookup.
- BeanFactory.DefaultListableBeanFactory.AutowireByName: a filled property holds a bean, not necessarily the one `getBean` returned for it, because the requests made in the loop are not carried out of it; `AutowireProperty` states the exact bean for one property.
- BeanFactory.DefaultListableBeanFactory.AutowireNames: the same as `AutowireByName`, whose loop it is.
- BeanFactory.DefaultListableBeanFactory.ApplyPropertyValues: each resolved value is related to the declared one by `Resolves` (a reference becomes some bean), not to the request that produced it, because the requests are not carried out of the loop; `ResolveValue` states the exact bean for one reference.
- BeanFactory.DefaultListableBeanFactory.ResolveManagedList: the same as `ApplyPropertyValues`, element by element.
- BeanFactory.DefaultListableBeanFactory.GetBeansOfType: states which names are in the result, not which objects they map to, and with prototypes included it does not bound what else is in the map. The objects are whatever `getBean` answered during three loops that also create beans, and those answers are not carried out of the loops; the callers are stated against the map itself (`FilledFrom`, `SlotFilled`).
- `autowire(Class, int)` and `autowireBeanProperties` of `AbstractAutowireCapableBeanFactory` (lines 99-123) are not modelled: nothing in the container calls them.
- `registerPropertyEditors` (the editor registrars applied to a bean wrapper) is part of the wrapper oracle.
- Recursion through `getBean` is bounded by `fuel`; running out is a `StackOverflowError`, so chains longer than the fuel are not distinguished from infinite ones.
- I/O: DOM building in `DefaultXMLBeanDefinitionReader`, the class loader and `ClassPathResource`'s `exists`, `getURL`, `getFile` and `getInputStream` are not modelled. Documents are a parameter mapping a class-path location to a parsed tree. The reader's count of definitions (`AbstractXMLApplicationContext` line 57) is not modelled.
- Clocks and logging: the start date, event timestamps, the display name and all console output are not modelled.
- Concurrency: the `synchronized` blocks and the copy-on-write listener set are modelled sequentially.
- The context's `ListableBeanFactory` methods only delegate to the factory and are not repeated; `getBeanFactory` returns the `beanFactory` field.
- Interfaces, exception classes, event classes and the test-only beans are declarations without logic, so they have no model.
- Exception messages and causes are not modelled, only the exception kind.
- BeanFactory.Stripped: takes a name that is not null. `getResolvedBeanName` throws a NullPointerException for a null name (AbstractBeanFactory.java line 242), but names are strings in this model and the container itself only passes names it read from definitions.
- A `BeanPostProcessor` that returns null is not modelled: a processor's answer is always an object. In Java, a null answer would become the bean, or fail with a NullPointerException when an init method is named.
- Null arguments are not modelled where the Java code would store them or fail on them later: a null listener added to the multicaster, a null editor or editor class, a null registrar.
- Strings are sequences of Unicode scalar values. `String.hashCode` and `String.compareTo` work on UTF-16 code units, so for strings with characters outside the Basic Multilingual Plane the modelled hash and the sort order of names may differ from Java's.
