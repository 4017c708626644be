# yawkat/config document engine: a Dafny model

This project models the core of the `at.yawk.config` library. The library
turns Java objects into a format-neutral token stream and back, and hosts
at least two file formats. The model covers four parts:

- **The type-adapter registry** (`TypeAdapterRegistryImpl`): an ordered,
  append-only list of factories and a cache. A lookup returns the cached
  adapter or the answer of the first factory that does not decline.
- **The document contexts** (`DocumentHandlerBuilder`): `writeObject`,
  `writeObjectKey`, `readObject` and `readObjectKey` resolve a type through
  the one shared registry and hand over to the adapter.
- **The built-in adapters**: collections, maps, primitives, enums, beans,
  `@SerializedBy` classes and Gson's JSON trees.
- **The SnakeYAML backend**: the `ObjectReader` over a parser's event stream
  (`poll`, `peek`, `skipDeep`, the checked enter/exit calls, scalar reads)
  and the `ObjectWriter` over an emitter. Its `start` and `depth` fields
  are tracked.

How the Java program is represented:

- **Reflection** is an explicit `World` table. It records each class's
  supertypes, its enum constants, whether it has a public no-argument
  constructor, its `@Serialize` and `@SerializedBy` annotations, and its
  method table (getters, setters, descriptions).
- **Adapters and factories** are datatypes.
- **Exceptions** are values of `Errors.Error`, carried in a `Result`.
- **The token stream** is a `seq<Token>`. The writer appends to it. The
  reader is a cursor over it.

Each imperative part has two sides:

- A class whose methods change state: the registry, the writer and reader
  contexts, the token writer and reader, and the YAML reader and writer.
- A pure function the class is proved against. Module `Encoding` gives what
  a write emits and what a read returns. `TypeAdapterRegistryImpl.Resolve`
  gives what a lookup finds.

The lemmas are stated about those functions:

- first-match priority;
- cache stability;
- token bracketing;
- round trips for primitives, enums, collections, maps and JSON trees;
- tolerance of unknown bean properties;
- `skipDeep` skipping exactly one value;
- a worked `Map<String, List<Integer>>` example.

Three behaviours of the code are worth noting:

- `MapTypeAdapterFactory` does not check that the key type has a key form.
  A `Map<List<X>, V>` resolves, and it fails only when a key is written or
  read (`KeyOperationUnsupported`).
- The YAML `peek()` looks at the raw next event. It does not skip stream or
  document events the way `poll()` does, so a peek before the first document
  reports `UnsupportedEvent` (`SnakeYamlConfigurationFormat.ClassifyDoesNotSkipFraming`).
- A JSON number is a value. A whole number written with `item(long)` and
  read back with `doubleValue()` is the same `JsonPrimitive`, as Gson's
  `equals` has it, because Gson compares a primitive read as a double by
  its `doubleValue()`. The model keeps a whole number's exact `long` value
  where Java rounds beyond 2^53 (see "## Left out"); all other floating
  point is opaque.

The round trips hold over the typed in-memory token stream, in which a
string scalar stays a string. Through the YAML backend a string such as
"123" or "true" is written as a plain scalar, is classified LONG or BOOLEAN
when read back (`SnakeYamlConfigurationFormat.ClassifyStructure`,
`LongPeeksAsLong` and `BoolPeeksAsBoolean` state that classification), and
the Gson `readPrimitive` then reads a number or a boolean.

## Model

| member | source | states |
|---|---|---|
| TypeAdapterRegistryImpl.DefaultFactories | src/main/java/at/yawk/config/document/TypeAdapterRegistryImpl.java:18-28 | a new registry holds seven factories, with the Gson wrapper first and the bean factory sixth |
| TypeAdapterRegistryImpl.RegisteredAdapter | src/main/java/at/yawk/config/document/TypeAdapterRegistryImpl.java:41-49 | the factory made by `registerAdapter(type, a)` yields exactly `a`, and does so iff the raw class of the requested type is a class assignable to `type` |
| TypeAdapterRegistryImpl.Resolve | src/main/java/at/yawk/config/document/TypeAdapterRegistryImpl.java:71-81 | a failed lookup reports `UnsupportedType` naming the requested type |
| TypeAdapterRegistryImpl.Create | src/main/java/at/yawk/config/document/TypeAdapterRegistryImpl.java:74 | every built-in factory, and the one `registerAdapter` creates, declines a type that is neither a class nor a parameterized type; only a user-written factory can accept one |
| TypeAdapterRegistryImpl.FirstMatch | src/main/java/at/yawk/config/document/TypeAdapterRegistryImpl.java:73-78 | with no user-written factory in the list, a type variable, wildcard or generic array type is not supported |
| TypeAdapterRegistryImpl.FirstMatchIsFirst | src/main/java/at/yawk/config/document/TypeAdapterRegistryImpl.java:73-78 | when factory i answers and every earlier factory declines, the lookup is factory i's answer; later factories are not consulted |
| TypeAdapterRegistryImpl.FirstMatchNone | src/main/java/at/yawk/config/document/TypeAdapterRegistryImpl.java:73-79 | resolution finds nothing iff every factory in the list declines |
| TypeAdapterRegistryImpl.FirstMatchAppend | src/main/java/at/yawk/config/document/TypeAdapterRegistryImpl.java:64-78 | appending factories changes only the answers for types the earlier list declines |
| TypeAdapterRegistryImpl.ResolutionStable | src/main/java/at/yawk/config/document/TypeAdapterRegistryImpl.java:64-81 | a type that resolves keeps the same adapter however many factories are registered afterwards |
| TypeAdapterRegistryImpl.BeanShadowsRegisteredAdapter | src/main/java/at/yawk/config/document/TypeAdapterRegistryImpl.java:18-50 | for a bean-eligible class, an adapter registered after the defaults is shadowed by the bean adapter, and after `clear()` the registered adapter is found |
| TypeAdapterRegistryImpl.TypeAdapterRegistry.constructor | src/main/java/at/yawk/config/document/TypeAdapterRegistryImpl.java:18-30 | a new registry has the default factories and an empty cache |
| TypeAdapterRegistryImpl.TypeAdapterRegistry.Clear | src/main/java/at/yawk/config/document/TypeAdapterRegistryImpl.java:33-37 | `clear()` empties both the factory list and the cache |
| TypeAdapterRegistryImpl.TypeAdapterRegistry.RegisterAdapterFactory | src/main/java/at/yawk/config/document/TypeAdapterRegistryImpl.java:65-68 | a non-null factory is appended at the end and nothing else changes; a null factory fails with `NullPointer` and changes nothing; the cache stays consistent |
| TypeAdapterRegistryImpl.TypeAdapterRegistry.RegisterAdapter | src/main/java/at/yawk/config/document/TypeAdapterRegistryImpl.java:40-50 | appends exactly the class-adapter factory for `(type, adapter)` |
| TypeAdapterRegistryImpl.TypeAdapterRegistry.GetTypeAdapter | src/main/java/at/yawk/config/document/TypeAdapterRegistryImpl.java:71-81 | returns what the factory list resolves; a cached entry is returned as is, a new answer is cached under the type, and a failure caches nothing |
| DocumentHandlerBuilder.WriterContext.constructor | src/main/java/at/yawk/config/document/DocumentHandlerBuilder.java:29 | a write context holds the shared registry and the target writer, and resolves as the registry does |
| DocumentHandlerBuilder.WriterContext.WriteObject | src/main/java/at/yawk/config/document/DocumentHandlerBuilder.java:48-51 | emits exactly `Encoding.Write` of the type and value after the tokens already written, or fails with its error; the registry still resolves as before |
| DocumentHandlerBuilder.WriterContext.WriteObjectKey | src/main/java/at/yawk/config/document/DocumentHandlerBuilder.java:55-58 | emits exactly `Encoding.WriteKey` of the type and key, or fails with its error |
| DocumentHandlerBuilder.WriterContext.WriteKeyWith | src/main/java/at/yawk/config/document/TypeAdapter.java:17-19 | runs the adapter's `writeKey`, as `Encoding.WriteKeyWith` states |
| DocumentHandlerBuilder.WriterContext.WriteWith | src/main/java/at/yawk/config/document/DocumentHandlerBuilder.java:48-51 | runs the adapter's `write` on the same context, as `Encoding.WriteWith` states |
| DocumentHandlerBuilder.WriterContext.WriteCollection | src/main/java/at/yawk/config/document/CollectionTypeAdapterFactory.java:45-51 | the collection write loop emits `Encoding.WriteWith` for the collection adapter |
| DocumentHandlerBuilder.WriterContext.WriteElem | src/main/java/at/yawk/config/document/CollectionTypeAdapterFactory.java:47-49 | one element write advances the loop state by that element's tokens, or fails with the overall error |
| DocumentHandlerBuilder.WriterContext.WriteMap | src/main/java/at/yawk/config/document/MapTypeAdapterFactory.java:31-38 | the map write loop emits `Encoding.WriteWith` for the map adapter |
| DocumentHandlerBuilder.WriterContext.WriteEntry | src/main/java/at/yawk/config/document/MapTypeAdapterFactory.java:33-36 | one key write followed by one value write advances the loop state, or fails with the overall error |
| DocumentHandlerBuilder.WriterContext.WriteBean | src/main/java/at/yawk/config/document/BeanTypeAdapter.java:27-80 | the bean write loop over the class's methods emits `Encoding.WriteWith` for the bean adapter |
| DocumentHandlerBuilder.WriterContext.WriteMethod | src/main/java/at/yawk/config/document/BeanTypeAdapter.java:35-77 | one method of the loop advances the loop state by `Encoding.Property` of that method |
| DocumentHandlerBuilder.WriterContext.WriteProperty | src/main/java/at/yawk/config/document/BeanTypeAdapter.java:36-76 | the filtering, the getter call and the null skip for one method emit exactly `Encoding.Property` |
| DocumentHandlerBuilder.WriterContext.WriteNamed | src/main/java/at/yawk/config/document/BeanTypeAdapter.java:62-76 | an included property emits its optional comment, then `Key(name)`, then the value written with the getter's return type |
| DocumentHandlerBuilder.WriterContext.WriteJsonArray | src/main/java/at/yawk/config/document/GsonWrapperTypeAdapterFactory.java:65-71 | the `JsonArray` write emits `Encoding.WriteWith` for the array adapter |
| DocumentHandlerBuilder.WriterContext.WriteItem | src/main/java/at/yawk/config/document/GsonWrapperTypeAdapterFactory.java:67-69 | one child written by its runtime class advances the loop state |
| DocumentHandlerBuilder.WriterContext.WriteJsonObject | src/main/java/at/yawk/config/document/GsonWrapperTypeAdapterFactory.java:82-89 | the `JsonObject` write emits `Encoding.WriteWith` for the object adapter |
| DocumentHandlerBuilder.WriterContext.WriteMember | src/main/java/at/yawk/config/document/GsonWrapperTypeAdapterFactory.java:84-87 | one `Key` plus its member written by runtime class advances the loop state |
| DocumentHandlerBuilder.ReaderContext.constructor | src/main/java/at/yawk/config/document/DocumentHandlerBuilder.java:36 | a read context holds the shared registry and the source reader, and resolves as the registry does |
| DocumentHandlerBuilder.ReaderContext.ReadObject | src/main/java/at/yawk/config/document/DocumentHandlerBuilder.java:66-69 | returns `Encoding.Read` of the type on the remaining input and leaves the reader where it ends |
| DocumentHandlerBuilder.ReaderContext.ReadObjectKey | src/main/java/at/yawk/config/document/DocumentHandlerBuilder.java:72-75 | returns `Encoding.ReadKey` of the type and leaves the reader where it ends |
| DocumentHandlerBuilder.ReaderContext.ReadKeyWith | src/main/java/at/yawk/config/document/TypeAdapter.java:21-23 | runs the adapter's `readKey`, as `Encoding.ReadKeyWith` states |
| DocumentHandlerBuilder.ReaderContext.ReadWith | src/main/java/at/yawk/config/document/DocumentHandlerBuilder.java:66-69 | runs the adapter's `read`, as `Encoding.ReadWith` states |
| DocumentHandlerBuilder.ReaderContext.ReadCollection | src/main/java/at/yawk/config/document/CollectionTypeAdapterFactory.java:54-62 | the collection read loop returns `Encoding.ReadWith` for the collection adapter |
| DocumentHandlerBuilder.ReaderContext.ReadMap | src/main/java/at/yawk/config/document/MapTypeAdapterFactory.java:41-51 | the map read loop returns `Encoding.ReadWith` for the map adapter |
| DocumentHandlerBuilder.ReaderContext.ReadBean | src/main/java/at/yawk/config/document/BeanTypeAdapter.java:99-135 | the bean read loop returns `Encoding.ReadWith` for the bean adapter |
| DocumentHandlerBuilder.ReaderContext.ReadProperty | src/main/java/at/yawk/config/document/BeanTypeAdapter.java:113-132 | one iteration of the bean read loop returns `Encoding.ReadProperty` |
| DocumentHandlerBuilder.DocumentHandler.constructor | src/main/java/at/yawk/config/document/DocumentHandlerBuilder.java:25-26 | a handler holds the builder's registry |
| DocumentHandlerBuilder.DocumentHandler.Write | src/main/java/at/yawk/config/document/DocumentHandlerBuilder.java:28-31 | a root write emits `Encoding.WriteDocument`, resolved by the value's runtime class |
| DocumentHandlerBuilder.DocumentHandler.Read | src/main/java/at/yawk/config/document/DocumentHandlerBuilder.java:35-38 | a root read returns `Encoding.ReadDocument` for the class passed in |
| DocumentHandlerBuilder.Builder.constructor | src/main/java/at/yawk/config/document/DocumentHandlerBuilder.java:19 | a builder owns a fresh registry with the default factories and an empty cache |
| DocumentHandlerBuilder.Builder.Build | src/main/java/at/yawk/config/document/DocumentHandlerBuilder.java:25-40 | every handler built shares the builder's one registry |
| Encoding.Write | src/main/java/at/yawk/config/document/DocumentHandlerBuilder.java:48-51 | `writeObject` of a type the registry cannot resolve fails with `UnsupportedType` before anything is emitted; a successful write emits at least one token |
| Encoding.WriteWith | src/main/java/at/yawk/config/document/CollectionTypeAdapterFactory.java:45-51 | a primitive write is one scalar; collection and JSON-array writes are bracketed by `EnterList` and `ExitList`; map, bean and JSON-object writes are bracketed by `EnterObject` and `ExitObject` |
| Encoding.WriteElems | src/main/java/at/yawk/config/document/CollectionTypeAdapterFactory.java:47-50 | the element part of a collection write ends with `ExitList` |
| Encoding.WriteEntries | src/main/java/at/yawk/config/document/MapTypeAdapterFactory.java:33-37 | the entry part of a map write ends with `ExitObject` |
| Encoding.WriteFields | src/main/java/at/yawk/config/document/BeanTypeAdapter.java:35-79 | the property part of a bean write ends with `ExitObject` |
| Encoding.Property | src/main/java/at/yawk/config/document/BeanTypeAdapter.java:36-76 | a method emits tokens only if it is a serialized property, and then `Key(itemName)` follows its optional comment |
| Encoding.PropertyValue | src/main/java/at/yawk/config/document/BeanTypeAdapter.java:36-60 | only serialized zero-argument, non-static getters other than `getClass` are called, a null result contributes nothing, and a value comes only from the body virtual dispatch runs on the object's own class (`InvokedBody` yields) |
| Encoding.OverrideThrowsSkipsProperty | src/main/java/at/yawk/config/document/BeanTypeAdapter.java:50-56 | when the object's class overrides the getter with one that throws, the property is skipped even if the declared class's getter returns a value |
| Encoding.WriteItems | src/main/java/at/yawk/config/document/GsonWrapperTypeAdapterFactory.java:67-70 | the child part of a `JsonArray` write ends with `ExitList` |
| Encoding.WriteMembers | src/main/java/at/yawk/config/document/GsonWrapperTypeAdapterFactory.java:84-88 | the member part of a `JsonObject` write ends with `ExitObject` |
| Encoding.WriteKey | src/main/java/at/yawk/config/document/DocumentHandlerBuilder.java:55-58 | a key write emits exactly one `Key` token |
| Encoding.WriteKeyWith | src/main/java/at/yawk/config/document/TypeAdapter.java:17-19 | adapters without a key form fail with the default `writeKey`'s `UnsupportedOperationException` |
| Encoding.Read | src/main/java/at/yawk/config/document/DocumentHandlerBuilder.java:66-69 | a successful read consumes at least one token |
| Encoding.ReadWith | src/main/java/at/yawk/config/document/DocumentHandlerBuilder.java:66-69 | the collection adapter reads a container of its implementation class, the map adapter reads a map, and the bean adapter reads an instance of its class |
| Encoding.ReadElems | src/main/java/at/yawk/config/document/CollectionTypeAdapterFactory.java:57-60 | the element loop yields a container of the requested implementation |
| Encoding.ReadEntries | src/main/java/at/yawk/config/document/MapTypeAdapterFactory.java:44-49 | the entry loop yields a map |
| Encoding.ReadFields | src/main/java/at/yawk/config/document/BeanTypeAdapter.java:107-133 | the property loop yields an instance of the bean class |
| Encoding.ReadProperty | src/main/java/at/yawk/config/document/BeanTypeAdapter.java:113-132 | one property consumes at least the key |
| Encoding.ReadKey | src/main/java/at/yawk/config/document/DocumentHandlerBuilder.java:72-75 | a successful key read consumes at least one token |
| Encoding.ReadKeyWith | src/main/java/at/yawk/config/document/TypeAdapter.java:21-23 | adapters without a key form fail with the default `readKey`'s `UnsupportedOperationException` |
| Encoding.WriteDocument | src/main/java/at/yawk/config/document/DocumentHandlerBuilder.java:28-31 | writing a null root object fails, because `o.getClass()` throws |
| Encoding.ReadDocument | src/main/java/at/yawk/config/document/DocumentHandlerBuilder.java:35-38 | a successful root read consumes at least one token |
| CollectionTypeAdapterFactory.CreateTypeAdapter | src/main/java/at/yawk/config/document/CollectionTypeAdapterFactory.java:35-68 | accepts exactly the parameterized `List`, `Set`, `Collection` and `Queue`, with the implementation from the table and the first type argument as the element type |
| CollectionTypeAdapterFactory.OnlyParameterizedInterfaces | src/main/java/at/yawk/config/document/CollectionTypeAdapterFactory.java:36-42 | a raw class, or a parameterized type with another raw class (e.g. `ArrayList<X>`), is declined |
| CollectionTypeAdapterFactory.AddAllAppends | src/main/java/at/yawk/config/document/CollectionTypeAdapterFactory.java:55-58 | an `ArrayList` or `ArrayDeque` keeps every element read, in stream order |
| CollectionTypeAdapterFactory.Add | src/main/java/at/yawk/config/document/CollectionTypeAdapterFactory.java:58 | `objects.add(x)`: the container then holds `x` with its earlier contents in front; a list or deque grows by one, a set is unchanged exactly when it already held `x` |
| CollectionTypeAdapterFactory.AddAll | src/main/java/at/yawk/config/document/CollectionTypeAdapterFactory.java:55-59 | the read loop's adds keep the contents of the fresh container in front and add at most one element per element read, exactly one for a list or deque |
| CollectionTypeAdapterFactory.AddAllFirstOccurrences | src/main/java/at/yawk/config/document/CollectionTypeAdapterFactory.java:27-59 | a `LinkedHashSet` read holds the elements read in the order of their first occurrence, each element kept iff it does not occur earlier in the input |
| CollectionTypeAdapterFactory.AddAllSet | src/main/java/at/yawk/config/document/CollectionTypeAdapterFactory.java:55-58 | a `LinkedHashSet` keeps each distinct element once, holds exactly the elements read, and keeps stream order when they are distinct (distinct by value equality; see "## Left out") |
| MapTypeAdapterFactory.CreateTypeAdapter | src/main/java/at/yawk/config/document/MapTypeAdapterFactory.java:24-28 | accepts exactly a parameterized `Map`, with key type argument 0 and value type argument 1 |
| MapTypeAdapterFactory.OnlyParameterizedMap | src/main/java/at/yawk/config/document/MapTypeAdapterFactory.java:25 | a raw `Map`, or any other raw class, is declined |
| Values.Put | src/main/java/at/yawk/config/document/MapTypeAdapterFactory.java:47 | after `put(k, v)` the map holds the entry `(k, v)`, grows by one exactly when `k` is new, and keeps every entry with another key at its position |
| Values.RuntimeClass | src/main/java/at/yawk/config/document/DocumentHandlerBuilder.java:30 | `getClass()` of an enum constant without a class body, or of a bean, is its declared class; of a built-in value, a concrete class that is never `Object`, `CharSequence` or a collection interface |
| Values.LookupPut | src/main/java/at/yawk/config/document/MapTypeAdapterFactory.java:47 | after `put(k, v)` the key maps to `v` and every other key is unchanged; a repeated key overwrites |
| Values.PutKeys | src/main/java/at/yawk/config/document/MapTypeAdapterFactory.java:47 | `put` of a new key appends it to the insertion order; a present key keeps its place |
| Values.PutAllFresh | src/main/java/at/yawk/config/document/MapTypeAdapterFactory.java:44-48 | inserting entries with distinct fresh keys yields them in insertion order |
| PrimitiveTypeAdapterFactory.CreateTypeAdapter | src/main/java/at/yawk/config/document/PrimitiveTypeAdapterFactory.java:149-157 | `String`/`CharSequence` and each boxed or primitive int, long, float, double and boolean select their own adapter, and nothing else is accepted |
| PrimitiveTypeAdapterFactory.Write | src/main/java/at/yawk/config/document/PrimitiveTypeAdapterFactory.java:19-144 | a value write emits one scalar |
| PrimitiveTypeAdapterFactory.Read | src/main/java/at/yawk/config/document/PrimitiveTypeAdapterFactory.java:19-144 | a value read consumes exactly one scalar |
| PrimitiveTypeAdapterFactory.Coerce | src/main/java/at/yawk/config/document/PrimitiveTypeAdapterFactory.java:26-132 | what a typed consumer accepts is a value the same adapter can write |
| PrimitiveTypeAdapterFactory.WriteKey | src/main/java/at/yawk/config/document/PrimitiveTypeAdapterFactory.java:30-138 | a key write emits one `Key` |
| PrimitiveTypeAdapterFactory.ReadKey | src/main/java/at/yawk/config/document/PrimitiveTypeAdapterFactory.java:35-143 | a key read consumes exactly one `Key` |
| PrimitiveTypeAdapterFactory.KeyValue | src/main/java/at/yawk/config/document/PrimitiveTypeAdapterFactory.java:56-143 | a parsed key is a value of the adapter's type; a failing int or long parse is a `NumberFormatException` for that text |
| PrimitiveTypeAdapterFactory.OwnClassIsWritable | src/main/java/at/yawk/config/document/PrimitiveTypeAdapterFactory.java:149-157 | each string, number and boolean has an adapter for its own boxed or primitive class, and that adapter writes it |
| PrimitiveTypeAdapterFactory.WriteReadRoundTrip | src/main/java/at/yawk/config/document/PrimitiveTypeAdapterFactory.java:19-144 | reading what `write` emitted gives the same value and leaves the rest of the input |
| PrimitiveTypeAdapterFactory.KeyRoundTrip | src/main/java/at/yawk/config/document/PrimitiveTypeAdapterFactory.java:30-143 | for string, int, long and boolean keys, `readKey(writeKey(v)) == v` |
| PrimitiveTypeAdapterFactory.KeyValueOfWriteKey | src/main/java/at/yawk/config/document/PrimitiveTypeAdapterFactory.java:51-80 | the canonical decimal text of an int or long parses back to it |
| PrimitiveTypeAdapterFactory.NumericKeyNeedsDigits | src/main/java/at/yawk/config/document/PrimitiveTypeAdapterFactory.java:56-80 | an int or long key is read only from an optional sign plus digits; any other text is a `NumberFormatException`, never 0 |
| PrimitiveTypeAdapterFactory.BooleanKeyTotal | src/main/java/at/yawk/config/document/PrimitiveTypeAdapterFactory.java:140-143 | a boolean key is true exactly for a case-insensitive "true" and never fails |
| PrimitiveTypeAdapterFactory.ReadFrom | src/main/java/at/yawk/config/document/PrimitiveTypeAdapterFactory.java:25-133 | the imperative read consumes and returns what `Read` states |
| PrimitiveTypeAdapterFactory.ReadKeyFrom | src/main/java/at/yawk/config/document/PrimitiveTypeAdapterFactory.java:35-143 | the imperative key read consumes and returns what `ReadKey` states |
| Text.ParseInt | src/main/java/at/yawk/config/document/PrimitiveTypeAdapterFactory.java:58 | `Integer.valueOf`/`Long.valueOf` give a value inside the requested range or a `NumberFormatException` |
| Text.ShowInt | src/main/java/at/yawk/config/document/PrimitiveTypeAdapterFactory.java:53 | `String.valueOf` of a number is non-empty text; `ParseShowInt` is its round trip |
| Text.ParseBoolean | src/main/java/at/yawk/config/document/PrimitiveTypeAdapterFactory.java:142 | `Boolean.valueOf` is true only for four-character text, is true for "true", "True" and "TRUE", and false for "false", "", "yes" and "1" |
| Text.ToLowerAscii | src/main/java/at/yawk/config/document/BeanTypeAdapter.java:94 | `Character.toLowerCase` on A–Z adds 32 and leaves every other character as it is (ASCII only; see "## Left out") |
| Text.ToUpperAscii | src/main/java/at/yawk/config/document/BeanTypeAdapter.java:138 | `Character.toUpperCase` on a–z subtracts 32 and leaves every other character as it is (ASCII only; see "## Left out") |
| Text.ParseShowInt | src/main/java/at/yawk/config/document/PrimitiveTypeAdapterFactory.java:52-59 | `Integer.valueOf(String.valueOf(i)) == i` for every value in range |
| Text.ParsedTextIsNumeric | src/main/java/at/yawk/config/document/PrimitiveTypeAdapterFactory.java:56-59 | text that parses is an optional sign followed by one or more digits |
| Text.ParseShowBool | src/main/java/at/yawk/config/document/PrimitiveTypeAdapterFactory.java:135-143 | `Boolean.valueOf(String.valueOf(b)) == b` |
| EnumTypeAdapterFactory.CreateTypeAdapter | src/main/java/at/yawk/config/document/EnumTypeAdapterFactory.java:22-47 | accepts exactly enum classes |
| EnumTypeAdapterFactory.Name | src/main/java/at/yawk/config/document/EnumTypeAdapterFactory.java:27 | `obj.name()` succeeds exactly on an enum constant and gives its name; any other value is a cast failure |
| EnumTypeAdapterFactory.ValueOf | src/main/java/at/yawk/config/document/EnumTypeAdapterFactory.java:32 | `Enum.valueOf` finds the constant with exactly this name, or fails naming it |
| EnumTypeAdapterFactory.Write | src/main/java/at/yawk/config/document/EnumTypeAdapterFactory.java:26-28 | an enum is written as the string scalar of its `name()` |
| EnumTypeAdapterFactory.WriteKey | src/main/java/at/yawk/config/document/EnumTypeAdapterFactory.java:36-38 | an enum key is written as `Key(name())` |
| EnumTypeAdapterFactory.Read | src/main/java/at/yawk/config/document/EnumTypeAdapterFactory.java:31-33 | a read yields a declared constant of the requested enum |
| EnumTypeAdapterFactory.ReadKey | src/main/java/at/yawk/config/document/EnumTypeAdapterFactory.java:41-43 | a key read yields a declared constant of the requested enum |
| EnumTypeAdapterFactory.RoundTrip | src/main/java/at/yawk/config/document/EnumTypeAdapterFactory.java:26-43 | for every constant, `read(write(v)) == v` and `readKey(writeKey(v)) == v` |
| EnumTypeAdapterFactory.UnknownNameFails | src/main/java/at/yawk/config/document/EnumTypeAdapterFactory.java:31-43 | an undeclared name fails as a value and as a key |
| EnumTypeAdapterFactory.ReadFrom | src/main/java/at/yawk/config/document/EnumTypeAdapterFactory.java:31-33 | the imperative read consumes and returns what `Read` states |
| EnumTypeAdapterFactory.ReadKeyFrom | src/main/java/at/yawk/config/document/EnumTypeAdapterFactory.java:41-43 | the imperative key read consumes and returns what `ReadKey` states |
| BeanTypeAdapter.ItemName | src/main/java/at/yawk/config/document/BeanTypeAdapter.java:82-96 | "is" is tested before "get"; the prefix is stripped and the next character lower-cased; a name that is only a prefix, or has no prefix, gives none (lower case on ASCII only; see "## Left out") |
| BeanTypeAdapter.SetterName | src/main/java/at/yawk/config/document/BeanTypeAdapter.java:137-139 | "set", then the upper-cased first character, then the rest; undefined (an exception) for the empty name (upper case on ASCII only; see "## Left out") |
| BeanTypeAdapter.ItemNameInvertsPrefix | src/main/java/at/yawk/config/document/BeanTypeAdapter.java:82-96 | for every property name that starts with an ASCII lower-case letter, "get" or "is" followed by the name with its first letter upper-cased gives the name back |
| BeanTypeAdapter.SetterMatchesGetter | src/main/java/at/yawk/config/document/BeanTypeAdapter.java:82-139 | for a getter "get"/"is" + an upper-case letter + a suffix, the setter looked up is "set" + the same letter and suffix |
| BeanTypeAdapter.Serialized | src/main/java/at/yawk/config/document/BeanTypeAdapter.java:30-48 | a method's `@Serialize` wins, then the class's, and the default is true |
| BeanTypeAdapter.CommentTokens | src/main/java/at/yawk/config/document/BeanTypeAdapter.java:62-73 | at most one comment, present iff a description is present |
| BeanTypeAdapter.FindGetter | src/main/java/at/yawk/config/document/BeanTypeAdapter.java:52 | the first non-static, zero-parameter method of the name in the receiver's table, and none iff there is no such method |
| BeanTypeAdapter.InvokedBody | src/main/java/at/yawk/config/document/BeanTypeAdapter.java:52 | `method.invoke(obj)` runs the getter's own body on an object of the declared class, and otherwise the override `FindGetter` finds in the object's class, falling back to the getter's own body |
| BeanTypeAdapter.FindSetter | src/main/java/at/yawk/config/document/BeanTypeAdapter.java:115-121 | the first method with the setter's name and one parameter, and none iff there is no such method |
| BeanTypeAdapter.LocateSetter | src/main/java/at/yawk/config/document/BeanTypeAdapter.java:115-121 | the search loop finds what `FindSetter` states |
| BeanTypeAdapter.Invoke | src/main/java/at/yawk/config/document/BeanTypeAdapter.java:128-132 | a storing setter stores the value read in its slot; a failing setter leaves the instance unchanged |
| BeanTypeAdapter.InvokeKeepsOtherSlots | src/main/java/at/yawk/config/document/BeanTypeAdapter.java:128-132 | a setter changes no slot other than its own |
| BeanTypeAdapterFactory.CreateTypeAdapter | src/main/java/at/yawk/config/document/BeanTypeAdapterFactory.java:23-36 | the raw class gets a bean adapter iff it is not `Object` and has a public no-argument constructor |
| BeanTypeAdapterFactory.RawClassDecides | src/main/java/at/yawk/config/document/BeanTypeAdapterFactory.java:24-28 | a parameterized type is decided by its raw class; `Object` and non-class types are declined |
| AnnotatedTypeAdapterFactory.CreateTypeAdapter | src/main/java/at/yawk/config/document/AnnotatedTypeAdapterFactory.java:25-40 | a `@SerializedBy` class yields an instance of the named adapter iff that adapter can be instantiated; otherwise null |
| AnnotatedTypeAdapterFactory.RawClassDecides | src/main/java/at/yawk/config/document/AnnotatedTypeAdapterFactory.java:26-29 | a parameterized type is decided by its raw class; non-class types are declined |
| BeanPropertyRead.UnknownPropertySkipped | src/main/java/at/yawk/config/document/BeanTypeAdapter.java:122-126 | a key with no one-argument setter skips its whole value, however deep, and leaves the instance unchanged |
| BeanPropertyRead.KnownPropertySet | src/main/java/at/yawk/config/document/BeanTypeAdapter.java:127-132 | a key with a setter reads the value with the setter's parameter type and applies the setter |
| BeanPropertyRead.EmptyKeyFails | src/main/java/at/yawk/config/document/BeanTypeAdapter.java:137-139 | an empty key fails in `getSetterName` |
| BeanPropertyRead.UnknownPropertyIgnored | src/main/java/at/yawk/config/document/BeanTypeAdapter.java:107-133 | an unknown key with its value in the middle of a bean makes no difference to the rest of the read |
| GsonWrapperTypeAdapterFactory.CreateTypeAdapter | src/main/java/at/yawk/config/document/GsonWrapperTypeAdapterFactory.java:25-99 | without Gson nothing is accepted; with it, classes only, tested in the order JsonPrimitive, JsonArray, JsonObject |
| GsonWrapperTypeAdapterFactory.OwnClassDispatch | src/main/java/at/yawk/config/document/GsonWrapperTypeAdapterFactory.java:38-96 | each of the three Gson classes selects its own adapter |
| GsonWrapperTypeAdapterFactory.WritePrimitive | src/main/java/at/yawk/config/document/GsonWrapperTypeAdapterFactory.java:42-54 | a `JsonPrimitive` write emits one scalar |
| GsonWrapperTypeAdapterFactory.ReadPrimitive | src/main/java/at/yawk/config/document/GsonWrapperTypeAdapterFactory.java:135-144 | `readPrimitive` consumes exactly one scalar and yields a `JsonPrimitive`: a string iff the scalar is STRING, a boolean iff it is BOOLEAN, and otherwise the number `doubleValue()` gives for it (a long kept exact; see "## Left out") |
| GsonWrapperTypeAdapterFactory.ReadAny | src/main/java/at/yawk/config/document/GsonWrapperTypeAdapterFactory.java:124-133 | `readAny` consumes input |
| GsonWrapperTypeAdapterFactory.ReadArray | src/main/java/at/yawk/config/document/GsonWrapperTypeAdapterFactory.java:113-122 | `readArray` yields a `JsonArray` |
| GsonWrapperTypeAdapterFactory.ReadItems | src/main/java/at/yawk/config/document/GsonWrapperTypeAdapterFactory.java:117-120 | the array loop yields a `JsonArray` |
| GsonWrapperTypeAdapterFactory.ReadObject | src/main/java/at/yawk/config/document/GsonWrapperTypeAdapterFactory.java:101-111 | `readObject` yields a `JsonObject` |
| GsonWrapperTypeAdapterFactory.ReadMembers | src/main/java/at/yawk/config/document/GsonWrapperTypeAdapterFactory.java:104-109 | the object loop yields a `JsonObject` |
| GsonWrapperTypeAdapterFactory.PrimitiveRoundTrip | src/main/java/at/yawk/config/document/GsonWrapperTypeAdapterFactory.java:42-58 | a written `JsonPrimitive` is read back equal, by `readPrimitive` and by `readAny` |
| GsonWrapperTypeAdapterFactory.ReadPrimitiveFrom | src/main/java/at/yawk/config/document/GsonWrapperTypeAdapterFactory.java:135-144 | the imperative `readPrimitive` does what `ReadPrimitive` states |
| GsonWrapperTypeAdapterFactory.ReadAnyFrom | src/main/java/at/yawk/config/document/GsonWrapperTypeAdapterFactory.java:124-133 | the imperative `readAny` does what `ReadAny` states |
| GsonWrapperTypeAdapterFactory.ReadArrayFrom | src/main/java/at/yawk/config/document/GsonWrapperTypeAdapterFactory.java:113-122 | the `readArray` loop does what `ReadArray` states |
| GsonWrapperTypeAdapterFactory.ReadObjectFrom | src/main/java/at/yawk/config/document/GsonWrapperTypeAdapterFactory.java:101-111 | the `readObject` loop does what `ReadObject` states |
| JsonTreeRoundTrip.JsonNullIsBean | src/main/java/at/yawk/config/document/GsonWrapperTypeAdapterFactory.java:36-95 | Gson's `JsonNull`, written by its runtime class, resolves in a new registry to the bean adapter and not to a Gson adapter |
| JsonTreeRoundTrip.DefaultGsonResolves | src/main/java/at/yawk/config/document/TypeAdapterRegistryImpl.java:18-20 | with Gson present, the default registry resolves the three Gson classes to their own adapters |
| JsonTreeRoundTrip.TreeRoundTrip | src/main/java/at/yawk/config/document/GsonWrapperTypeAdapterFactory.java:42-144 | for every tree of `JsonPrimitive`, `JsonArray` and `JsonObject` nodes with distinct object keys, `readAny` of what the registry writes for it rebuilds the same tree and leaves the rest of the input (trees holding `JsonNull` are excluded; see "## Left out") |
| JsonTreeRoundTrip.ItemsRoundTrip | src/main/java/at/yawk/config/document/GsonWrapperTypeAdapterFactory.java:65-122 | the array children are read back in order |
| JsonTreeRoundTrip.MembersRoundTrip | src/main/java/at/yawk/config/document/GsonWrapperTypeAdapterFactory.java:82-111 | the object members are read back with their keys, in order |
| JsonTreeRoundTrip.DocumentRoundTrip | src/main/java/at/yawk/config/document/DocumentHandlerBuilder.java:28-38 | a root write of a tree of the three modelled Gson classes, read as its own class, gives the tree back (`JsonNull` excluded; see "## Left out") |
| JsonTreeRoundTrip.ReadByOwnClass | src/main/java/at/yawk/config/document/DocumentHandlerBuilder.java:35-38 | a root read as a Gson class is `readAny` on any input that starts the matching way |
| RoundTrip.PrimitiveRoundTrips | src/main/java/at/yawk/config/document/PrimitiveTypeAdapterFactory.java:19-144 | a type resolving to a primitive adapter round-trips every value that adapter can write |
| RoundTrip.PrimitiveKeyRoundTrips | src/main/java/at/yawk/config/document/PrimitiveTypeAdapterFactory.java:30-143 | a type resolving to the string, int, long or boolean adapter round-trips every key |
| RoundTrip.ElemsRoundTrip | src/main/java/at/yawk/config/document/CollectionTypeAdapterFactory.java:45-61 | the element part written from index i reads back as those elements added to the container in order |
| RoundTrip.CollectionRoundTrip | src/main/java/at/yawk/config/document/CollectionTypeAdapterFactory.java:45-62 | a collection of round-tripping elements reads back as a fresh container of the resolved implementation with the elements added in iteration order |
| RoundTrip.CollectionContents | src/main/java/at/yawk/config/document/CollectionTypeAdapterFactory.java:24-62 | a list, collection or queue reads back equal; a set reads back duplicate-free with the same members, and equal when the elements were distinct (distinct by value equality; see "## Left out") |
| RoundTrip.EntriesRoundTrip | src/main/java/at/yawk/config/document/MapTypeAdapterFactory.java:31-50 | the entry part written from index i reads back as those entries `put` in order |
| RoundTrip.MapRoundTrip | src/main/java/at/yawk/config/document/MapTypeAdapterFactory.java:31-51 | a map of round-tripping keys and values reads back as its entries `put` in iteration order |
| RoundTrip.MapContents | src/main/java/at/yawk/config/document/MapTypeAdapterFactory.java:29-51 | a map with distinct keys reads back equal |
| MapOfListScenario.ResolveMap | src/main/java/at/yawk/config/document/MapTypeAdapterFactory.java:24-28 | `Map<String, List<Integer>>` resolves to the map adapter with those key and value types |
| MapOfListScenario.ResolveList | src/main/java/at/yawk/config/document/CollectionTypeAdapterFactory.java:35-43 | `List<Integer>` resolves to an `ArrayList` collection adapter of `Integer` |
| MapOfListScenario.ResolveString | src/main/java/at/yawk/config/document/PrimitiveTypeAdapterFactory.java:150 | `String` resolves to the string adapter |
| MapOfListScenario.ResolveInt | src/main/java/at/yawk/config/document/PrimitiveTypeAdapterFactory.java:151 | `Integer` resolves to the int adapter |
| MapOfListScenario.Scenario | src/main/java/at/yawk/config/document/MapTypeAdapterFactory.java:31-51 | {"a" ↦ [1,2,3]} as `Map<String, List<Integer>>` writes `EnterObject, Key("a"), EnterList, 1, 2, 3, ExitList, ExitObject` and reads back equal |
| MapOfListScenario.DocRoundTrips | src/main/java/at/yawk/config/document/MapTypeAdapterFactory.java:31-51 | the example map round-trips for every rest of the input |
| TokenStream.Poll | src/main/java/at/yawk/config/file/ObjectReader.java:14-40 | each read takes the next non-comment token and consumes input |
| TokenStream.ExpectToken | src/main/java/at/yawk/config/file/ObjectReader.java:19-25 | `enterObject`/`exitObject`/`enterList`/`exitList` succeed iff the next token is the expected one |
| TokenStream.ReadKey | src/main/java/at/yawk/config/file/ObjectReader.java:27 | `key()` succeeds iff the next token is a `Key` and returns its name |
| TokenStream.AsInt | src/main/java/at/yawk/config/file/ObjectReader.java:31 | `intValue()` accepts an int, or a long inside the int range, with its value unchanged; anything else fails |
| TokenStream.AsLong | src/main/java/at/yawk/config/file/ObjectReader.java:33 | `longValue()` accepts an int or a long, with its value unchanged; anything else fails |
| TokenStream.AsDouble | src/main/java/at/yawk/config/file/ObjectReader.java:37 | `doubleValue()` accepts a double as it is, and an int or a long as the whole number of that value (exact; see "## Left out") |
| TokenStream.ReadScalar | src/main/java/at/yawk/config/file/ObjectReader.java:29-39 | the scalar reads succeed iff the next token is a scalar |
| TokenStream.SkipDeepSkipsOneValue | src/main/java/at/yawk/config/file/ObjectReader.java:17 | `skipDeep()` consumes exactly one whole value, however deep |
| TokenStream.TokenWriter.Emit | src/main/java/at/yawk/config/file/ObjectWriter.java:12-36 | each writer call appends exactly one token |
| TokenStream.TokenReader.Peek | src/main/java/at/yawk/config/file/ObjectReader.java:15 | `peek()` reports the kind of the next token and consumes nothing |
| TokenStream.TokenReader.Expect | src/main/java/at/yawk/config/file/ObjectReader.java:19-25 | the checked enter/exit calls consume what `ExpectToken` states |
| TokenStream.TokenReader.Key | src/main/java/at/yawk/config/file/ObjectReader.java:27 | `key()` consumes what `ReadKey` states |
| TokenStream.TokenReader.Scalar | src/main/java/at/yawk/config/file/ObjectReader.java:29-39 | a scalar read consumes what `ReadScalar` states |
| TokenStream.TokenReader.SkipDeep | src/main/java/at/yawk/config/file/ObjectReader.java:17 | the depth-counting loop consumes what `SkipValue` states |
| Tokens.KindOf | src/main/java/at/yawk/config/file/TokenType.java:12-27 | each token has the `TokenType` of its kind |
| Types.RawType | src/main/java/at/yawk/config/document/BeanTypeAdapterFactory.java:24-26 | a parameterized type is reduced to its raw class, and other types are kept |
| SnakeYamlConfigurationFormat.NextEvent | src/main/java/at/yawk/config/file/snakeyaml/SnakeYamlConfigurationFormat.java:170-179 | `poll` returns the first event that is not a stream or document boundary, and none only when the rest is all boundaries |
| SnakeYamlConfigurationFormat.NextEventAfterFraming | src/main/java/at/yawk/config/file/snakeyaml/SnakeYamlConfigurationFormat.java:170-179 | after any run of boundary events, `poll` returns the next real event and leaves what follows |
| SnakeYamlConfigurationFormat.ScalarType | src/main/java/at/yawk/config/file/snakeyaml/SnakeYamlConfigurationFormat.java:189-203 | a scalar is LONG if it parses as a long, else DOUBLE if it parses as a double, else BOOLEAN for exactly "true"/"false", else STRING |
| SnakeYamlConfigurationFormat.Classify | src/main/java/at/yawk/config/file/snakeyaml/SnakeYamlConfigurationFormat.java:183-205 | `peek` never reports KEY, INT or FLOAT, and its only failure is an unsupported event |
| SnakeYamlConfigurationFormat.ClassifyStructure | src/main/java/at/yawk/config/file/snakeyaml/SnakeYamlConfigurationFormat.java:184-188 | the four structural kinds correspond one to one to sequence and mapping start and end, and exactly the other non-scalar events fail |
| SnakeYamlConfigurationFormat.ClassifyDoesNotSkipFraming | src/main/java/at/yawk/config/file/snakeyaml/SnakeYamlConfigurationFormat.java:183-205 | a boundary event as the next event makes `peek` fail, although `poll` would skip it |
| SnakeYamlConfigurationFormat.LongPeeksAsLong | src/main/java/at/yawk/config/file/snakeyaml/SnakeYamlConfigurationFormat.java:189-194 | the text of any long is classified LONG |
| SnakeYamlConfigurationFormat.BoolPeeksAsBoolean | src/main/java/at/yawk/config/file/snakeyaml/SnakeYamlConfigurationFormat.java:199-201 | "true" and "false" are classified BOOLEAN unless they parse as a double |
| SnakeYamlConfigurationFormat.ExpectEvent | src/main/java/at/yawk/config/file/snakeyaml/SnakeYamlConfigurationFormat.java:218-247 | a checked enter/exit consumes one polled event and fails, naming it, unless it is the expected one |
| SnakeYamlConfigurationFormat.ReadString | src/main/java/at/yawk/config/file/snakeyaml/SnakeYamlConfigurationFormat.java:255-258 | `stringValue()` polls one event and succeeds iff it is a scalar, returning its text |
| SnakeYamlConfigurationFormat.ReadInteger | src/main/java/at/yawk/config/file/snakeyaml/SnakeYamlConfigurationFormat.java:261-268 | `intValue()`/`longValue()` return a value in range whose text the polled scalar is |
| SnakeYamlConfigurationFormat.ReadBoolean | src/main/java/at/yawk/config/file/snakeyaml/SnakeYamlConfigurationFormat.java:281-283 | `booleanValue()` is `Boolean.parseBoolean` of the polled scalar and fails only when `stringValue()` fails |
| SnakeYamlConfigurationFormat.SkipFrom | src/main/java/at/yawk/config/file/snakeyaml/SnakeYamlConfigurationFormat.java:208-215 | the `skipDeep` loop never grows the input |
| SnakeYamlConfigurationFormat.SkipNode | src/main/java/at/yawk/config/file/snakeyaml/SnakeYamlConfigurationFormat.java:208-215 | at any depth, the loop passes a whole node and continues as after it |
| SnakeYamlConfigurationFormat.SkipDeepSkipsOneNode | src/main/java/at/yawk/config/file/snakeyaml/SnakeYamlConfigurationFormat.java:208-215 | `skipDeep()` consumes exactly one scalar, or one collection through its matching end |
| SnakeYamlConfigurationFormat.NodeBalanced | src/main/java/at/yawk/config/file/snakeyaml/SnakeYamlConfigurationFormat.java:62-63 | every node's events raise and lower the depth equally |
| SnakeYamlConfigurationFormat.YamlReader.constructor | src/main/java/at/yawk/config/file/snakeyaml/SnakeYamlConfigurationFormat.java:167-169 | a reader starts at the first event of the parser |
| SnakeYamlConfigurationFormat.YamlReader.Poll | src/main/java/at/yawk/config/file/snakeyaml/SnakeYamlConfigurationFormat.java:170-179 | the do-while loop consumes the events `NextEvent` states and returns its event |
| SnakeYamlConfigurationFormat.YamlReader.Peek | src/main/java/at/yawk/config/file/snakeyaml/SnakeYamlConfigurationFormat.java:183-205 | `peek()` returns `Classify` of the remaining events and consumes nothing |
| SnakeYamlConfigurationFormat.YamlReader.SkipDeep | src/main/java/at/yawk/config/file/snakeyaml/SnakeYamlConfigurationFormat.java:208-215 | the depth-counting loop consumes what `SkipFrom` states |
| SnakeYamlConfigurationFormat.YamlReader.Expect | src/main/java/at/yawk/config/file/snakeyaml/SnakeYamlConfigurationFormat.java:218-247 | a checked enter/exit consumes what `ExpectEvent` states |
| SnakeYamlConfigurationFormat.YamlReader.StringValue | src/main/java/at/yawk/config/file/snakeyaml/SnakeYamlConfigurationFormat.java:250-258 | `key()`/`stringValue()` consume what `ReadString` states |
| SnakeYamlConfigurationFormat.YamlReader.IntegerValue | src/main/java/at/yawk/config/file/snakeyaml/SnakeYamlConfigurationFormat.java:261-268 | `intValue()`/`longValue()` consume what `ReadInteger` states |
| SnakeYamlConfigurationFormat.YamlReader.BooleanValue | src/main/java/at/yawk/config/file/snakeyaml/SnakeYamlConfigurationFormat.java:281-283 | `booleanValue()` consumes what `ReadBoolean` states |
| SnakeYamlConfigurationFormat.YamlWriter.constructor | src/main/java/at/yawk/config/file/snakeyaml/SnakeYamlConfigurationFormat.java:48-49 | a writer starts with `start` set, depth 0 and nothing emitted |
| SnakeYamlConfigurationFormat.YamlWriter.Send | src/main/java/at/yawk/config/file/snakeyaml/SnakeYamlConfigurationFormat.java:58-63 | the emitter receives the event, and depth rises on a collection start and falls on a collection end |
| SnakeYamlConfigurationFormat.YamlWriter.Emit | src/main/java/at/yawk/config/file/snakeyaml/SnakeYamlConfigurationFormat.java:51-72 | the first `emit` prepends StreamStart and DocumentStart exactly once and clears `start`; depth then moves by the event |
| SnakeYamlConfigurationFormat.YamlWriter.ItemString | src/main/java/at/yawk/config/file/snakeyaml/SnakeYamlConfigurationFormat.java:75-77 | `key(k)` and `item(String)` emit one plain scalar of that text |
| SnakeYamlConfigurationFormat.YamlWriter.ItemInteger | src/main/java/at/yawk/config/file/snakeyaml/SnakeYamlConfigurationFormat.java:140-147 | `item(int)`/`item(long)` emit the scalar `String.valueOf(value)` |
| SnakeYamlConfigurationFormat.YamlWriter.ItemBoolean | src/main/java/at/yawk/config/file/snakeyaml/SnakeYamlConfigurationFormat.java:160-162 | `item(boolean)` emits the scalar "true" or "false" |
| SnakeYamlConfigurationFormat.YamlWriter.Structure | src/main/java/at/yawk/config/file/snakeyaml/SnakeYamlConfigurationFormat.java:80-110 | the enter/exit calls emit the matching collection event and move depth by one |
| SnakeYamlConfigurationFormat.YamlWriter.Write | src/main/java/at/yawk/config/file/snakeyaml/SnakeYamlConfigurationFormat.java:74-162 | each neutral token becomes its event through `emit`; a comment emits no event and changes no state |
| SnakeYamlConfigurationFormat.TokenEvent | src/main/java/at/yawk/config/file/snakeyaml/SnakeYamlConfigurationFormat.java:74-162 | every token other than a comment becomes exactly one non-boundary event |
| SnakeYamlConfigurationFormat.PeekOfWritten | src/main/java/at/yawk/config/file/snakeyaml/SnakeYamlConfigurationFormat.java:183-203 | `peek` of a written structural token gives its kind back; ints and longs peek as LONG, booleans as BOOLEAN, and nothing peeks as KEY or INT |
| SnakeYamlConfigurationFormat.ScalarRoundTrip | src/main/java/at/yawk/config/file/snakeyaml/SnakeYamlConfigurationFormat.java:255-283 | after any boundary events, a written string, integer or boolean scalar is read back equal and leaves what follows |
| SnakeYamlConfigurationFormat.StructureRoundTrip | src/main/java/at/yawk/config/file/snakeyaml/SnakeYamlConfigurationFormat.java:218-247 | a checked enter/exit after any boundary events consumes the next event and succeeds iff it is the expected one |

## Left out

- GsonWrapperTypeAdapterFactory.ReadPrimitive: a long scalar is read with `doubleValue()` and kept as the exact whole number. Java rounds a long beyond 2^53 to the nearest double, so `JsonPrimitive(9007199254740993L)` comes back as 9007199254740992.0. The rebuilt primitive is still `equals` to the written one, because Gson compares it by `doubleValue()`, but a second write emits the rounded number. The double 2^63 is opaque here (`NonWhole`) and written as a double, where the write at GsonWrapperTypeAdapterFactory.java:45-46 emits `item(Long.MAX_VALUE)` for it, because `getAsLong` saturates and `(double) Long.MAX_VALUE` is 2^63.
- TokenStream.AsDouble: an int or a long read as a double is the exact whole number, without the rounding of a Java `double`. For the same reason a `VDouble(Whole(n))` or `VFloat(Whole(n))` can hold a value no `double` or `float` can hold.
- JsonTreeRoundTrip.JsonTree: there is no `JsonNull` value, so a tree holding a JSON null is outside the model. In the source, a `JsonNull` child is written by its runtime class, the Gson wrapper declines that class, and the bean factory accepts it through its public no-argument constructor (`JsonNullIsBean` proves the resolution). The bean writer then calls `getAsJsonNull()`, which returns the same object, so the write recurses without end. That endless write is not modelled.
- JsonTreeRoundTrip.TreeRoundTrip: holds for trees of `JsonPrimitive`, `JsonArray` and `JsonObject` only; trees holding `JsonNull` are excluded, as above.
- JsonTreeRoundTrip.DocumentRoundTrip: the same `JsonNull` exclusion as `TreeRoundTrip`.
- CollectionTypeAdapterFactory.Add: a `LinkedHashSet` drops an element equal to one it holds by the model's value equality, not Java's `equals`/`hashCode`. The two differ for nested sets, maps and `JsonObject`s, which Java compares ignoring order: `Set<Set<Integer>>` read from `[[1, 2], [2, 1]]` keeps one element in Java and two here. They also differ for `ArrayDeque`s, and for beans that do not override `equals`, which Java compares by identity: two equal-looking beans of such a class stay two elements in Java and become one here. Scalars, strings, enum constants, and lists of scalars, strings and enum constants compare the same way in both.
- CollectionTypeAdapterFactory.AddAllSet: distinctness and membership are by the model's value equality, as for `Add`.
- CollectionTypeAdapterFactory.AddAllFirstOccurrences: "occurs earlier" is by the model's value equality, as for `Add`.
- RoundTrip.CollectionContents: the set clause rests on the model's value equality, as for `Add`.
- BeanTypeAdapter.ItemName: the first character after the prefix is lower-cased on ASCII letters only. `Character.toLowerCase` maps every letter: getter `getÄrger` names the key "ärger" in Java and "Ärger" here.
- BeanTypeAdapter.SetterName: the first character is upper-cased on ASCII letters only, where `Character.toUpperCase` maps every letter: the key "ärger" looks for `setÄrger` in Java and `setärger` here, so a non-ASCII property is skipped on read. `Encoding.Property`, `Encoding.ReadProperty` and the context methods inherit this.
- Text.ToLowerAscii and Text.ToUpperAscii: case mapping covers ASCII letters only; Unicode case tables are not modelled.
- Floating point. `float`/`double` values are opaque except when their value is a whole number. Their text (`String.valueOf(double)`, `Double.parseDouble`) is a parameter: `numText` for the writer and `parsesAsDouble` for `peek`.
- PrimitiveTypeAdapterFactory.Write / WriteKey: a null `String` or `CharSequence` is a `Mismatch` here. In the source no cast fails and nothing is unboxed: the string adapter hands the null to the backend, through `item((String) null)` for a value or `key(null)` for a key. This covers a null collection element, a null map value and a null map key (CollectionTypeAdapterFactory.java:47-49, MapTypeAdapterFactory.java:33-36). What the Gson and YAML writers then do with a null string is backend behaviour outside this model, so `Encoding.Write`, `Encoding.WriteKey` and the context methods fail where the source may write something.
- Values.RuntimeClass: an enum constant with a constant-specific class body is not modelled. Its `getClass()` in Java is an anonymous subclass whose `isEnum()` is false, so a root write of it is declined by the enum factory. The bean factory finds no public no-argument constructor, and the lookup fails with `UnsupportedOperationException`. Here every `VEnum` has its declared class, so `DocumentHandlerBuilder.DocumentHandler.Write` emits the constant's name for it. A constant inside a collection, map or bean property is written by its declared type in both, and is unaffected.
- PrimitiveTypeAdapterFactory.WriteKey: float and double key forms (`String.valueOf` then `Float.valueOf`/`Double.valueOf`) return `FloatText` instead of a key, because their text is not modelled.
- `Integer.parseInt` and `Long.parseLong` accept only ASCII digits here; the non-ASCII Unicode digits Java also accepts are not modelled.
- `registerAdapter(TypeAdapter)` is left out. It finds the adapter's type through generic-interface reflection (`getGenericInterfaces`), which the `World` table does not describe.
- User-written adapters (`@SerializedBy` targets and registered adapters) are opaque: running one yields `UserCode(id)`, because their code is not part of this library.
- The cache is a plain map. The thread safety of `ConcurrentHashMap.computeIfAbsent` is not modelled, because the model is sequential.
- Comment text. The YAML writer's `comment` writes wrapped lines through reflective calls into the emitter. Here a comment is one opaque token, and `Util.wrap` is not part of this model.
- The `@DescribedAs` lookup on the field behind a getter is folded into the method table's description entry.
- Writer flushing at depth 0, the `IOException` wrapping in `emit`, and parser and emitter internals (anchors, tags, styles, line breaks) are I/O. The model represents the parser by its event list and the emitter by the events it has received.
- SnakeYamlConfigurationFormat.SkipFrom: at the end of the events inside a collection the source's `skipDeep` loops for ever on `null` events; the model reports `EndOfEvents` there instead.
- SnakeYamlConfigurationFormat.ReadString: `stringValue()` on a non-scalar event is a `ClassCastException`, modelled as a `NotScalar` error.
- Logging (`log.warn`) is omitted. A failed getter or setter, and a failed `@SerializedBy` instantiation, continue as the source does.
- Java reflection order. The order of `getMethods()` is whatever the `World` table lists.
- Encoding.Read: its own contract states only that input is consumed. What a read returns is given by its definition and by the round-trip lemmas.
- `Configuration`, `ConfigurationFormat`, the format configurers and their registry, and the Gson file format are not part of this model. They are file, stream and option plumbing around the core.
