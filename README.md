# squiggly: function registry and property-filter decision, in Dafny

This project models two pieces of squiggly, a field-filtering extension for
the Jackson JSON serializer:

- **`MapFunctionSource`**, the registry of filter functions
  (`FunctionSource.dfy`). Every function is filed under its lower-cased name
  and under each of its lower-cased aliases. A lookup lower-cases the query
  and answers the list filed under it, or the empty list on a miss. The index
  is built once, by a stream `flatMap` into (key, function) pairs and a
  `groupingBy(key, toList())`, and never changes. The model is a datatype
  value built by `Create` (both Java constructors) and read by `FindByName`.
  Each step of the stream pipeline has its own function: `Keys`, `Tag`,
  `Entries`, `Group`. `Registered` is an independent reference definition of
  a bucket: walk the registrations in order, and let each function contribute
  one copy of itself per occurrence of the key among its keys.
- **`SquigglyPropertyFilter`**, the per-field decision of the Jackson filter
  (`PropertyFilter.dfy`). `GetPath` is the imperative `getPath`: a loop over
  the output-context chain, proved equal to the function `PathOf`. `Match`
  and `SerializeAsField` are the branching of `match` and `serializeAsField`.
  The output is an `Action`: include unchanged, convert, write the excluded
  marker, or write nothing.

`Wrappers.dfy` holds `Option` (Java `null`) and `Result` (a thrown exception).

The collaborators the filter calls but whose code is elsewhere are fields
of the `Squiggly` record, as functions: the context provider's
filtering-enabled flag and context factory, the node matcher, the function
invoker and Java's `"" + x` string conversion. A bean writer carries its
getter as a function. A generator is its output-context chain (innermost
frame first, empty for no context) plus its can-omit flag.

`path.getFirst()` in `match` is the root-most element of the path, not the
field element, because ancestors are added at the front. The model passes
that element's value to the context provider.

## Model

| member | source | states |
|---|---|---|
| `FunctionSource.Lower` | squiggly-core/src/main/java/com/github/bohnman/squiggly/function/support/MapFunctionSource.java:32 | lower-casing keeps the length and lowers each character, so no capital letter remains |
| `FunctionSource.LowerIdempotent` | squiggly-core/src/main/java/com/github/bohnman/squiggly/function/support/MapFunctionSource.java:44 | lower-casing an already lower-cased string changes nothing |
| `FunctionSource.Tag` | squiggly-core/src/main/java/com/github/bohnman/squiggly/function/support/MapFunctionSource.java:32 | the pairs of one function are (key, that function) for each of its keys, its lower-cased name first and then its lower-cased aliases, one pair per key |
| `FunctionSource.Entries` | squiggly-core/src/main/java/com/github/bohnman/squiggly/function/support/MapFunctionSource.java:32 | every flatMapped pair holds a registered function and one of that function's own lower-cased name or aliases as key |
| `FunctionSource.Group` | squiggly-core/src/main/java/com/github/bohnman/squiggly/function/support/MapFunctionSource.java:33 | the grouped map has no empty bucket: a key is filed only together with a function |
| `FunctionSource.BucketEntries` | squiggly-core/src/main/java/com/github/bohnman/squiggly/function/support/MapFunctionSource.java:32 | the flatMapped (key, function) pairs with key k, in stream order, are the functions in registration order, each repeated once per occurrence of k among its lower-cased name and aliases |
| `FunctionSource.GroupBucket` | squiggly-core/src/main/java/com/github/bohnman/squiggly/function/support/MapFunctionSource.java:33 | groupingBy with toList files under k exactly the pairs whose key is k, in encounter order, and a key is present iff that list is non-empty |
| `FunctionSource.Create` | squiggly-core/src/main/java/com/github/bohnman/squiggly/function/support/MapFunctionSource.java:25-36 | the built index files under every key exactly the reference bucket (registration order, duplicates kept), and holds exactly the keys whose bucket is non-empty |
| `FunctionSource.FindByName` | squiggly-core/src/main/java/com/github/bohnman/squiggly/function/support/MapFunctionSource.java:43-45 | the answer is the bucket filed under the lower-cased query when there is one, and the empty list otherwise: a miss never fails |
| `FunctionSource.FindByNameRegistered` | squiggly-core/src/main/java/com/github/bohnman/squiggly/function/support/MapFunctionSource.java:43-45 | a lookup answers the reference bucket of the lower-cased query: registration order and multiplicity, and the empty list on a miss |
| `FunctionSource.FindByNameMembers` | squiggly-core/src/main/java/com/github/bohnman/squiggly/function/support/MapFunctionSource.java:44 | g is in a lookup's answer iff g is registered and its name or one of its aliases lower-cases to the lower-cased query |
| `FunctionSource.FindByNameFindsName` | squiggly-core/src/main/java/com/github/bohnman/squiggly/function/support/MapFunctionSource.java:32 | every case variant of a registered function's name finds that function |
| `FunctionSource.FindByNameFindsAlias` | squiggly-core/src/main/java/com/github/bohnman/squiggly/function/support/MapFunctionSource.java:32 | every case variant of any alias of a registered function finds that function |
| `FunctionSource.FindByNameMiss` | squiggly-core/src/main/java/com/github/bohnman/squiggly/function/support/MapFunctionSource.java:44 | a query that no registered name or alias matches case-insensitively answers the empty list |
| `FunctionSource.FindByNameCaseInsensitive` | squiggly-core/src/main/java/com/github/bohnman/squiggly/function/support/MapFunctionSource.java:44 | two queries with the same lower-case form answer the same list, and that is the list answered for the lower-case form itself |
| `FunctionSource.IndexSound` | squiggly-core/src/main/java/com/github/bohnman/squiggly/function/support/MapFunctionSource.java:31-33 | every key in the index is lower-case, its bucket is non-empty, every function in it is registered and declares the key, and looking the key up answers that bucket |
| `FunctionSource.FindByNameExample` | squiggly-core/src/main/java/com/github/bohnman/squiggly/function/support/MapFunctionSource.java:42-45 | a function named X with alias y is found, as the same one-element list, under x, X, y and Y |
| `PropertyFilter.NewFilter` | squiggly-jackson/src/main/java/com/github/bohnman/squiggly/jackson/filter/SquigglyPropertyFilter.java:82-84 | construction fails exactly when no Squiggly instance is given, and otherwise keeps the one given |
| `PropertyFilter.IncludeBeanWriter` | squiggly-jackson/src/main/java/com/github/bohnman/squiggly/jackson/filter/SquigglyPropertyFilter.java:86-89 | the single-argument include for a bean writer always fails with an unsupported-operation error and its message |
| `PropertyFilter.IncludeWriter` | squiggly-jackson/src/main/java/com/github/bohnman/squiggly/jackson/filter/SquigglyPropertyFilter.java:92-95 | the single-argument include for any writer always fails with an unsupported-operation error and its message |
| `PropertyFilter.PathOf` | squiggly-jackson/src/main/java/com/github/bohnman/squiggly/jackson/filter/SquigglyPropertyFilter.java:143-159 | with no output context the path is empty; otherwise it has one element more than there are ancestor frames with both a name and a value, and its last element is (writer name, innermost frame's value) |
| `PropertyFilter.AncestorsSnoc` | squiggly-jackson/src/main/java/com/github/bohnman/squiggly/jackson/filter/SquigglyPropertyFilter.java:151-156 | the skip test: walking one frame further out puts that frame's (name, value) at the front of the path exactly when it has both a non-null name and a non-null value, and leaves the path as it was otherwise |
| `PropertyFilter.GetPath` | squiggly-jackson/src/main/java/com/github/bohnman/squiggly/jackson/filter/SquigglyPropertyFilter.java:143-159 | the list built by the add/addFirst loop over the parent chain is the path PathOf defines |
| `PropertyFilter.PathShape` | squiggly-jackson/src/main/java/com/github/bohnman/squiggly/jackson/filter/SquigglyPropertyFilter.java:146-156 | with an output context the path is non-empty, ends in (writer name, innermost frame's value), has one element per ancestor frame with both a name and a value, and each earlier element is the name and value of such a frame |
| `PropertyFilter.AncestorsAreReversedNamed` | squiggly-jackson/src/main/java/com/github/bohnman/squiggly/jackson/filter/SquigglyPropertyFilter.java:151-156 | the ancestor part of the path is the named frames met walking outwards, reversed: root first |
| `PropertyFilter.Match` | squiggly-jackson/src/main/java/com/github/bohnman/squiggly/jackson/filter/SquigglyPropertyFilter.java:126-141 | no output context or filtering disabled gives ALWAYS_MATCH; otherwise the verdict is the matcher's on the field's path, in the context built for the path's root-most element |
| `PropertyFilter.SerializeAsField` | squiggly-jackson/src/main/java/com/github/bohnman/squiggly/jackson/filter/SquigglyPropertyFilter.java:98-124 | include unchanged iff the match is selected and has no functions or the writer is neither bean nor map; convert iff selected with functions on a bean or map writer, with key str(invoke(name, pojo, key functions)) and value invoke(getter(pojo) or pojo, pojo, value functions); excluded marker iff null or NEVER_MATCH and the generator cannot omit fields; nothing iff null or NEVER_MATCH and it can |
| `PropertyFilter.UnfilteredFieldIncluded` | squiggly-jackson/src/main/java/com/github/bohnman/squiggly/jackson/filter/SquigglyPropertyFilter.java:129-135 | a field without output context, or any field while filtering is disabled, is written unchanged |
| `PropertyFilter.RootDecisionIndependentOfSquiggly` | squiggly-jackson/src/main/java/com/github/bohnman/squiggly/jackson/filter/SquigglyPropertyFilter.java:127-131 | without output context the verdict and the action are the same for every Squiggly instance, whether filtering is enabled or not, since the context check comes first |

## Left out

- `FunctionSource.Lower`: lower-cases ASCII capitals only; Java's locale-sensitive, Unicode `toLowerCase` is not modelled.
- Functions are compared by their name and aliases, not by Java object identity; two registrations with the same name and aliases are indistinguishable in the model.
- Aliasing and mutation of the answers: `Collections.unmodifiableMap` protects only the map, while each bucket is the mutable list built by `toList()` and `findByName` returns it by reference, so a caller that clears or extends an answer changes that bucket for every later lookup, and an `add` on the immutable empty list answered on a miss throws. The model's answers are values, so its "repeated lookups of one name answer the same list" holds of the Java only while no caller mutates an answer.
- Null queries, names and aliases: the Java throws a NullPointerException for a null query in `findByName` and for a null name or alias while building the index; the model's strings cannot be null, so these failures are outside it.
- The varargs constructor only wraps its arguments in a list and delegates, so both constructors are the one function `Create`.
- The node matcher, context provider, function invoker, bean getter and the serializer's `serializeAs…Field` callbacks are foreign code: the first four are functions supplied with the `Squiggly` record or the writer, and the callbacks are the `Action` returned.
- The ALWAYS_MATCH node is taken to carry no key or value functions; its class is not part of this model.
- Exceptions thrown by the matcher, context provider, invoker or getter are not modelled: those functions are total.
- `getBeanClass()` is folded into the context provider, which receives the root-most element's value.
- `NewFilter`: the exception raised by `CoreAssert.notNull` is abstracted to one error value; `CoreAssert` is not part of this model.
- Jackson's generator, stream context and writers are reduced to what the filter reads from them; the bytes written are not modelled.
- `main` and the demo classes `NickName` and `Person`: sample code with console output and a global counter, not part of the filter.
- Thread-safety of the filter and the registry: concurrency is not modelled.
