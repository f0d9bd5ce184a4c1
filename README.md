# nosorog-core metadata pipeline in Dafny

This project models how nosorog-core turns a script into a ready-to-run `Script`:

1. `ScriptLoader.load` reads the script line by line. It copies every line into the body. It tracks whether the current line is inside a `/**` … `*/` block, and hands each line inside a block to `parseHeader`. That function classifies the line by prefix and calls the matching JavaParser entry point.
2. `Script.Builder.build` visits the parsed nodes. The visitor routes each node, by annotation name, into the script's slots (`@Name`, `@Description`, `@Schedule`, `@Startup`) and lists (imports, `@Observes`, `@Inject` and resource fields).
3. `Importer.getPrelude` turns the imports into the JavaScript prelude, one `var X = Java.type(...)` line per imported symbol.
4. `StubBuilder.build` synthesises the carrier class. Its name is `io.nosorog.core.internal.Stub$<name>$<k>`. It has one field per `@Inject` field whose type resolves, is found in the class pool and is accepted by `addField` (which rejects a second field of the same name). Its `getBindings()` source has one `bindings.put("n", n);` per field that fully resolved.
5. The container injects the carrier, and its bindings become the script's bindings.
6. `Script.runWith` installs the bindings, evaluates the prelude and then the body.

Module layout, one Dafny file per module:

- `wrappers.dfy`: `Option` and `Result`.
- `text.dfy`: `StringUtils.strip`/`stripStart`/`startsWith`, `Character.isWhitespace`, and the decimal rendering of a Java int.
- `java_ast.dfy`: the JavaParser node types and the parser as an abstract host.
- `exceptions.dfy`: the Java exceptions that can end a load, and the `ScriptException` wrapping.
- `importer.dfy`: the `Importer` class, with the prelude buffer as a field.
- `visitor.dfy`: the descriptor and the visit functions.
- `stubs.dfy`: the `StubBuilder` class, the `SEQUENCE` counter as a Java int, field selection and the accessor source.
- `script.dfy`: the `Script`, `Builder` and engine classes, and the build as a function.
- `script_loader.dfy`: the `ScriptLoader` class and the header scanner.

The imperative code is modelled as classes and methods with loops. Each method is proved against a specification function, and the properties are lemmas about those functions.

Foreign services are parameters: JavaParser, reflection and classpath scanning, javassist and `MemberResolver`, the CDI `Unmanaged` container and the script engine.

- **Hosts as tables.** Each service is a datatype of functions: `JavaParser`, `Classpath`, `Javassist`, `Container`, and the `Engine` semantics.
- **Exceptions.** A checked exception is wrapped in a `ScriptException`. An unchecked exception that escapes `load` is a `RuntimeFailure`. This covers the `ClassCastException` of a static import without a qualifier, the one of a primitive `@Inject` type, the `NullPointerException` or `ClassCastException` of `getName`, and JavaParser's `TokenMgrError`. That error comes from the parser's token manager, as opposed to its grammar, so it is no `ParseException`, and the catch in the read loop does not stop it. A header line that does not lex therefore ends `load`. The parser host has three outcomes per entry point: a node, a `ParseException`, or a lexical error. The `@Name` value counts as a string literal when it is a `StringLiteralExpr` or one of the JavaParser 2.x literals that extend it (integer, long, double and char literals), so `@Name(42)` names the script `42`.

Behaviour of the code worth noting:

- A missing static member makes `importMethod` throw `NoSuchMethodException`. `getPrelude` catches and logs it, so it is not fatal (`Importer.MethodImportIff`, `Importer.PreludeIsConcatenation`).
- Only a `ParseException` makes the read loop skip a header line. A line the token manager rejects ends `load` with `TokenMgrError`, and no script is built. Examples are ` * @Description('Nightly report')` (JavaScript's single quotes, which do not form a Java character literal), ` * @author O'Brien` and an unterminated `"` (`ScriptLoader.LexFailsByLine`, `ScriptLoader.AnnotationBehindMargin`).
- The flag reopens on every `/**` line, not only on the leading block (`ScriptLoader.FlagStep`).
- Only `@Inject` fields become carrier fields. There is no duplicate-name check anywhere.
- `startsWithAny` is a plain prefix test, so `@Named(...)` goes to the annotation parser (`ScriptLoader.NamedGoesToAnnotationParser`).
- `SEQUENCE` is an `AtomicInteger`. Class names are distinct only within 2^32 builds, and after that the counter wraps (`Stubs.CounterWrapsAfterPeriod`).
- `getName` is evaluated before `SEQUENCE.incrementAndGet()`. A script without a usable `@Name` therefore fails without moving the counter.
- A field whose annotation fails to resolve stays in the carrier class but is left out of `fields`, and so out of the bindings (`Stubs.SelectionIsSubsequence`).

## Model

| member | source | states |
|---|---|---|
| ScriptLoader.ScriptLoader.Load | src/main/java/io/nosorog/core/ScriptLoader.java:66-108 | when a header line fails to lex (`LexFails`), the result is the `TokenMgrError` and the counter is untouched; otherwise the nodes collected are `Scan` of the lines from a cleared flag, the body is every line followed by the separator, and the script, its prelude, its bindings, the failure and the counter step are those the build specification gives for the visited nodes |
| ScriptLoader.ScriptLoader.ReadLines | src/main/java/io/nosorog/core/ScriptLoader.java:77-102 | the read loop fails with `TokenMgrError` exactly when `LexFails` of the lines from a cleared flag; otherwise it collects exactly `Scan` of those lines, and the body is every line followed by the separator |
| ScriptLoader.LexFailsByLine | src/main/java/io/nosorog/core/ScriptLoader.java:91-100 | the read loop ends with `TokenMgrError` exactly when some non-delimiter line read with the flag set is one whose parser meets a lexical error |
| ScriptLoader.Scan | src/main/java/io/nosorog/core/ScriptLoader.java:77-102 | specification of the read loop's nodes: each line updates the flag or, inside a block, contributes its parsed node; its properties are `ScanStepAt`, `HeaderNodesByLine` and `NoOpenerNoNodes` |
| ScriptLoader.ParseHeader | src/main/java/io/nosorog/core/ScriptLoader.java:110-124 | no node exactly for an ignored line; an import, annotation or body node exactly for an import, top-level annotation or declaration line; a lexical error exactly when the parser the line's class selects meets one |
| ScriptLoader.Classify | src/main/java/io/nosorog/core/ScriptLoader.java:112-122 | specification of parseHeader's prefix tests on the line stripped of leading spaces and stars: an import line, a top-level annotation line, a declaration line or an ignored line; its properties are `ClassificationPartition`, `MarginIrrelevant`, `TabIndentedIgnored` and `NamedGoesToAnnotationParser` |
| ScriptLoader.ClassificationPartition | src/main/java/io/nosorog/core/ScriptLoader.java:112-122 | the prefix tests in order: `import` gives an import of the stripped line plus `;`, otherwise the four annotation prefixes give the annotation parser on the stripped line, otherwise `@` gives a declaration plus `;`; every other line is ignored (each as an if-and-only-if) |
| ScriptLoader.StripStartSkipsPrefix | src/main/java/io/nosorog/core/ScriptLoader.java:112 | stripStart with " *" removes any run of spaces and stars in front of a line |
| ScriptLoader.MarginIrrelevant | src/main/java/io/nosorog/core/ScriptLoader.java:112 | a margin of spaces and stars never changes a line's classification |
| ScriptLoader.TabIndentedIgnored | src/main/java/io/nosorog/core/ScriptLoader.java:112 | only spaces and stars are stripped: a tab-indented line yields no node |
| ScriptLoader.AnnotationBehindMargin | src/main/java/io/nosorog/core/ScriptLoader.java:112-117 | a line made of a margin of spaces and stars, then a top-level annotation, goes to the annotation parser as the bare annotation text, with no `;` added |
| ScriptLoader.NamedGoesToAnnotationParser | src/main/java/io/nosorog/core/ScriptLoader.java:116-117 | a line starting with `@Named` goes to the annotation parser |
| ScriptLoader.FlagStep | src/main/java/io/nosorog/core/ScriptLoader.java:81-89 | the flag after a line is set by an opener, cleared by a closer, and otherwise unchanged |
| ScriptLoader.ScanStepAt | src/main/java/io/nosorog/core/ScriptLoader.java:77-101 | one turn of the loop contributes exactly the kept node of a header line, and nothing for a delimiter or a line outside a block |
| ScriptLoader.HeaderNodesByLine | src/main/java/io/nosorog/core/ScriptLoader.java:91-101 | the nodes are, in line order, the parsed nodes of exactly the non-delimiter lines read with the flag set; lines that throw `ParseException` and null results are skipped |
| ScriptLoader.NoOpenerNoNodes | src/main/java/io/nosorog/core/ScriptLoader.java:81-101 | without a `/**` line no node is collected |
| ScriptLoader.BodyRoundTrip | src/main/java/io/nosorog/core/ScriptLoader.java:77-79 | splitting the body at the separators gives back every line, in order |
| Text.StripShape | src/main/java/io/nosorog/core/ScriptLoader.java:81 | strip removes a whitespace run at each end and nothing else |
| Text.StripStart | src/main/java/io/nosorog/core/ScriptLoader.java:112 | the result is a suffix of the input; every dropped character is in the set; the result does not start with one |
| Importer.Importer.constructor | src/main/java/io/nosorog/core/internal/Importer.java:40-43 | a new importer has the given imports and classpath, and an empty prelude |
| Importer.Importer.GetPrelude | src/main/java/io/nosorog/core/internal/Importer.java:45-70 | the buffer grows by the statements of the prelude run (a second call appends again); the result is the whole buffer, or the ClassCastException of an unqualified static single import |
| Importer.PreludeOf | src/main/java/io/nosorog/core/internal/Importer.java:47-68 | specification of getPrelude's loop: the statements of each import in turn, absorbed exceptions keeping earlier lines, a cast failure ending the run; its properties are `PreludeAppend`, `PreludeIsConcatenation` and `CastFailureEndsPrelude` |
| Importer.Importer.ImportOne | src/main/java/io/nosorog/core/internal/Importer.java:50-61 | an import that is not an unqualified static single import goes to the handler its flags select: the buffer gains the lines of `ImportOf` and the turn ends as it does; a static wildcard's order enumerates the class's static method names |
| Importer.Importer.ImportClass | src/main/java/io/nosorog/core/internal/Importer.java:72-77 | appends the lines of `ClassImport` and ends as it does |
| Importer.Importer.ImportPackage | src/main/java/io/nosorog/core/internal/Importer.java:79-87 | appends the lines of `PackageImport` over the package's top-level classes and ends as it does |
| Importer.Importer.ImportStatic | src/main/java/io/nosorog/core/internal/Importer.java:89-104 | the iteration order enumerates the distinct static method names; appends one binding per name in that order |
| Importer.Importer.ImportMethod | src/main/java/io/nosorog/core/internal/Importer.java:106-125 | appends the lines of `MethodImport` and ends as it does |
| Importer.ClassImport | src/main/java/io/nosorog/core/internal/Importer.java:72-77 | completes exactly when the class loads, with the one line `var <simple> = Java.type('<name>');`; otherwise nothing and ClassNotFoundException |
| Importer.Line | src/main/java/io/nosorog/core/internal/Importer.java:75-120 | the text of one prelude statement: `var S = Java.type('C');` for a class and `var m = Java.type('C').m;` for a static method, each ended by the line separator; its property is `LinesAppend` |
| Importer.DispatchByFlags | src/main/java/io/nosorog/core/internal/Importer.java:50-61 | each branch is chosen by the static and asterisk flags, each as an if-and-only-if; the member branch gets the qualifier and the name |
| Importer.DispatchOf | src/main/java/io/nosorog/core/internal/Importer.java:50-61 | specification of getPrelude's if-chain: which handler an import goes to, and the cast failure of an unqualified static single import; its property is `DispatchByFlags` |
| Importer.PackageImportPrefix | src/main/java/io/nosorog/core/internal/Importer.java:79-87 | binds the leading run of loadable classes, each under its simple name, and stops with ClassNotFoundException at the first that does not load |
| Importer.PackageImportAppend | src/main/java/io/nosorog/core/internal/Importer.java:83-85 | the package loop over two lists is the first list's emission, followed by the second's only when the first completed |
| Importer.StaticNamesMembership | src/main/java/io/nosorog/core/internal/Importer.java:92-98 | a name is in the collected set exactly when some public method with it is static |
| Importer.StaticImportOnePerName | src/main/java/io/nosorog/core/internal/Importer.java:92-102 | every static method name is bound exactly once, to that class; no other name is bound |
| Importer.MethodImportIff | src/main/java/io/nosorog/core/internal/Importer.java:106-125 | one line exactly when the class loads and has a static method of that name; otherwise ClassNotFoundException, or NoSuchMethodException("C.m"), and no line |
| Importer.LinesAppend | src/main/java/io/nosorog/core/internal/Importer.java:47-68 | the text of appended statements is the concatenation of their texts |
| Importer.PreludeAppend | src/main/java/io/nosorog/core/internal/Importer.java:47-66 | the prelude of two import lists is the first's then the second's, unless the first crashed |
| Importer.PreludeIsConcatenation | src/main/java/io/nosorog/core/internal/Importer.java:47-68 | without an unqualified static single import, the prelude is the concatenation of each import's lines in import order; a failing import keeps its earlier lines and does not stop the later ones |
| Importer.CastFailureEndsPrelude | src/main/java/io/nosorog/core/internal/Importer.java:54 | getPrelude ends with a ClassCastException exactly when some static single import has an unqualified name |
| Visitor.NameOf | src/main/java/io/nosorog/core/Script.java:94-96 | the name exists exactly when a `@Name` annotation was visited whose value is a `StringLiteralExpr` (a string, integer, long, double or char literal); a missing annotation gives `NullPointerException`, any other value `ClassCastException` |
| Visitor.SlotsHoldLastOccurrence | src/main/java/io/nosorog/core/Script.java:153-192 | Name, Description, Schedule and Startup each hold the last annotation with that name, or keep their earlier value |
| Visitor.FieldListsByKind | src/main/java/io/nosorog/core/Script.java:195-221 | the observes, inject and resource lists each collect, in visit order, exactly the fields whose first annotation has one of their names |
| Visitor.ImportsInOrder | src/main/java/io/nosorog/core/Script.java:223-226 | the import list gains exactly the import nodes, in visit order |
| Visitor.InertChangesNothing | src/main/java/io/nosorog/core/Script.java:153-221 | a node whose name is not routed leaves the state unchanged |
| Visitor.NodeTouchesOnlyItsSlot | src/main/java/io/nosorog/core/Script.java:150-228 | every node changes only the slot or list its name selects, and every other slot keeps its value |
| Scripts.Script.constructor | src/main/java/io/nosorog/core/Script.java:68-88 | a new script has empty slots, the given body, and no prelude or bindings |
| Scripts.Script.VisitNormal | src/main/java/io/nosorog/core/Script.java:153-167 | the new slots are `Visitor.VisitNormal` of the old ones; prelude and bindings unchanged |
| Scripts.Script.VisitSingleMember | src/main/java/io/nosorog/core/Script.java:170-192 | the new slots are `Visitor.VisitSingleMember` of the old ones |
| Scripts.Script.VisitField | src/main/java/io/nosorog/core/Script.java:195-221 | the new slots are `Visitor.VisitField` of the old ones |
| Scripts.Script.VisitImport | src/main/java/io/nosorog/core/Script.java:224-226 | the new slots are `Visitor.VisitImport` of the old ones |
| Scripts.Script.Accept | src/main/java/io/nosorog/core/Script.java:344 | dispatches a node to its visit method, as `Visitor.Accept` |
| Scripts.Script.GetName | src/main/java/io/nosorog/core/Script.java:94-96 | returns `Visitor.NameOf` of the script's slots |
| Scripts.Script.RunWith | src/main/java/io/nosorog/core/Script.java:141-148 | the engine's calls and the result are those of `RunSpec` |
| Scripts.RunSpec | src/main/java/io/nosorog/core/Script.java:141-148 | specification of runWith: the engine calls made and the result; its property is `RunWithOrder` |
| Scripts.RunWithOrder | src/main/java/io/nosorog/core/Script.java:141-148 | set-bindings, then eval(prelude); the body is evaluated exactly when the prelude succeeded, and its result is returned |
| Stubs.StubBuilder.constructor | src/main/java/io/nosorog/core/Script.java:239-255 | the pool imports `java.lang`, which every new `ClassPool` holds, and the seven packages the constructor adds; `fields` is empty |
| Stubs.StubBuilder.Build | src/main/java/io/nosorog/core/Script.java:257-319 | the pool gains the non-static imports; a failing getName leaves the counter and `fields` alone; otherwise the counter moves once, the result is `StubOf` for the new class name, and on success `fields` gains the selected names |
| Stubs.StubBuilder.AddInjects | src/main/java/io/nosorog/core/Script.java:273-300 | the inject loop fails exactly when `SelectFrom` does; otherwise the carrier is the selection's and `fields` gains exactly the selected names; the pool imports are untouched |
| Stubs.SelectFrom | src/main/java/io/nosorog/core/Script.java:273-300 | specification of the inject loop: the carrier it builds, the names it keeps and each field's verdict, or the cast failure; its properties are `SelectionIsSubsequence`, `SelectionFailsOnlyOnCast` and `NamesWithComeFromInjects` |
| Stubs.WriteAccessor | src/main/java/io/nosorog/core/Script.java:302-312 | the loop writes the fixed head, one put per name, and the fixed tail |
| Stubs.AccessorSource | src/main/java/io/nosorog/core/Script.java:302-312 | the accessor text: the fixed head, one put per name, the fixed tail; its property is `AccessorRoundTrip` |
| Stubs.NonStaticImportsMembership | src/main/java/io/nosorog/core/Script.java:259-263 | the pool imports exactly the names of the non-static imports |
| Stubs.InjectTypeName | src/main/java/io/nosorog/core/Script.java:275-277 | the two casts succeed exactly for a class or interface type, possibly an array of one |
| Stubs.ResolveAnnotationsPrefix | src/main/java/io/nosorog/core/Script.java:286-292 | the annotation loop resolves the longest resolvable prefix of the annotations, in order, and completes exactly when all resolve |
| Stubs.OnlyLastAnnotationKept | src/main/java/io/nosorog/core/Script.java:286-292 | each turn adds a new one-annotation attribute that replaces the previous one, so a carrier field keeps the annotation just before the first unresolvable one (the last one when all resolve), and none when the first does not resolve or there is none |
| Stubs.InjectFieldVerdict | src/main/java/io/nosorog/core/Script.java:279-298 | a field is kept exactly when its type resolves, is in the pool, is accepted by addField and all its annotations resolve; once added it is in the carrier, keeping only the last annotation attribute that was added |
| Stubs.SelectionIsSubsequence | src/main/java/io/nosorog/core/Script.java:273-300 | `fields` is the subsequence of inject variable names, in inject order, whose verdict is Kept; the carrier gains one field per added inject, in order |
| Stubs.SelectionFailsOnlyOnCast | src/main/java/io/nosorog/core/Script.java:273-300 | the inject loop fails exactly when some inject type is primitive, and then with the first such field's ClassCastException |
| Stubs.NamesWithComeFromInjects | src/main/java/io/nosorog/core/Script.java:275 | every selected name is the variable of one of the inject fields |
| Stubs.PutsAppend | src/main/java/io/nosorog/core/Script.java:307-309 | the puts of two name lists are the first's followed by the second's |
| Stubs.PutsRoundTrip | src/main/java/io/nosorog/core/Script.java:307-309 | reading the puts back gives the names, in order, when no name holds a quote |
| Stubs.AccessorRoundTrip | src/main/java/io/nosorog/core/Script.java:302-312 | the accessor is the head, exactly one put per field name in order, and the tail: reading it back gives the names |
| Stubs.StubClassNameInjective | src/main/java/io/nosorog/core/Script.java:265-267 | two class names are equal only for the same script name and counter value |
| Stubs.StubClassName | src/main/java/io/nosorog/core/Script.java:265-267 | the class name `Stub$<name>$<k>` with k in decimal; its property is `StubClassNameInjective` |
| Stubs.Sequence.IncrementAndGet | src/main/java/io/nosorog/core/Script.java:266 | the counter moves one step of a 32-bit two's complement increment and returns the new value |
| Stubs.AdvanceClosedForm | src/main/java/io/nosorog/core/Script.java:66 | after n increments the counter is the start plus n, wrapped into the int range |
| Stubs.CounterDistinctWithinPeriod | src/main/java/io/nosorog/core/Script.java:66 | values fewer than 2^32 increments apart differ |
| Stubs.CounterWrapsAfterPeriod | src/main/java/io/nosorog/core/Script.java:66 | after 2^32 increments the counter repeats |
| Exceptions.Wrap | src/main/java/io/nosorog/core/Script.java:355-357 | exactly the checked exceptions are wrapped in a ScriptException |
| Scripts.Builder.constructor | src/main/java/io/nosorog/core/Script.java:327-339 | a fresh script with the given body and empty slots, and the given nodes |
| Scripts.Builder.Build | src/main/java/io/nosorog/core/Script.java:341-361 | the slots are every node visited in order; prelude, bindings, counter and result are those of `BuildSpec` on the visited slots |
| Scripts.BuildSpec | src/main/java/io/nosorog/core/Script.java:341-361 | specification of build after the visit: class path, prelude, stub, binder, the first failure ending the build; its properties are `BuildStepsInOrder` and `BuiltBindingsAreKeptFields` |
| Scripts.Builder.VisitAll | src/main/java/io/nosorog/core/Script.java:343-345 | the slots become every node accepted in order (`AcceptAll`); prelude and bindings are untouched |
| Scripts.Builder.Assemble | src/main/java/io/nosorog/core/Script.java:347-359 | on the visited slots, prelude, bindings, counter and result are those of `BuildSpec`; the slots are untouched |
| Scripts.Builder.BindStub | src/main/java/io/nosorog/core/Script.java:349-357 | once the prelude is set, bindings, counter and result are those of `StubStage`; slots and prelude are untouched |
| Scripts.BuildStepsInOrder | src/main/java/io/nosorog/core/Script.java:341-361 | bindings exist exactly when the build succeeds, and only after the prelude; the prelude exists exactly when the class path is read and no import fails the cast, and it is the concatenation of each import's lines; the counter moves only after the prelude and a readable name |
| Scripts.StubStageInOrder | src/main/java/io/nosorog/core/Script.java:352-353 | the stub stage keeps the prelude, fails or yields bindings, and moves the counter exactly when the name is readable |
| Scripts.StubStageBindings | src/main/java/io/nosorog/core/Script.java:353 | bindings come only from the carrier built for the script's name, as instantiated by the container |
| Scripts.BuiltBindingsAreKeptFields | src/main/java/io/nosorog/core/Script.java:273-312 | a successful build binds exactly the fully resolved inject fields, each to the value the container injected into it |
| Scripts.SelectedFieldsBound | src/main/java/io/nosorog/core/Script.java:294-312 | a stub whose accessor lists the selected inject fields binds exactly those names, each to its own value |
| Scripts.StubBindingsAreTheFields | src/main/java/io/nosorog/core/internal/Binder.java:24-35 | a carrier's bindings are exactly its accessor's field names, each bound to its injected value |
| Scripts.PutAllBinds | src/main/java/io/nosorog/core/Script.java:308 | after the puts each listed name holds its value, and every other key keeps its earlier value |

## Left out

- The `ScriptLoader` constructors: the default class loader (the thread's context loader) is not modelled; the loader is a `Host` parameter.
- I/O: UTF-8 decoding, `BufferedReader`, `PrintWriter` and the closing of the stream are not modelled; `load` takes the lines as `seq<string>`, and the line separator is a fixed `"\n"`; an `IOException` while reading is not modelled.
- JavaParser's grammar: the three parsers are an abstract host returning a node, a `ParseException` or a lexical error; the model relies on the grammar for a field declaration having at least one annotation and one variable, and for variable names, being Java identifiers, holding no double quote.
- Reflection and classpath scanning: `Class.forName`, `getMethods`, `getSimpleName` and `ClassPath.getTopLevelClasses` are tables; the iteration order of `methods` (a `HashSet`) is a parameter, constrained to enumerate the set of static method names; the top-level classes of a package are a plain sequence returned by the host, in whatever order it gives, with no constraint on it.
- Javassist: `MemberResolver`, `ClassPool.get`, `CtField`/`addField`, `CtNewMethod.make` and `toClass` are abstract predicates of what they see; the constant pool and the bytes of the `AnnotationsAttribute` are not modelled; a carrier field records only the resolved type name of the one annotation whose attribute survives (`Stubs.OnlyLastAnnotationKept`), without member values, which the source drops too.
- Stubs.InjectTypeName: the inject type's scope and array dimensions are dropped, as the source resolves only the simple name.
- Scripts.StubBindings: a carrier whose accessor does not read back yields empty bindings; the builder never produces one (`Stubs.AccessorRoundTrip`), so this branch stands for the compiled method's behaviour on an accessor it never sees.
- Scripts.BuiltBindingsAreKeptFields: assumes variable names hold no double quote, which the Java identifier grammar guarantees.
- The CDI container: `Unmanaged` instantiation, production, injection and post-construct are one host function returning a value per field, or a checked or unchecked exception.
- The script engine: `eval` is a function of the calls made before it; the engine scope is not modelled separately.
- Logging of `ClassNotFoundException`, `NoSuchMethodException`, `ParseException` and javassist failures: side output only; the model records that they are absorbed.
- `Character.isWhitespace`: the table is that of Unicode 6.3 (Java 9 and later). Under Java 8, `strip` also removes U+180E, the Mongolian vowel separator.
- Concurrency: `SEQUENCE` is a plain counter object passed to the build, not shared across threads.
- `NoOpVisitor`: every method body is empty; a node without an overridden visit method leaves the state unchanged (`Visitor.InertChangesNothing`).
- The getters `getPrelude`, `getBody` and `getBindings` of `Script`: plain field reads, represented by the fields themselves.
