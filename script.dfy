/**
 * Script and Script.Builder: the script object with its header slots, the
 * build sequence (visit every node, generate the prelude, build and inject
 * the carrier, read its bindings) and runWith's three engine calls. The
 * dependency injection container and the script engine are hosts.
 */
module Scripts {
  import opened Wrappers
  import opened Text
  import opened JavaAst
  import opened Exceptions
  import V = Visitor
  import opened Importer
  import opened Stubs

  /** A Java reference handed around by the container and the engine. */
  datatype Value = Null | Ref(id: nat)

  /** A SimpleBindings: name to value. */
  type Bindings = map<string, Value>

  /** The container behind Binder.getBindings: Unmanaged's
      newInstance/produce/inject/postConstruct yields the injected value of
      each carrier field, or raises (InstantiationException and
      IllegalAccessException are checked, container failures unchecked). */
  datatype Container = Container(instantiate: StubClass -> Result<string -> Value, Raised>)

  /** Everything the build consults: ClassPath.from (which may fail with an
      IOException), the classpath tables, javassist and the container. */
  datatype Host = Host(classPathFails: bool, classpath: Classpath, javassist: Javassist, container: Container)

  /** The puts run one after another on a map. */
  function PutAll(m: Bindings, names: seq<string>, values: string -> Value): Bindings
    decreases |names|
  {
    if names == [] then m else PutAll(m[names[0] := values(names[0])], names[1..], values)
  }

  /** Stub.getBindings on the instance: the compiled accessor runs the puts of
      its source. A source that does not read back yields empty bindings; the
      builder generates none (AccessorRoundTrip). */
  function StubBindings(c: StubClass, values: string -> Value): Bindings {
    match ParseAccessor(c.accessor)
    case Some(names) => PutAll(map[], names, values)
    case None => map[]
  }

  /** Binder.getBindings. */
  function BinderBindings(container: Container, c: StubClass): Result<Bindings, Raised> {
    match container.instantiate(c)
    case Failure(e) => Failure(e)
    case Success(values) => Success(StubBindings(c, values))
  }

  // ---------------------------------------------------------------------------
  // Builder.build as a function.

  /** What a build leaves behind: the prelude and bindings it assigned (None
      where it never got that far), whether the counter moved, and the
      exception, if any, that ScriptLoader.load then throws. */
  datatype BuildRun = BuildRun(prelude: Option<string>, bindings: Option<Bindings>, counterMoved: bool, failure: Option<LoadFailure>)

  /** The build steps after the visit, on the visited descriptor `d`, the
      iteration orders of the static imports and the counter value the class
      name would take. */
  function BuildSpec(h: Host, d: V.Descriptor, orders: seq<seq<string>>, next: Int32): BuildRun
    requires |orders| == |d.importNodes|
  {
    if h.classPathFails then BuildRun(None, None, false, Some(ScriptException(IOError("ClassPath.from"))))
    else
      var run := PreludeOf(h.classpath, d.importNodes, orders);
      if run.crashed then BuildRun(None, None, false, Some(RuntimeFailure(ClassCast("Importer.getPrelude: static import without qualifier"))))
      else
        StubStage(h, d, next, Some(Lines(run.statements)))
  }

  /** The steps after the prelude: getName, StubBuilder.build (which moves
      the counter once the name is known) and Binder.getBindings. */
  function StubStage(h: Host, d: V.Descriptor, next: Int32, prelude: Option<string>): BuildRun {
    match V.NameOf(d)
    case Failure(e) => BuildRun(prelude, None, false, Some(RuntimeFailure(e)))
    case Success(name) =>
      var imported := DefaultImports + NonStaticImports(d.importNodes);
      match StubOf(h.javassist, imported, StubClassName(name, next), d.injectNodes, [])
      case Failure(e) => BuildRun(prelude, None, true, Some(Wrap(e)))
      case Success(c) =>
        match BinderBindings(h.container, c)
        case Failure(e) => BuildRun(prelude, None, true, Some(Wrap(e)))
        case Success(b) => BuildRun(prelude, Some(b), true, None)
  }

  /** runWith as a function of the engine: the calls it makes and its result. */
  datatype EngineCall = SetBindings(bindings: Bindings) | Eval(source: string)

  datatype RunOutcome = RunOutcome(calls: seq<EngineCall>, result: Result<Value, string>)

  function RunSpec(semantics: (seq<EngineCall>, string) -> Result<Value, string>, history: seq<EngineCall>, b: Bindings, prelude: string, body: string): RunOutcome {
    var installed := history + [SetBindings(b)];
    match semantics(installed, prelude)
    case Failure(e) => RunOutcome([SetBindings(b), Eval(prelude)], Failure(e))
    case Success(_) =>
      RunOutcome([SetBindings(b), Eval(prelude), Eval(body)], semantics(installed + [Eval(prelude)], body))
  }

  // ---------------------------------------------------------------------------
  // The engine, as a trace of the calls made on it.

  class Engine {
    /** The calls made so far. */
    var trace: seq<EngineCall>
    /** What eval returns given the calls made before it (Failure: a
        ScriptException with its message). */
    const semantics: (seq<EngineCall>, string) -> Result<Value, string>

    constructor(semantics: (seq<EngineCall>, string) -> Result<Value, string>)
      ensures trace == [] && this.semantics == semantics
    {
      trace := [];
      this.semantics := semantics;
    }

    method SetBindings(b: Bindings)
      modifies this
      ensures trace == old(trace) + [EngineCall.SetBindings(b)]
    {
      trace := trace + [EngineCall.SetBindings(b)];
    }

    method Eval(source: string) returns (r: Result<Value, string>)
      modifies this
      ensures r == semantics(old(trace), source) && trace == old(trace) + [EngineCall.Eval(source)]
    {
      r := semantics(trace, source);
      trace := trace + [EngineCall.Eval(source)];
    }
  }

  // ---------------------------------------------------------------------------
  // The script.

  class Script {
    var nameNode: Option<SingleMemberAnnotationExpr>
    var descriptionNode: Option<SingleMemberAnnotationExpr>
    var importNodes: seq<ImportDeclaration>
    var startupNode: Option<NormalAnnotationExpr>
    var scheduleNode: Option<SingleMemberAnnotationExpr>
    var observesNodes: seq<FieldDeclaration>
    var injectNodes: seq<FieldDeclaration>
    var resourceNodes: seq<FieldDeclaration>
    const body: string
    /** null until the builder assigns them. */
    var prelude: Option<string>
    var bindings: Option<Bindings>

    /** The header slots as one value. */
    function State(): V.Descriptor
      reads this
    {
      V.Descriptor(nameNode, descriptionNode, importNodes, startupNode, scheduleNode, observesNodes, injectNodes, resourceNodes)
    }

    constructor(body: string)
      ensures State() == V.Empty && this.body == body && prelude == None && bindings == None
    {
      nameNode, descriptionNode, importNodes := None, None, [];
      startupNode, scheduleNode := None, None;
      observesNodes, injectNodes, resourceNodes := [], [], [];
      this.body := body;
      prelude, bindings := None, None;
    }

    /** Visitor.visit(NormalAnnotationExpr). */
    method VisitNormal(node: NormalAnnotationExpr)
      modifies this
      ensures State() == V.VisitNormal(old(State()), node) && prelude == old(prelude) && bindings == old(bindings)
    {
      if node.name.id == "Startup" {
        startupNode := Some(node);
      }
    }

    /** Visitor.visit(SingleMemberAnnotationExpr). */
    method VisitSingleMember(node: SingleMemberAnnotationExpr)
      modifies this
      ensures State() == V.VisitSingleMember(old(State()), node) && prelude == old(prelude) && bindings == old(bindings)
    {
      var id := node.name.id;
      if id == "Name" {
        nameNode := Some(node);
      } else if id == "Description" {
        descriptionNode := Some(node);
      } else if id == "Schedule" {
        scheduleNode := Some(node);
      }
    }

    /** Visitor.visit(FieldDeclaration). */
    method VisitField(node: FieldDeclaration)
      modifies this
      ensures State() == V.VisitField(old(State()), node) && prelude == old(prelude) && bindings == old(bindings)
    {
      var kind := node.annotations[0].Name().id;
      if kind == "Observes" {
        observesNodes := observesNodes + [node];
      } else if kind == "Inject" {
        injectNodes := injectNodes + [node];
      } else if kind in V.ResourceKinds {
        resourceNodes := resourceNodes + [node];
      }
    }

    /** Visitor.visit(ImportDeclaration). */
    method VisitImport(node: ImportDeclaration)
      modifies this
      ensures State() == V.VisitImport(old(State()), node) && prelude == old(prelude) && bindings == old(bindings)
    {
      importNodes := importNodes + [node];
    }

    /** node.accept(visitor, null). */
    method Accept(n: Node)
      modifies this
      ensures State() == V.Accept(old(State()), n) && prelude == old(prelude) && bindings == old(bindings)
    {
      match n
      case ImportNode(i) => VisitImport(i);
      case AnnotationNode(NormalAnnotation(a)) => VisitNormal(a);
      case AnnotationNode(SingleMemberAnnotation(a)) => VisitSingleMember(a);
      case AnnotationNode(MarkerAnnotation(_)) =>
      case BodyNode(FieldMember(f)) => VisitField(f);
      case BodyNode(OtherMember(_)) =>
    }

    /** Script.getName. */
    method GetName() returns (r: Result<string, Unchecked>)
      ensures r == V.NameOf(State())
    {
      r := V.NameOf(State());
    }

    /** Script.runWith: install the bindings, evaluate the prelude, then the
        body; a ScriptException from either evaluation propagates. A script is
        only handed out by a build that assigned both prelude and bindings. */
    method RunWith(engine: Engine) returns (r: Result<Value, string>)
      requires prelude.Some? && bindings.Some?
      modifies engine
      ensures var run := RunSpec(engine.semantics, old(engine.trace), bindings.value, prelude.value, body);
        engine.trace == old(engine.trace) + run.calls && r == run.result
    {
      engine.SetBindings(bindings.value);
      var p := engine.Eval(prelude.value);
      if p.Failure? {
        return Failure(p.error);
      }
      r := engine.Eval(body);
    }
  }

  // ---------------------------------------------------------------------------
  // The builder.

  class Builder {
    const script: Script
    const nodes: seq<Node>
    const host: Host

    /** Script.builder: a new script with the given body, and its builder. */
    constructor(nodes: seq<Node>, body: string, host: Host)
      ensures fresh(script) && script.State() == V.Empty && script.body == body
      ensures script.prelude == None && script.bindings == None
      ensures this.nodes == nodes && this.host == host
    {
      script := new Script(body);
      this.nodes := nodes;
      this.host := host;
    }

    /** The first loop of build: every node accepts the visitor, in order. */
    method VisitAll()
      modifies script
      ensures script.State() == V.AcceptAll(old(script.State()), nodes)
      ensures script.prelude == old(script.prelude) && script.bindings == old(script.bindings)
    {
      for i := 0 to |nodes|
        invariant script.State() == V.AcceptAll(old(script.State()), nodes[..i])
        invariant script.prelude == old(script.prelude) && script.bindings == old(script.bindings)
      {
        script.Accept(nodes[i]);
        assert nodes[..i + 1][..i] == nodes[..i];
      }
      assert nodes[..|nodes|] == nodes;
    }

    /** Builder.build. Checked exceptions of the build steps are wrapped in a
        ScriptException; unchecked ones propagate. */
    method Build(sequence: Sequence) returns (r: Result<Script, LoadFailure>, ghost orders: seq<seq<string>>)
      requires sequence.Valid()
      modifies script, sequence
      ensures sequence.Valid()
      ensures script.State() == V.AcceptAll(old(script.State()), nodes)
      ensures |orders| == |script.importNodes| && ValidOrders(host.classpath, script.importNodes, orders)
      ensures var run := BuildSpec(host, script.State(), orders, Successor(old(sequence.value)));
        && script.prelude == (if run.prelude.Some? then run.prelude else old(script.prelude))
        && script.bindings == (if run.bindings.Some? then run.bindings else old(script.bindings))
        && (run.counterMoved ==> sequence.value == Successor(old(sequence.value)) && sequence.issued == old(sequence.issued) + 1)
        && (!run.counterMoved ==> sequence.value == old(sequence.value) && sequence.issued == old(sequence.issued))
        && r == (if run.failure.Some? then Failure(run.failure.value) else Success(script))
    {
      VisitAll();
      r, orders := Assemble(sequence);
    }

    /** The steps of build after the visit, on the slots as they stand: the
        class path, the prelude, then the stub and its bindings. */
    method Assemble(sequence: Sequence) returns (r: Result<Script, LoadFailure>, ghost orders: seq<seq<string>>)
      requires sequence.Valid()
      modifies script, sequence
      ensures sequence.Valid()
      ensures script.State() == old(script.State())
      ensures |orders| == |script.importNodes| && ValidOrders(host.classpath, script.importNodes, orders)
      ensures var run := BuildSpec(host, script.State(), orders, Successor(old(sequence.value)));
        && script.prelude == (if run.prelude.Some? then run.prelude else old(script.prelude))
        && script.bindings == (if run.bindings.Some? then run.bindings else old(script.bindings))
        && (run.counterMoved ==> sequence.value == Successor(old(sequence.value)) && sequence.issued == old(sequence.issued) + 1)
        && (!run.counterMoved ==> sequence.value == old(sequence.value) && sequence.issued == old(sequence.issued))
        && r == (if run.failure.Some? then Failure(run.failure.value) else Success(script))
    {
      var d := script.State();
      if host.classPathFails {
        orders := DefaultOrders(host.classpath, d.importNodes);
        return Failure(ScriptException(IOError("ClassPath.from"))), orders;
      }
      var importer := new Importer(d.importNodes, host.classpath);
      var prelude;
      prelude, orders := importer.GetPrelude();
      if prelude.Failure? {
        return Failure(RuntimeFailure(prelude.error)), orders;
      }
      ghost var run := PreludeOf(host.classpath, d.importNodes, orders);
      assert "" + Lines(run.statements) == Lines(run.statements);
      assert prelude.value == Lines(run.statements) && !run.crashed;
      script.prelude := Some(prelude.value);
      assert script.State() == d;
      assert BuildSpec(host, d, orders, Successor(old(sequence.value))) == StubStage(host, d, Successor(old(sequence.value)), Some(prelude.value));
      r := BindStub(d, prelude.value, sequence);
    }

    /** The steps of build after the prelude is set: the stub class is built
        (moving the counter once the name is known) and the binder turns it
        into the bindings. */
    method BindStub(d: V.Descriptor, prelude: string, sequence: Sequence) returns (r: Result<Script, LoadFailure>)
      requires sequence.Valid() && script.State() == d
      modifies script, sequence
      ensures sequence.Valid() && script.State() == d && script.prelude == old(script.prelude)
      ensures var run := StubStage(host, d, Successor(old(sequence.value)), Some(prelude));
        && script.bindings == (if run.bindings.Some? then run.bindings else old(script.bindings))
        && (run.counterMoved ==> sequence.value == Successor(old(sequence.value)) && sequence.issued == old(sequence.issued) + 1)
        && (!run.counterMoved ==> sequence.value == old(sequence.value) && sequence.issued == old(sequence.issued))
        && r == (if run.failure.Some? then Failure(run.failure.value) else Success(script))
    {
      ghost var stage := StubStage(host, d, Successor(old(sequence.value)), Some(prelude));
      var stubBuilder := new StubBuilder(host.javassist);
      var stub := stubBuilder.Build(d, sequence);
      if stub.Failure? {
        assert stage == BuildRun(Some(prelude), None, V.NameOf(d).Success?, Some(Wrap(stub.error)));
        return Failure(Wrap(stub.error));
      }
      var b := BinderBindings(host.container, stub.value);
      if b.Failure? {
        assert stage == BuildRun(Some(prelude), None, true, Some(Wrap(b.error)));
        return Failure(Wrap(b.error));
      }
      assert stage == BuildRun(Some(prelude), Some(b.value), true, None);
      script.bindings := Some(b.value);
      assert script.State() == d;
      r := Success(script);
    }
  }

  // ---------------------------------------------------------------------------
  // Lemmas.

  /** After the puts, each name of the list is bound to its field's value and
      every other key keeps its earlier value. */
  lemma {:induction false} PutAllBinds(m: Bindings, names: seq<string>, values: string -> Value)
    ensures PutAll(m, names, values).Keys == m.Keys + set n | n in names
    ensures forall n :: n in names ==> PutAll(m, names, values)[n] == values(n)
    ensures forall n :: n in m && n !in names ==> PutAll(m, names, values)[n] == m[n]
    decreases |names|
  {
    if names != [] {
      PutAllBinds(m[names[0] := values(names[0])], names[1..], values);
      assert (set n | n in names) == {names[0]} + set n | n in names[1..];
      forall n | n in names
        ensures PutAll(m, names, values)[n] == values(n)
      {
        if n !in names[1..] {
          assert n == names[0];
        }
      }
    }
  }

  /** The bindings a carrier yields: exactly its accessor's field names, each
      bound to the value the container injected into that field. */
  lemma StubBindingsAreTheFields(c: StubClass, names: seq<string>, values: string -> Value)
    requires c.accessor == AccessorSource(names)
    requires forall i :: 0 <= i < |names| ==> '"' !in names[i]
    ensures StubBindings(c, values).Keys == set n | n in names
    ensures forall n :: n in names ==> StubBindings(c, values)[n] == values(n)
  {
    AccessorRoundTrip(names);
    PutAllBinds(map[], names, values);
  }

  /** The build steps run in order and the first failure ends the build:
      bindings are set only by a build that succeeds, and only after the
      prelude; the counter moves only once the prelude exists and the name was
      read; the prelude exists exactly when the class path could be scanned
      and no import is a static single import of an unqualified name, and it
      is then the concatenation of each import's statements. */
  lemma BuildStepsInOrder(h: Host, d: V.Descriptor, orders: seq<seq<string>>, next: Int32)
    requires |orders| == |d.importNodes|
    ensures var run := BuildSpec(h, d, orders, next);
      && (run.failure.None? <==> run.bindings.Some?)
      && (run.bindings.Some? ==> run.prelude.Some?)
      && (run.counterMoved ==> run.prelude.Some? && V.NameOf(d).Success?)
      && (run.prelude.Some? <==>
            !h.classPathFails && forall i :: 0 <= i < |d.importNodes| ==> !DispatchOf(d.importNodes[i]).CastFails?)
      && (run.prelude.Some? ==>
            run.prelude.value == Concat(ImportTexts(h.classpath, d.importNodes, orders)))
      && (run.prelude.Some? && V.NameOf(d).Failure? ==> run.failure == Some(RuntimeFailure(V.NameOf(d).error)))
  {
    CastFailureEndsPrelude(h.classpath, d.importNodes, orders);
    var pr := PreludeOf(h.classpath, d.importNodes, orders);
    if h.classPathFails {
      assert BuildSpec(h, d, orders, next).prelude == None;
    } else if pr.crashed {
      assert BuildSpec(h, d, orders, next).prelude == None;
      var i :| 0 <= i < |d.importNodes| && DispatchOf(d.importNodes[i]).CastFails?;
    } else {
      PreludeIsConcatenation(h.classpath, d.importNodes, orders);
      StubStageInOrder(h, d, next, Some(Lines(pr.statements)));
      assert BuildSpec(h, d, orders, next) == StubStage(h, d, next, Some(Lines(pr.statements)));
    }
  }

  /** The stages after the prelude keep it and stop at the first failure. */
  lemma StubStageInOrder(h: Host, d: V.Descriptor, next: Int32, prelude: Option<string>)
    ensures var run := StubStage(h, d, next, prelude);
      && run.prelude == prelude
      && (run.failure.None? <==> run.bindings.Some?)
      && (run.counterMoved <==> V.NameOf(d).Success?)
      && (V.NameOf(d).Failure? ==> run.failure == Some(RuntimeFailure(V.NameOf(d).error)))
  {
  }

  /** A successful build binds exactly the inject fields whose type and
      annotations all resolved, in the carrier the container instantiated,
      each to the value the container injected into it. Variable names are
      Java identifiers, which hold no quote. */
  lemma BuiltBindingsAreKeptFields(h: Host, d: V.Descriptor, orders: seq<seq<string>>, next: Int32)
    requires |orders| == |d.importNodes|
    requires forall f :: f in d.injectNodes ==> '"' !in f.variables[0]
    ensures var run := BuildSpec(h, d, orders, next);
      run.bindings.Some? ==>
        && V.NameOf(d).Success?
        && var imported := DefaultImports + NonStaticImports(d.importNodes);
           var sel := SelectFrom(h.javassist, imported, [], d.injectNodes);
           && sel.Success?
           && |sel.value.verdicts| == |d.injectNodes|
           && sel.value.fields == NamesWith(d.injectNodes, sel.value.verdicts, {Kept})
           && var c := StubClass(StubClassName(V.NameOf(d).value, next), [Stub], sel.value.carrier, AccessorSource(sel.value.fields));
              && h.container.instantiate(c).Success?
              && run.bindings.value.Keys == set n | n in sel.value.fields
              && forall n :: n in sel.value.fields ==> n in run.bindings.value && run.bindings.value[n] == h.container.instantiate(c).value(n)
  {
    var run := BuildSpec(h, d, orders, next);
    if run.bindings.Some? {
      BuildStepsInOrder(h, d, orders, next);
      var pr := PreludeOf(h.classpath, d.importNodes, orders);
      assert run == StubStage(h, d, next, Some(Lines(pr.statements)));
      StubStageBindings(h, d, next, Some(Lines(pr.statements)));
      var imported := DefaultImports + NonStaticImports(d.importNodes);
      var sel := SelectFrom(h.javassist, imported, [], d.injectNodes).value;
      var c := StubClass(StubClassName(V.NameOf(d).value, next), [Stub], sel.carrier, AccessorSource(sel.fields));
      SelectedFieldsBound(h.javassist, imported, d.injectNodes, c, h.container.instantiate(c).value);
    }
  }

  /** A stub whose accessor lists the selected inject fields binds exactly
      those, each to the value given for it. */
  lemma SelectedFieldsBound(j: Javassist, imported: seq<string>, injects: seq<FieldDeclaration>, c: StubClass, values: string -> Value)
    requires forall f :: f in injects ==> '"' !in f.variables[0]
    requires SelectFrom(j, imported, [], injects).Success?
    requires c.accessor == AccessorSource(SelectFrom(j, imported, [], injects).value.fields)
    ensures var sel := SelectFrom(j, imported, [], injects).value;
      && |sel.verdicts| == |injects|
      && sel.fields == NamesWith(injects, sel.verdicts, {Kept})
      && StubBindings(c, values).Keys == set n | n in sel.fields
      && forall n :: n in sel.fields ==> n in StubBindings(c, values) && StubBindings(c, values)[n] == values(n)
  {
    var sel := SelectFrom(j, imported, [], injects).value;
    SelectionIsSubsequence(j, imported, [], injects);
    NamesWithComeFromInjects(injects, sel.verdicts, {Kept});
    var names := sel.fields;
    forall i | 0 <= i < |names|
      ensures '"' !in names[i]
    {
      assert names[i] in names;
    }
    StubBindingsAreTheFields(c, names, values);
  }

  /** Bindings come out of the stub stage only from the carrier built for the
      script's name, instantiated by the container. */
  lemma StubStageBindings(h: Host, d: V.Descriptor, next: Int32, prelude: Option<string>)
    ensures var run := StubStage(h, d, next, prelude);
      run.bindings.Some? ==>
        && V.NameOf(d).Success?
        && var imported := DefaultImports + NonStaticImports(d.importNodes);
           var sel := SelectFrom(h.javassist, imported, [], d.injectNodes);
           && sel.Success?
           && var c := StubClass(StubClassName(V.NameOf(d).value, next), [Stub], sel.value.carrier, AccessorSource(sel.value.fields));
              && h.container.instantiate(c).Success?
              && run.bindings.value == StubBindings(c, h.container.instantiate(c).value)
  {
    var run := StubStage(h, d, next, prelude);
    if run.bindings.Some? {
      var imported := DefaultImports + NonStaticImports(d.importNodes);
      var sel := SelectFrom(h.javassist, imported, [], d.injectNodes);
      assert [] + sel.value.fields == sel.value.fields;
    }
  }

  /** runWith installs the bindings and evaluates the prelude, in that order;
      the body is evaluated exactly when the prelude evaluated without a
      ScriptException, and the result is then the body's. */
  lemma RunWithOrder(semantics: (seq<EngineCall>, string) -> Result<Value, string>, history: seq<EngineCall>, b: Bindings, prelude: string, body: string)
    ensures var run := RunSpec(semantics, history, b, prelude, body);
      var afterPrelude := semantics(history + [SetBindings(b)], prelude);
      && run.calls[..2] == [SetBindings(b), Eval(prelude)]
      && (Eval(body) in run.calls[2..] <==> afterPrelude.Success?)
      && (afterPrelude.Failure? ==> run.result == afterPrelude)
      && (afterPrelude.Success? ==> run.result == semantics(history + [SetBindings(b), Eval(prelude)], body))
  {
    assert history + [SetBindings(b)] + [Eval(prelude)] == history + [SetBindings(b), Eval(prelude)];
  }
}
