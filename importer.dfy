/**
 * Importer: turns the script's import declarations into the prelude, one
 * `var X = Java.type(...)` line per imported symbol, appended to a buffer.
 * Class loading and classpath scanning are given as tables.
 */
module Importer {
  import opened Wrappers
  import opened Text
  import opened JavaAst
  import opened Exceptions

  /** A public method as reported by Class.getMethods. */
  datatype MethodInfo = MethodInfo(name: string, isStatic: bool)

  /** What reflection says about a loaded class. */
  datatype LoadedClass = LoadedClass(simpleName: string, methods: seq<MethodInfo>)

  /** The two classpath services the importer uses: Class.forName (through the
      loader of the library itself) and ClassPath.getTopLevelClasses of the
      script's class loader, given in the iteration order of the returned set. */
  datatype Classpath = Classpath(
    forName: string -> Option<LoadedClass>,
    topLevelClasses: string -> seq<string>)

  /** One prelude line: a class bound to its simple name, or a static method
      bound to its own name. */
  datatype Statement = TypeBinding(simpleName: string, className: string) | StaticBinding(member: string, className: string) {
    /** The script-visible global the line declares. */
    function Global(): string {
      match this
      case TypeBinding(s, _) => s
      case StaticBinding(m, _) => m
    }
  }

  /** The text String.format writes for a statement ("%n" is the line separator). */
  function Line(s: Statement): string {
    match s
    case TypeBinding(simple, c) => "var " + simple + " = Java.type('" + c + "');" + LineSeparator
    case StaticBinding(m, c) => "var " + m + " = Java.type('" + c + "')." + m + ";" + LineSeparator
  }

  function Lines(stmts: seq<Statement>): string
    decreases |stmts|
  {
    if stmts == [] then "" else Line(stmts[0]) + Lines(stmts[1..])
  }

  function Globals(stmts: seq<Statement>): seq<string> {
    seq(|stmts|, i requires 0 <= i < |stmts| => stmts[i].Global())
  }

  /** The checked exceptions an import may raise; getPrelude logs them. */
  datatype Thrown = ClassNotFound(className: string) | NoSuchMethod(message: string)

  datatype Outcome = Completed | Threw(thrown: Thrown)

  /** The statements one import operation appends, and how it ends. */
  datatype Emission = Emission(statements: seq<Statement>, outcome: Outcome)

  // ---------------------------------------------------------------------------
  // The four import operations as functions of the classpath.

  /** importClass: Class.forName, then one type binding under the simple name. */
  function ClassImport(cp: Classpath, name: string): (e: Emission)
    ensures e.outcome.Completed? <==> cp.forName(name).Some?
    ensures e.outcome.Completed? ==> e.statements == [TypeBinding(cp.forName(name).value.simpleName, name)]
    ensures e.outcome.Threw? ==> e.statements == [] && e.outcome.thrown == ClassNotFound(name)
  {
    match cp.forName(name)
    case Some(c) => Emission([TypeBinding(c.simpleName, name)], Completed)
    case None => Emission([], Threw(ClassNotFound(name)))
  }

  /** importPackage: importClass for each top-level class in turn; the first
      failure ends the loop and propagates. */
  function PackageImport(cp: Classpath, classes: seq<string>): Emission
    decreases |classes|
  {
    if classes == [] then Emission([], Completed)
    else
      var first := ClassImport(cp, classes[0]);
      if first.outcome.Threw? then first
      else
        var rest := PackageImport(cp, classes[1..]);
        Emission(first.statements + rest.statements, rest.outcome)
  }

  /** The distinct names of the static methods. */
  function StaticNames(methods: seq<MethodInfo>): set<string> {
    set i | 0 <= i < |methods| && methods[i].isStatic :: methods[i].name
  }

  /** `order` lists every name of `names` exactly once (a HashSet's iteration). */
  ghost predicate Enumerates(order: seq<string>, names: set<string>) {
    && (forall i, j :: 0 <= i < j < |order| ==> order[i] != order[j])
    && (forall x :: x in order <==> x in names)
  }

  /** importStatic: one static binding per distinct static method name, in the
      iteration order `order` of the name set. */
  function StaticImport(cp: Classpath, name: string, order: seq<string>): Emission {
    match cp.forName(name)
    case Some(c) => Emission(seq(|order|, i requires 0 <= i < |order| => StaticBinding(order[i], name)), Completed)
    case None => Emission([], Threw(ClassNotFound(name)))
  }

  predicate HasStaticMethod(methods: seq<MethodInfo>, name: string) {
    exists i :: 0 <= i < |methods| && methods[i].name == name && methods[i].isStatic
  }

  /** importMethod: one static binding if some public static method has the
      name, otherwise NoSuchMethodException("C.m"). */
  function MethodImport(cp: Classpath, className: string, methodName: string): Emission {
    match cp.forName(className)
    case None => Emission([], Threw(ClassNotFound(className)))
    case Some(c) =>
      if HasStaticMethod(c.methods, methodName) then Emission([StaticBinding(methodName, className)], Completed)
      else Emission([], Threw(NoSuchMethod(className + "." + methodName)))
  }

  /** The branch getPrelude takes for an import. A static single-member import
      whose name is not qualified fails the cast to QualifiedNameExpr. */
  datatype Dispatch =
    | ToImportStatic(className: string)
    | ToImportMethod(className: string, methodName: string)
    | ToImportPackage(packageName: string)
    | ToImportClass(className: string)
    | CastFails

  function DispatchOf(d: ImportDeclaration): Dispatch {
    if d.isStatic then
      if d.isAsterisk then ToImportStatic(d.name.ToString())
      else match d.name
        case Qualified(q, id) => ToImportMethod(q.ToString(), id)
        case Name(_) => CastFails
    else if d.isAsterisk then ToImportPackage(d.name.ToString())
    else ToImportClass(d.name.ToString())
  }

  /** The four branches are chosen by the static and asterisk flags alone; a
      static single import takes the member branch exactly when its name is
      qualified, with the qualifier as class name. */
  lemma DispatchByFlags(d: ImportDeclaration)
    ensures DispatchOf(d).ToImportStatic? <==> d.isStatic && d.isAsterisk
    ensures DispatchOf(d).ToImportMethod? <==> d.isStatic && !d.isAsterisk && d.name.Qualified?
    ensures DispatchOf(d).CastFails? <==> d.isStatic && !d.isAsterisk && d.name.Name?
    ensures DispatchOf(d).ToImportPackage? <==> !d.isStatic && d.isAsterisk
    ensures DispatchOf(d).ToImportClass? <==> !d.isStatic && !d.isAsterisk
    ensures DispatchOf(d).ToImportMethod? ==>
      DispatchOf(d).className == d.name.qualifier.ToString() && DispatchOf(d).methodName == d.name.id
  {
  }

  /** What one import appends; `order` is used only by a static wildcard import. */
  function ImportOf(cp: Classpath, d: ImportDeclaration, order: seq<string>): Emission {
    match DispatchOf(d)
    case ToImportStatic(c) => StaticImport(cp, c, order)
    case ToImportMethod(c, m) => MethodImport(cp, c, m)
    case ToImportPackage(p) => PackageImport(cp, cp.topLevelClasses(p))
    case ToImportClass(c) => ClassImport(cp, c)
    case CastFails => Emission([], Completed)
  }

  /** The iteration orders chosen for the static wildcard imports are
      enumerations of the class's static method names. */
  ghost predicate ValidOrders(cp: Classpath, decls: seq<ImportDeclaration>, orders: seq<seq<string>>) {
    && |orders| == |decls|
    && forall i :: 0 <= i < |decls| && DispatchOf(decls[i]).ToImportStatic? && cp.forName(DispatchOf(decls[i]).className).Some? ==>
         Enumerates(orders[i], StaticNames(cp.forName(DispatchOf(decls[i]).className).value.methods))
  }

  /** Some enumeration of a finite set, for the imports no loop visits. */
  ghost function SomeEnumeration(names: set<string>): (r: seq<string>)
    ensures Enumerates(r, names)
    decreases names
  {
    if names == {} then []
    else var x :| x in names; [x] + SomeEnumeration(names - {x})
  }

  ghost function DefaultOrders(cp: Classpath, decls: seq<ImportDeclaration>): (orders: seq<seq<string>>)
    ensures ValidOrders(cp, decls, orders)
  {
    seq(|decls|, i requires 0 <= i < |decls| =>
      match DispatchOf(decls[i])
      case ToImportStatic(c) => (match cp.forName(c) case Some(k) => SomeEnumeration(StaticNames(k.methods)) case None => [])
      case _ => [])
  }

  /** All statements getPrelude appends, and whether a ClassCastException ended it. */
  datatype PreludeRun = PreludeRun(statements: seq<Statement>, crashed: bool)

  /** getPrelude's loop: every import in turn, a thrown ClassNotFoundException
      or NoSuchMethodException being logged and the loop going on. */
  function PreludeOf(cp: Classpath, decls: seq<ImportDeclaration>, orders: seq<seq<string>>): PreludeRun
    requires |orders| == |decls|
    decreases |decls|
  {
    if decls == [] then PreludeRun([], false)
    else if DispatchOf(decls[0]).CastFails? then PreludeRun([], true)
    else
      var rest := PreludeOf(cp, decls[1..], orders[1..]);
      PreludeRun(ImportOf(cp, decls[0], orders[0]).statements + rest.statements, rest.crashed)
  }

  // ---------------------------------------------------------------------------
  // The importer object: its prelude buffer survives between calls.

  class Importer {
    var prelude: string
    const classpath: Classpath
    const nodes: seq<ImportDeclaration>

    constructor(nodes: seq<ImportDeclaration>, classpath: Classpath)
      ensures this.nodes == nodes && this.classpath == classpath && prelude == ""
    {
      this.nodes := nodes;
      this.classpath := classpath;
      prelude := "";
    }

    method ImportClass(name: string) returns (outcome: Outcome)
      modifies this
      ensures var e := ClassImport(classpath, name); prelude == old(prelude) + Lines(e.statements) && outcome == e.outcome
    {
      var clazz := classpath.forName(name);
      if clazz.None? {
        return Threw(ClassNotFound(name));
      }
      prelude := prelude + Line(TypeBinding(clazz.value.simpleName, name));
      outcome := Completed;
    }

    method ImportPackage(name: string) returns (outcome: Outcome)
      modifies this
      ensures var e := PackageImport(classpath, classpath.topLevelClasses(name));
        prelude == old(prelude) + Lines(e.statements) && outcome == e.outcome
    {
      var classes := classpath.topLevelClasses(name);
      var i := 0;
      while i < |classes|
        invariant 0 <= i <= |classes|
        invariant PackageImport(classpath, classes[..i]).outcome.Completed?
        invariant prelude == old(prelude) + Lines(PackageImport(classpath, classes[..i]).statements)
      {
        ghost var before := PackageImport(classpath, classes[..i]).statements;
        outcome := ImportClass(classes[i]);
        PackageImportSnoc(classpath, classes, i);
        ghost var added := ClassImport(classpath, classes[i]).statements;
        LinesAppend(before, added);
        if outcome.Threw? {
          return;
        }
        SeqAssociative(old(prelude), Lines(before), Lines(added));
        i := i + 1;
      }
      assert classes[..i] == classes;
      outcome := Completed;
    }

    method ImportStatic(name: string) returns (outcome: Outcome, ghost order: seq<string>)
      modifies this
      ensures classpath.forName(name).Some? ==> Enumerates(order, StaticNames(classpath.forName(name).value.methods))
      ensures var e := StaticImport(classpath, name, order); prelude == old(prelude) + Lines(e.statements) && outcome == e.outcome
    {
      order := [];
      var clazz := classpath.forName(name);
      if clazz.None? {
        return Threw(ClassNotFound(name)), order;
      }
      var methods := clazz.value.methods;
      var names: set<string> := {};
      for i := 0 to |methods|
        invariant names == StaticNames(methods[..i])
      {
        if methods[i].isStatic {
          names := names + {methods[i].name};
        }
        assert methods[..i + 1] == methods[..i] + [methods[i]];
      }
      assert methods[..|methods|] == methods;
      ghost var all := names;
      while names != {}
        invariant names <= all
        invariant forall x :: x in order <==> x in all && x !in names
        invariant forall i, j :: 0 <= i < j < |order| ==> order[i] != order[j]
        invariant prelude == old(prelude) + Lines(StaticImport(classpath, name, order).statements)
        decreases names
      {
        var m :| m in names;
        StaticImportSnoc(classpath, name, order, m);
        SeqAssociative(old(prelude), Lines(StaticImport(classpath, name, order).statements), Line(StaticBinding(m, name)));
        prelude := prelude + Line(StaticBinding(m, name));
        order := order + [m];
        names := names - {m};
      }
      outcome := Completed;
    }

    method ImportMethod(className: string, methodName: string) returns (outcome: Outcome)
      modifies this
      ensures var e := MethodImport(classpath, className, methodName); prelude == old(prelude) + Lines(e.statements) && outcome == e.outcome
    {
      var clazz := classpath.forName(className);
      if clazz.None? {
        return Threw(ClassNotFound(className));
      }
      var methods := clazz.value.methods;
      var found := false;
      var i := 0;
      while i < |methods|
        invariant 0 <= i <= |methods|
        invariant !found
        invariant forall k :: 0 <= k < i ==> !(methods[k].name == methodName && methods[k].isStatic)
      {
        if methods[i].name == methodName && methods[i].isStatic {
          found := true;
          break;
        }
        i := i + 1;
      }
      if found {
        prelude := prelude + Line(StaticBinding(methodName, className));
        outcome := Completed;
      } else {
        outcome := Threw(NoSuchMethod(className + "." + methodName));
      }
    }

    /** One turn of getPrelude's loop, on an import that is not a static
        import without a qualifier: the handler the import's shape selects. */
    method ImportOne(node: ImportDeclaration) returns (outcome: Outcome, ghost order: seq<string>)
      requires !DispatchOf(node).CastFails?
      modifies this
      ensures DispatchOf(node).ToImportStatic? && classpath.forName(DispatchOf(node).className).Some? ==>
        Enumerates(order, StaticNames(classpath.forName(DispatchOf(node).className).value.methods))
      ensures var e := ImportOf(classpath, node, order); prelude == old(prelude) + Lines(e.statements) && outcome == e.outcome
    {
      order := [];
      var dispatch := DispatchOf(node);
      if dispatch.ToImportStatic? {
        outcome, order := ImportStatic(dispatch.className);
      } else if dispatch.ToImportMethod? {
        outcome := ImportMethod(dispatch.className, dispatch.methodName);
      } else if dispatch.ToImportPackage? {
        outcome := ImportPackage(dispatch.packageName);
      } else {
        outcome := ImportClass(dispatch.className);
      }
    }

    /** getPrelude: returns the whole buffer, earlier calls included. */
    method GetPrelude() returns (r: Result<string, Unchecked>, ghost orders: seq<seq<string>>)
      modifies this
      ensures ValidOrders(classpath, nodes, orders)
      ensures var run := PreludeOf(classpath, nodes, orders);
        && prelude == old(prelude) + Lines(run.statements)
        && r == if run.crashed then Failure(ClassCast("Importer.getPrelude: static import without qualifier")) else Success(prelude)
    {
      orders := DefaultOrders(classpath, nodes);
      var i := 0;
      while i < |nodes|
        invariant 0 <= i <= |nodes| && |orders| == |nodes|
        invariant ValidOrders(classpath, nodes, orders)
        decreases |nodes| - i
        invariant !PreludeOf(classpath, nodes[..i], orders[..i]).crashed
        invariant prelude == old(prelude) + Lines(PreludeOf(classpath, nodes[..i], orders[..i]).statements)
      {
        var node := nodes[i];
        if DispatchOf(node).CastFails? {
          PreludeCrash(classpath, nodes, orders, i);
          return Failure(ClassCast("Importer.getPrelude: static import without qualifier")), orders;
        }
        var outcome, order := ImportOne(node);
        // a ClassNotFoundException or NoSuchMethodException is logged here
        ghost var before := PreludeOf(classpath, nodes[..i], orders[..i]).statements;
        ghost var added := ImportOf(classpath, node, order).statements;
        assert prelude == old(prelude) + Lines(before) + Lines(added);
        ValidOrdersUpdate(classpath, nodes, orders, i, order);
        orders := orders[i := order];
        PreludeSnoc(classpath, nodes, orders, i);
        LinesAppend(before, added);
        SeqAssociative(old(prelude), Lines(before), Lines(added));
        i := i + 1;
      }
      assert nodes[..i] == nodes && orders[..i] == orders;
      r := Success(prelude);
    }
  }

  // ---------------------------------------------------------------------------
  // Lemmas.

  lemma {:induction false} LinesAppend(a: seq<Statement>, b: seq<Statement>)
    ensures Lines(a + b) == Lines(a) + Lines(b)
  {
    if a == [] {
      assert a + b == b;
    } else {
      assert (a + b)[1..] == a[1..] + b;
      LinesAppend(a[1..], b);
    }
  }

  /** The package loop resumes where it stopped: a failure ends it, and a
      completed prefix is followed by the suffix's own emission. */
  lemma {:induction false} PackageImportAppend(cp: Classpath, a: seq<string>, b: seq<string>)
    ensures PackageImport(cp, a + b) == (
      var pa := PackageImport(cp, a);
      if pa.outcome.Threw? then pa
      else var pb := PackageImport(cp, b); Emission(pa.statements + pb.statements, pb.outcome))
  {
    if a == [] {
      assert a + b == b;
    } else {
      assert (a + b)[0] == a[0] && (a + b)[1..] == a[1..] + b;
      PackageImportAppend(cp, a[1..], b);
    }
  }

  lemma PackageImportSnoc(cp: Classpath, classes: seq<string>, i: nat)
    requires i < |classes| && PackageImport(cp, classes[..i]).outcome.Completed?
    ensures var e := ClassImport(cp, classes[i]);
      && PackageImport(cp, classes[..i + 1]) == Emission(PackageImport(cp, classes[..i]).statements + e.statements, e.outcome)
      && (e.outcome.Threw? ==> PackageImport(cp, classes) == PackageImport(cp, classes[..i + 1]))
  {
    assert classes[..i + 1] == classes[..i] + [classes[i]];
    PackageImportAppend(cp, classes[..i], [classes[i]]);
    assert [classes[i]][1..] == [];
    PackageImportAppend(cp, classes[..i + 1], classes[i + 1..]);
    assert classes[..i + 1] + classes[i + 1..] == classes;
  }

  /** One more name in the iteration order appends its one line. */
  lemma StaticImportSnoc(cp: Classpath, name: string, order: seq<string>, m: string)
    requires cp.forName(name).Some?
    ensures Lines(StaticImport(cp, name, order + [m]).statements)
      == Lines(StaticImport(cp, name, order).statements) + Line(StaticBinding(m, name))
  {
    var before := StaticImport(cp, name, order).statements;
    assert StaticImport(cp, name, order + [m]).statements == before + [StaticBinding(m, name)];
    LinesAppend(before, [StaticBinding(m, name)]);
    assert Lines([StaticBinding(m, name)]) == Line(StaticBinding(m, name)) + "";
  }

  lemma ValidOrdersUpdate(cp: Classpath, decls: seq<ImportDeclaration>, orders: seq<seq<string>>, i: nat, order: seq<string>)
    requires ValidOrders(cp, decls, orders) && i < |decls|
    requires DispatchOf(decls[i]).ToImportStatic? && cp.forName(DispatchOf(decls[i]).className).Some? ==>
      Enumerates(order, StaticNames(cp.forName(DispatchOf(decls[i]).className).value.methods))
    ensures ValidOrders(cp, decls, orders[i := order])
  {
  }

  lemma PreludeSnoc(cp: Classpath, decls: seq<ImportDeclaration>, orders: seq<seq<string>>, i: nat)
    requires i < |decls| == |orders|
    requires !PreludeOf(cp, decls[..i], orders[..i]).crashed && !DispatchOf(decls[i]).CastFails?
    ensures PreludeOf(cp, decls[..i + 1], orders[..i + 1])
      == PreludeRun(PreludeOf(cp, decls[..i], orders[..i]).statements + ImportOf(cp, decls[i], orders[i]).statements, false)
  {
    assert decls[..i + 1] == decls[..i] + [decls[i]] && orders[..i + 1] == orders[..i] + [orders[i]];
    PreludeAppend(cp, decls[..i], orders[..i], [decls[i]], [orders[i]]);
    assert [decls[i]][1..] == [] && [orders[i]][1..] == [];
  }

  lemma PreludeCrash(cp: Classpath, decls: seq<ImportDeclaration>, orders: seq<seq<string>>, i: nat)
    requires i < |decls| == |orders|
    requires !PreludeOf(cp, decls[..i], orders[..i]).crashed && DispatchOf(decls[i]).CastFails?
    ensures PreludeOf(cp, decls, orders) == PreludeRun(PreludeOf(cp, decls[..i], orders[..i]).statements, true)
  {
    assert decls == decls[..i] + decls[i..] && orders == orders[..i] + orders[i..];
    PreludeAppend(cp, decls[..i], orders[..i], decls[i..], orders[i..]);
    assert decls[i..][0] == decls[i];
    assert PreludeOf(cp, decls[i..], orders[i..]) == PreludeRun([], true);
    assert PreludeOf(cp, decls[..i], orders[..i]).statements + [] == PreludeOf(cp, decls[..i], orders[..i]).statements;
  }

  /** getPrelude's loop over a concatenation of import lists. */
  lemma {:induction false} PreludeAppend(cp: Classpath, a: seq<ImportDeclaration>, oa: seq<seq<string>>, b: seq<ImportDeclaration>, ob: seq<seq<string>>)
    requires |oa| == |a| && |ob| == |b|
    ensures PreludeOf(cp, a + b, oa + ob) == (
      var pa := PreludeOf(cp, a, oa);
      if pa.crashed then pa
      else var pb := PreludeOf(cp, b, ob); PreludeRun(pa.statements + pb.statements, pb.crashed))
  {
    if a == [] {
      assert a + b == b && oa + ob == ob;
    } else {
      assert (a + b)[0] == a[0] && (a + b)[1..] == a[1..] + b;
      assert (oa + ob)[0] == oa[0] && (oa + ob)[1..] == oa[1..] + ob;
      if !DispatchOf(a[0]).CastFails? {
        PreludeAppend(cp, a[1..], oa[1..], b, ob);
        var rest := PreludeOf(cp, a[1..], oa[1..]);
        if !rest.crashed {
          SeqAssociative(ImportOf(cp, a[0], oa[0]).statements, rest.statements, PreludeOf(cp, b, ob).statements);
        }
      }
    }
  }


  // ---------------------------------------------------------------------------
  // What each import contributes.

  /** importPackage binds the leading run of loadable classes, each under its
      simple name and in enumeration order, and stops with
      ClassNotFoundException at the first class that does not load. */
  lemma {:induction false} PackageImportPrefix(cp: Classpath, classes: seq<string>)
    ensures var e := PackageImport(cp, classes); var k := |e.statements|;
      && k <= |classes|
      && (forall i :: 0 <= i < k ==>
            cp.forName(classes[i]).Some? && e.statements[i] == TypeBinding(cp.forName(classes[i]).value.simpleName, classes[i]))
      && (e.outcome.Completed? <==> k == |classes|)
      && (k < |classes| ==> cp.forName(classes[k]).None? && e.outcome == Threw(ClassNotFound(classes[k])))
    decreases |classes|
  {
    if classes != [] {
      PackageImportPrefix(cp, classes[1..]);
      var e := PackageImport(cp, classes);
      var rest := PackageImport(cp, classes[1..]);
      if cp.forName(classes[0]).Some? {
        assert e.statements == [TypeBinding(cp.forName(classes[0]).value.simpleName, classes[0])] + rest.statements;
        forall i | 0 <= i < |e.statements|
          ensures cp.forName(classes[i]).Some? && e.statements[i] == TypeBinding(cp.forName(classes[i]).value.simpleName, classes[i])
        {
          if i > 0 {
            assert e.statements[i] == rest.statements[i - 1] && classes[i] == classes[1..][i - 1];
          }
        }
        if |e.statements| < |classes| {
          assert classes[|e.statements|] == classes[1..][|rest.statements|];
        }
      }
    }
  }

  lemma StaticNamesMembership(methods: seq<MethodInfo>, x: string)
    ensures x in StaticNames(methods) <==> HasStaticMethod(methods, x)
  {
    if HasStaticMethod(methods, x) {
      var i :| 0 <= i < |methods| && methods[i].name == x && methods[i].isStatic;
      assert methods[i].name in StaticNames(methods);
    }
  }

  /** importStatic binds every name of a public static method of the class
      exactly once, to that class, and binds no other name. */
  lemma StaticImportOnePerName(cp: Classpath, name: string, order: seq<string>)
    requires cp.forName(name).Some? && Enumerates(order, StaticNames(cp.forName(name).value.methods))
    ensures var e := StaticImport(cp, name, order); var methods := cp.forName(name).value.methods;
      && e.outcome == Completed
      && (forall i :: 0 <= i < |e.statements| ==> e.statements[i].StaticBinding? && e.statements[i].className == name)
      && (forall i, j :: 0 <= i < j < |e.statements| ==> e.statements[i].Global() != e.statements[j].Global())
      && (forall g :: g in Globals(e.statements) <==> HasStaticMethod(methods, g))
  {
    var e := StaticImport(cp, name, order);
    var methods := cp.forName(name).value.methods;
    forall g
      ensures g in Globals(e.statements) <==> HasStaticMethod(methods, g)
    {
      StaticNamesMembership(methods, g);
      if g in order {
        var i :| 0 <= i < |order| && order[i] == g;
        assert Globals(e.statements)[i] == g;
      }
    }
  }

  /** importMethod appends the one binding exactly when the class loads and
      one of its public methods of that name is static; otherwise it appends
      nothing and raises ClassNotFoundException or NoSuchMethodException. */
  lemma MethodImportIff(cp: Classpath, className: string, methodName: string)
    ensures var e := MethodImport(cp, className, methodName);
      && (e.statements == [StaticBinding(methodName, className)] <==>
            cp.forName(className).Some? &&
            exists i :: 0 <= i < |cp.forName(className).value.methods| &&
              cp.forName(className).value.methods[i] == MethodInfo(methodName, true))
      && (e.statements == [] <==> e.outcome.Threw?)
      && (cp.forName(className).None? ==> e.outcome == Threw(ClassNotFound(className)))
      && (cp.forName(className).Some? && e.outcome.Threw? ==> e.outcome == Threw(NoSuchMethod(className + "." + methodName)))
  {
    if cp.forName(className).Some? {
      var methods := cp.forName(className).value.methods;
      if HasStaticMethod(methods, methodName) {
        var i :| 0 <= i < |methods| && methods[i].name == methodName && methods[i].isStatic;
        assert methods[i] == MethodInfo(methodName, true);
      }
    }
  }

  // ---------------------------------------------------------------------------
  // The whole prelude.

  /** The text each import contributes, import by import. */
  function ImportTexts(cp: Classpath, decls: seq<ImportDeclaration>, orders: seq<seq<string>>): (r: seq<string>)
    requires |orders| == |decls|
    ensures |r| == |decls|
    ensures forall i :: 0 <= i < |decls| ==> r[i] == Lines(ImportOf(cp, decls[i], orders[i]).statements)
  {
    seq(|decls|, i requires 0 <= i < |decls| => Lines(ImportOf(cp, decls[i], orders[i]).statements))
  }

  /** The statements of each import follow each other in import order: a
      thrown exception of one import neither removes its earlier lines nor
      stops later imports. Only the cast failure ends the run. */
  lemma {:induction false} PreludeIsConcatenation(cp: Classpath, decls: seq<ImportDeclaration>, orders: seq<seq<string>>)
    requires |orders| == |decls|
    requires forall i :: 0 <= i < |decls| ==> !DispatchOf(decls[i]).CastFails?
    ensures var run := PreludeOf(cp, decls, orders);
      && !run.crashed
      && Lines(run.statements) == Concat(ImportTexts(cp, decls, orders))
    decreases |decls|
  {
    if decls != [] {
      PreludeIsConcatenation(cp, decls[1..], orders[1..]);
      var parts := ImportTexts(cp, decls, orders);
      var restParts := ImportTexts(cp, decls[1..], orders[1..]);
      assert parts == [parts[0]] + restParts;
      LinesAppend(ImportOf(cp, decls[0], orders[0]).statements, PreludeOf(cp, decls[1..], orders[1..]).statements);
      assert parts[1..] == restParts;
    }
  }

  /** A static single import of an unqualified name ends getPrelude with a
      ClassCastException, whatever follows it. */
  lemma {:induction false} CastFailureEndsPrelude(cp: Classpath, decls: seq<ImportDeclaration>, orders: seq<seq<string>>)
    requires |orders| == |decls|
    ensures PreludeOf(cp, decls, orders).crashed <==> exists i :: 0 <= i < |decls| && DispatchOf(decls[i]).CastFails?
    decreases |decls|
  {
    if decls != [] {
      CastFailureEndsPrelude(cp, decls[1..], orders[1..]);
      if exists i :: 0 <= i < |decls[1..]| && DispatchOf(decls[1..][i]).CastFails? {
        var i :| 0 <= i < |decls[1..]| && DispatchOf(decls[1..][i]).CastFails?;
        assert DispatchOf(decls[i + 1]).CastFails?;
      }
      if exists i :: 0 <= i < |decls| && DispatchOf(decls[i]).CastFails? {
        var i :| 0 <= i < |decls| && DispatchOf(decls[i]).CastFails?;
        if i > 0 {
          assert DispatchOf(decls[1..][i - 1]).CastFails?;
        }
      }
    }
  }
}
