/**
 * StubBuilder: the throwaway carrier class whose fields the dependency
 * injection container fills, one per inject field that resolves, and the
 * source of its generated getBindings method. Javassist (class pool, member
 * resolver, field and method compilation, class definition) is a host given
 * as functions.
 */
module Stubs {
  import opened Wrappers
  import opened Text
  import opened JavaAst
  import opened Exceptions
  import opened Visitor

  /** The interface every carrier implements, and the prefix of its name. */
  const Stub: string := "io.nosorog.core.internal.Stub"

  /** The packages the class pool imports before the script's own imports: a
      new ClassPool already imports java.lang, and the StubBuilder constructor
      adds seven more. */
  const DefaultImports: seq<string> := [
    "java.lang",
    "javax.script", "javax.inject", "javax.enterprise.inject", "javax.annotation",
    "javax.persistence", "javax.ejb.EJB", "javax.xml.ws.WebServiceRef"]

  // ---------------------------------------------------------------------------
  // Carrier class names.

  /** String.format("%s$%s$%d", STUB, name, k). */
  function StubClassName(name: string, k: int): string {
    Stub + "$" + name + "$" + IntToString(k)
  }

  lemma LongerSuffixHoldsDollar(x: string, d: string, y: string, e: string)
    requires |d| < |e| && x + "$" + d == y + "$" + e
    ensures '$' in e
  {
    var s := x + "$" + d;
    assert s[|s| - |d| - 1] == '$';
    assert s[|s| - |d| - 1] == e[|e| - |d| - 1];
  }

  /** The last '$' of a string splits off a suffix without '$'. */
  lemma LastDollarSplit(x: string, d: string, y: string, e: string)
    requires '$' !in d && '$' !in e && x + "$" + d == y + "$" + e
    ensures x == y && d == e
  {
    if |d| < |e| {
      LongerSuffixHoldsDollar(x, d, y, e);
      assert false;
    }
    if |e| < |d| {
      LongerSuffixHoldsDollar(y, e, x, d);
      assert false;
    }
    var s := x + "$" + d;
    assert d == s[|s| - |d|..] == e;
    assert x == s[..|x|] == y;
  }

  /** Distinct (script name, counter value) pairs give distinct class names,
      even when the script name itself contains '$'. */
  lemma StubClassNameInjective(n1: string, k1: int, n2: string, k2: int)
    requires StubClassName(n1, k1) == StubClassName(n2, k2)
    ensures n1 == n2 && k1 == k2
  {
    LastDollarSplit(Stub + "$" + n1, IntToString(k1), Stub + "$" + n2, IntToString(k2));
    assert n1 == (Stub + "$" + n1)[|Stub| + 1..];
    assert n2 == (Stub + "$" + n2)[|Stub| + 1..];
    IntToStringInjective(k1, k2);
  }

  // ---------------------------------------------------------------------------
  // The shared sequence counter: an AtomicInteger, hence a Java int.

  const IntMin: int := -0x8000_0000
  const IntMax: int := 0x7fff_ffff
  const IntRange: int := 0x1_0000_0000

  type Int32 = x: int | IntMin <= x <= IntMax

  /** incrementAndGet's arithmetic: a 32-bit two's complement increment. */
  function Successor(v: Int32): Int32 {
    if v == IntMax then IntMin else v + 1
  }

  /** The value after n increments. */
  function Advance(v: Int32, n: nat): Int32
    decreases n
  {
    if n == 0 then v else Successor(Advance(v, n - 1))
  }

  lemma {:induction false} AdvanceClosedForm(v: Int32, n: nat)
    ensures Advance(v, n) == IntMin + (v - IntMin + n) % IntRange
    decreases n
  {
    if n > 0 {
      AdvanceClosedForm(v, n - 1);
      var a := v - IntMin + n - 1;
      var q := a / IntRange;
      assert a == q * IntRange + a % IntRange;
      if a % IntRange == IntRange - 1 {
        assert a + 1 == (q + 1) * IntRange;
      } else {
        assert a + 1 == q * IntRange + (a % IntRange + 1);
      }
    }
  }

  /** Fewer than 2^32 increments apart, two values of the counter differ. */
  lemma CounterDistinctWithinPeriod(v: Int32, i: nat, j: nat)
    requires i < j < i + IntRange
    ensures Advance(v, i) != Advance(v, j)
  {
    AdvanceClosedForm(v, i);
    AdvanceClosedForm(v, j);
    var a := v - IntMin + i;
    var b := v - IntMin + j;
    var qa, qb := a / IntRange, b / IntRange;
    assert a == qa * IntRange + a % IntRange;
    assert b == qb * IntRange + b % IntRange;
  }

  /** After 2^32 increments the counter is back where it started. */
  lemma CounterWrapsAfterPeriod(v: Int32)
    ensures Advance(v, IntRange) == v
  {
    AdvanceClosedForm(v, IntRange);
    var x := v - IntMin + IntRange;
    assert x / IntRange == 1;
    assert x % IntRange == x - IntRange;
  }

  class Sequence {
    var value: Int32
    ghost var issued: nat
    ghost const initial: Int32

    /** The counter has moved `issued` steps from where it started. */
    ghost predicate Valid()
      reads this
    {
      value == Advance(initial, issued)
    }

    constructor()
      ensures Valid() && value == 0 && issued == 0
    {
      value := 0;
      issued := 0;
      initial := 0;
    }

    method IncrementAndGet() returns (r: Int32)
      requires Valid()
      modifies this
      ensures Valid() && issued == old(issued) + 1
      ensures r == value == Successor(old(value))
    {
      value := Successor(value);
      issued := issued + 1;
      r := value;
    }
  }

  // ---------------------------------------------------------------------------
  // The carrier class and the host that builds it.

  /** A carrier field: its variable name, the resolved type name, and the
      resolved name of the one annotation left on it, if any. */
  datatype CarrierField = CarrierField(name: string, typeName: string, annotation: Option<string>)

  /** The class handed to the container: name, interfaces, fields and the
      source of its one method. */
  datatype StubClass = StubClass(className: string, interfaces: seq<string>, fields: seq<CarrierField>, accessor: string)

  /** The javassist operations, as functions of what they see:
      resolve(imported packages, simple name) is MemberResolver's class-name
      resolution (None: CompileError); poolHas is ClassPool.get (false:
      NotFoundException); addField covers the CtField constructor and
      CtClass.addField on a class that already has the given fields (false:
      CannotCompileException); compiles is CtNewMethod.make of a source in the
      class; loads is CtClass.toClass (both false: CannotCompileException). */
  datatype Javassist = Javassist(
    resolve: (seq<string>, string) -> Option<string>,
    poolHas: string -> bool,
    addField: (seq<CarrierField>, string, string) -> bool,
    compiles: (seq<CarrierField>, string) -> bool,
    loads: StubClass -> bool)

  /** The packages the pool imports for the script: its non-static imports. */
  function NonStaticImports(imports: seq<ImportDeclaration>): (r: seq<string>)
    ensures |r| <= |imports|
    decreases |imports|
  {
    if imports == [] then []
    else
      var last := imports[|imports| - 1];
      NonStaticImports(imports[..|imports| - 1]) + (if last.isStatic then [] else [last.name.ToString()])
  }

  /** The two casts on an inject field's type: (ReferenceType) and
      (ClassOrInterfaceType). The element's simple name is what is resolved;
      its scope and any array dimensions are not used. */
  function InjectTypeName(f: FieldDeclaration): (r: Result<string, Unchecked>)
    ensures r.Success? <==> f.fieldType.ReferenceType? && f.fieldType.element.ClassOrInterfaceType?
  {
    match f.fieldType
    case PrimitiveType(_) => Failure(ClassCast("StubBuilder.build: primitive inject field type"))
    case ReferenceType(PrimitiveElement(_), _) => Failure(ClassCast("StubBuilder.build: primitive array inject field type"))
    case ReferenceType(ClassOrInterfaceType(_, n), _) => Success(n)
  }

  /** The annotation loop: each annotation's simple name is resolved in turn,
      and the first failure ends the loop. `types` are the names resolved
      before it, each of which was added to the field as an attribute. */
  datatype Resolution = Resolution(types: seq<string>, complete: bool)

  function ResolveAnnotations(h: Javassist, imported: seq<string>, anns: seq<AnnotationExpr>): Resolution
    decreases |anns|
  {
    if anns == [] then Resolution([], true)
    else match h.resolve(imported, anns[0].Name().id)
      case None => Resolution([], false)
      case Some(t) =>
        var rest := ResolveAnnotations(h, imported, anns[1..]);
        Resolution([t] + rest.types, rest.complete)
  }

  /** FieldInfo.addAttribute replaces an attribute of the same name, and each
      turn of the annotation loop adds a fresh RuntimeVisibleAnnotations
      attribute holding one annotation: only the last one added stays on the
      field. */
  function LastAttached(types: seq<string>): Option<string> {
    if types == [] then None else Some(types[|types| - 1])
  }

  /** How one inject field fares. */
  datatype Verdict = Kept | TypeUnresolved | TypeNotInPool | FieldRejected | AnnotationUnresolved

  /** What one inject field adds to the carrier, and its verdict. */
  datatype FieldStep = FieldStep(added: seq<CarrierField>, verdict: Verdict)

  function InjectField(h: Javassist, imported: seq<string>, carrier: seq<CarrierField>, name: string, typeName: string, anns: seq<AnnotationExpr>): FieldStep {
    match h.resolve(imported, typeName)
    case None => FieldStep([], TypeUnresolved)
    case Some(fqn) =>
      if !h.poolHas(fqn) then FieldStep([], TypeNotInPool)
      else if !h.addField(carrier, name, fqn) then FieldStep([], FieldRejected)
      else
        var r := ResolveAnnotations(h, imported, anns);
        FieldStep([CarrierField(name, fqn, LastAttached(r.types))], if r.complete then Kept else AnnotationUnresolved)
  }

  /** The carrier after the inject loop, the names it accepted (the `fields`
      list) and each field's verdict. */
  datatype Selection = Selection(carrier: seq<CarrierField>, fields: seq<string>, verdicts: seq<Verdict>)

  function Prepend(fields: seq<string>, verdicts: seq<Verdict>, r: Result<Selection, Unchecked>): Result<Selection, Unchecked> {
    match r
    case Failure(e) => Failure(e)
    case Success(s) => Success(Selection(s.carrier, fields + s.fields, verdicts + s.verdicts))
  }

  /** The inject loop from a carrier that already has `carrier`'s fields. A
      failed cast ends the whole build. */
  function SelectFrom(h: Javassist, imported: seq<string>, carrier: seq<CarrierField>, injects: seq<FieldDeclaration>): Result<Selection, Unchecked>
    decreases |injects|
  {
    if injects == [] then Success(Selection(carrier, [], []))
    else
      var f := injects[0];
      match InjectTypeName(f)
      case Failure(e) => Failure(e)
      case Success(t) =>
        var step := InjectField(h, imported, carrier, f.variables[0], t, f.annotations);
        Prepend(if step.verdict.Kept? then [f.variables[0]] else [], [step.verdict],
          SelectFrom(h, imported, carrier + step.added, injects[1..]))
  }

  // ---------------------------------------------------------------------------
  // The generated accessor.

  const AccessorHead: string := "public Bindings getBindings() {" + " SimpleBindings bindings = new SimpleBindings();"
  const AccessorTail: string := " return bindings;" + "}"
  const PutOpen: string := " bindings.put(\""
  const PutMiddle: string := "\", "
  const PutClose: string := ");"

  /** String.format(" bindings.put(\"%s\", %s);", name, name). */
  function Put(name: string): string {
    PutOpen + name + PutMiddle + name + PutClose
  }

  function Puts(names: seq<string>): string
    decreases |names|
  {
    if names == [] then "" else Put(names[0]) + Puts(names[1..])
  }

  /** The source handed to CtNewMethod.make. */
  function AccessorSource(names: seq<string>): string {
    AccessorHead + Puts(names) + AccessorTail
  }

  /** The StringBuilder loop of build that writes the accessor. */
  method WriteAccessor(names: seq<string>) returns (src: string)
    ensures src == AccessorSource(names)
  {
    src := AccessorHead;
    for j := 0 to |names|
      invariant src == AccessorHead + Puts(names[..j])
    {
      PutsAppend(names[..j], [names[j]]);
      assert names[..j + 1] == names[..j] + [names[j]];
      assert Puts([names[j]]) == Put(names[j]) + Puts([]);
      src := src + Put(names[j]);
    }
    assert names[..|names|] == names;
    src := src + AccessorTail;
  }

  lemma {:induction false} PutsAppend(a: seq<string>, b: seq<string>)
    ensures Puts(a + b) == Puts(a) + Puts(b)
    decreases |a|
  {
    if a == [] {
      assert a + b == b;
    } else {
      assert (a + b)[0] == a[0] && (a + b)[1..] == a[1..] + b;
      PutsAppend(a[1..], b);
      SeqAssociative(Put(a[0]), Puts(a[1..]), Puts(b));
    }
  }

  function IndexOfQuote(s: string): (i: nat)
    ensures i <= |s| && '"' !in s[..i]
    ensures i < |s| ==> s[i] == '"'
  {
    if s == [] then 0 else if s[0] == '"' then 0
    else assert s[..1 + IndexOfQuote(s[1..])] == [s[0]] + s[1..][..IndexOfQuote(s[1..])]; 1 + IndexOfQuote(s[1..])
  }

  /** Reads a run of puts back: the names they bind, in order. */
  function ParsePuts(s: string): Option<seq<string>>
    decreases |s|
  {
    if s == [] then Some([])
    else if !StartsWith(s, PutOpen) then None
    else
      var rest := s[|PutOpen|..];
      var q := IndexOfQuote(rest);
      var name := rest[..q];
      var expected := PutMiddle + name + PutClose;
      if !StartsWith(rest[q..], expected) then None
      else match ParsePuts(rest[q + |expected|..])
        case None => None
        case Some(names) => Some([name] + names)
  }

  /** Reads a generated accessor back: the names it binds, in order. */
  function ParseAccessor(src: string): Option<seq<string>> {
    if |AccessorHead| + |AccessorTail| <= |src| && src[..|AccessorHead|] == AccessorHead && src[|src| - |AccessorTail|..] == AccessorTail
    then ParsePuts(src[|AccessorHead|..|src| - |AccessorTail|])
    else None
  }

  // ---------------------------------------------------------------------------
  // StubBuilder.build as a function, and the builder object.

  /** What build produces from the pool's imports, the class name, the inject
      nodes and the names already in `fields`. */
  function StubOf(h: Javassist, imported: seq<string>, className: string, injects: seq<FieldDeclaration>, prior: seq<string>): Result<StubClass, Raised> {
    match SelectFrom(h, imported, [], injects)
    case Failure(e) => Failure(UncheckedRaised(e))
    case Success(sel) => Finish(h, className, sel.carrier, AccessorSource(prior + sel.fields))
  }

  /** The end of build: the accessor is compiled into the class, which is
      then defined. */
  function Finish(h: Javassist, className: string, carrier: seq<CarrierField>, src: string): Result<StubClass, Raised> {
    if !h.compiles(carrier, src) then Failure(CheckedRaised(CannotCompile("CtNewMethod.make")))
    else
      var c := StubClass(className, [Stub], carrier, src);
      if !h.loads(c) then Failure(CheckedRaised(CannotCompile("CtClass.toClass"))) else Success(c)
  }

  class StubBuilder {
    const host: Javassist
    /** The packages imported into the class pool, in order. */
    var imported: seq<string>
    /** The names of the carrier fields that resolved completely. */
    var fields: seq<string>

    constructor(host: Javassist)
      ensures this.host == host && imported == DefaultImports && fields == []
    {
      this.host := host;
      imported := DefaultImports;
      fields := [];
    }

    /** StubBuilder.build over the script's current descriptor. The class name
        is formatted before the counter moves, so a failing getName leaves the
        counter alone. */
    method Build(d: Descriptor, sequence: Sequence) returns (r: Result<StubClass, Raised>)
      requires sequence.Valid()
      modifies this, sequence
      ensures sequence.Valid()
      ensures imported == old(imported) + NonStaticImports(d.importNodes)
      ensures NameOf(d).Failure? ==>
        && r == Failure(UncheckedRaised(NameOf(d).error))
        && sequence.value == old(sequence.value) && sequence.issued == old(sequence.issued)
        && fields == old(fields)
      ensures NameOf(d).Success? ==>
        && sequence.issued == old(sequence.issued) + 1 && sequence.value == Successor(old(sequence.value))
        && r == StubOf(host, imported, StubClassName(NameOf(d).value, sequence.value), d.injectNodes, old(fields))
        && (r.Success? ==> fields == old(fields) + SelectFrom(host, imported, [], d.injectNodes).value.fields)
    {
      var imports := d.importNodes;
      for i := 0 to |imports|
        invariant imported == old(imported) + NonStaticImports(imports[..i])
        invariant fields == old(fields) && unchanged(sequence)
      {
        assert imports[..i + 1][..i] == imports[..i];
        if !imports[i].isStatic {
          imported := imported + [imports[i].name.ToString()];
        }
      }
      assert imports[..|imports|] == imports;
      var name := NameOf(d);
      if name.Failure? {
        return Failure(UncheckedRaised(name.error));
      }
      var k := sequence.IncrementAndGet();
      var className := StubClassName(name.value, k);
      var carrier, failure := AddInjects(d.injectNodes);
      if failure.Some? {
        return Failure(UncheckedRaised(failure.value));
      }
      var src := WriteAccessor(fields);
      if !host.compiles(carrier, src) {
        r := Failure(CheckedRaised(CannotCompile("CtNewMethod.make")));
      } else {
        var c := StubClass(className, [Stub], carrier, src);
        if !host.loads(c) {
          r := Failure(CheckedRaised(CannotCompile("CtClass.toClass")));
        } else {
          r := Success(c);
        }
      }
      assert r == Finish(host, className, carrier, src);
    }

    /** The inject loop of build: each inject field in turn is resolved and
        added to the carrier, and the fully resolved names join `fields`; a
        failed cast ends the loop. */
    method AddInjects(injects: seq<FieldDeclaration>) returns (carrier: seq<CarrierField>, failure: Option<Unchecked>)
      modifies this
      ensures imported == old(imported)
      ensures var s := SelectFrom(host, imported, [], injects);
        && (failure.Some? <==> s.Failure?)
        && (failure.Some? ==> failure.value == s.error)
        && (failure.None? ==> carrier == s.value.carrier && fields == old(fields) + s.value.fields)
    {
      carrier := [];
      ghost var selected: seq<string> := [];
      ghost var verdicts: seq<Verdict> := [];
      PrependNothing(SelectFrom(host, imported, [], injects));
      assert injects[0..] == injects;
      var i := 0;
      while i < |injects|
        invariant 0 <= i <= |injects|
        invariant fields == old(fields) + selected && imported == old(imported)
        invariant SelectFrom(host, imported, [], injects) == Prepend(selected, verdicts, SelectFrom(host, imported, carrier, injects[i..]))
      {
        var f := injects[i];
        assert injects[i..][0] == f && injects[i..][1..] == injects[i + 1..];
        var t := InjectTypeName(f);
        if t.Failure? {
          return carrier, Some(t.error);
        }
        var name := f.variables[0];
        var step := InjectField(host, imported, carrier, name, t.value, f.annotations);
        ghost var accepted := if step.verdict.Kept? then [name] else [];
        PrependTwice(selected, verdicts, accepted, [step.verdict], SelectFrom(host, imported, carrier + step.added, injects[i + 1..]));
        if step.verdict.Kept? {
          fields := fields + [name];
        }
        carrier := carrier + step.added;
        selected := selected + accepted;
        verdicts := verdicts + [step.verdict];
        i := i + 1;
      }
      assert SelectFrom(host, imported, carrier, injects[i..]) == Success(Selection(carrier, [], []));
      assert selected + [] == selected && verdicts + [] == verdicts;
      failure := None;
    }
  }

  lemma PrependNothing(r: Result<Selection, Unchecked>)
    ensures Prepend([], [], r) == r
  {
    if r.Success? {
      assert [] + r.value.fields == r.value.fields && [] + r.value.verdicts == r.value.verdicts;
    }
  }

  lemma PrependTwice(f1: seq<string>, v1: seq<Verdict>, f2: seq<string>, v2: seq<Verdict>, r: Result<Selection, Unchecked>)
    ensures Prepend(f1, v1, Prepend(f2, v2, r)) == Prepend(f1 + f2, v1 + v2, r)
  {
    if r.Success? {
      SeqAssociative(f1, f2, r.value.fields);
      SeqAssociative(v1, v2, r.value.verdicts);
    }
  }

  // ---------------------------------------------------------------------------
  // Lemmas: the import context.

  /** The pool imports exactly the names of the non-static imports. */
  lemma {:induction false} NonStaticImportsMembership(imports: seq<ImportDeclaration>, x: string)
    ensures x in NonStaticImports(imports) <==> exists i :: 0 <= i < |imports| && !imports[i].isStatic && imports[i].name.ToString() == x
    decreases |imports|
  {
    if imports != [] {
      var init := imports[..|imports| - 1];
      NonStaticImportsMembership(init, x);
      if exists i :: 0 <= i < |init| && !init[i].isStatic && init[i].name.ToString() == x {
        var i :| 0 <= i < |init| && !init[i].isStatic && init[i].name.ToString() == x;
        assert imports[i] == init[i];
      }
      if exists i :: 0 <= i < |imports| && !imports[i].isStatic && imports[i].name.ToString() == x {
        var i :| 0 <= i < |imports| && !imports[i].isStatic && imports[i].name.ToString() == x;
        if i < |init| {
          assert init[i] == imports[i];
        }
      }
    }
  }

  // ---------------------------------------------------------------------------
  // Lemmas: field selection.

  /** The variable names of the inject fields whose verdict is in `vs`. */
  function NamesWith(injects: seq<FieldDeclaration>, verdicts: seq<Verdict>, vs: set<Verdict>): seq<string>
    requires |verdicts| == |injects|
    decreases |injects|
  {
    if injects == [] then []
    else (if verdicts[0] in vs then [injects[0].variables[0]] else []) + NamesWith(injects[1..], verdicts[1..], vs)
  }

  /** Every name picked out is the variable of one of the inject fields. */
  lemma {:induction false} NamesWithComeFromInjects(injects: seq<FieldDeclaration>, verdicts: seq<Verdict>, vs: set<Verdict>)
    requires |verdicts| == |injects|
    ensures forall n :: n in NamesWith(injects, verdicts, vs) ==> exists f :: f in injects && n == f.variables[0]
    decreases |injects|
  {
    if injects != [] {
      NamesWithComeFromInjects(injects[1..], verdicts[1..], vs);
      forall n | n in NamesWith(injects, verdicts, vs)
        ensures exists f :: f in injects && n == f.variables[0]
      {
        if n == injects[0].variables[0] {
          assert injects[0] in injects;
        } else {
          assert n in NamesWith(injects[1..], verdicts[1..], vs);
          var f :| f in injects[1..] && n == f.variables[0];
          assert f in injects;
        }
      }
    }
  }

  function FieldNames(fs: seq<CarrierField>): seq<string> {
    seq(|fs|, i requires 0 <= i < |fs| => fs[i].name)
  }

  /** The annotation loop resolves the longest resolvable prefix of the
      annotations, in order, and completes exactly when every one resolves. */
  lemma {:induction false} ResolveAnnotationsPrefix(h: Javassist, imported: seq<string>, anns: seq<AnnotationExpr>)
    ensures var r := ResolveAnnotations(h, imported, anns);
      && |r.types| <= |anns|
      && (forall i :: 0 <= i < |r.types| ==> h.resolve(imported, anns[i].Name().id) == Some(r.types[i]))
      && (r.complete <==> |r.types| == |anns|)
      && (!r.complete ==> h.resolve(imported, anns[|r.types|].Name().id).None?)
    decreases |anns|
  {
    if anns != [] && h.resolve(imported, anns[0].Name().id).Some? {
      ResolveAnnotationsPrefix(h, imported, anns[1..]);
      var r := ResolveAnnotations(h, imported, anns);
      var rest := ResolveAnnotations(h, imported, anns[1..]);
      forall i | 0 <= i < |r.types|
        ensures h.resolve(imported, anns[i].Name().id) == Some(r.types[i])
      {
        if i > 0 {
          assert anns[i] == anns[1..][i - 1] && r.types[i] == rest.types[i - 1];
        }
      }
      if !r.complete {
        assert anns[|r.types|] == anns[1..][|rest.types|];
      }
    }
  }

  /** The annotation a carrier field keeps is that of the last annotation
      before the first one that does not resolve; none when the first one
      does not resolve or there is none. */
  lemma OnlyLastAnnotationKept(h: Javassist, imported: seq<string>, anns: seq<AnnotationExpr>)
    ensures var r := ResolveAnnotations(h, imported, anns); var k := |r.types|; var kept := LastAttached(r.types);
      && (kept.None? <==> anns == [] || h.resolve(imported, anns[0].Name().id).None?)
      && (kept.Some? ==>
            && 0 < k <= |anns|
            && kept == h.resolve(imported, anns[k - 1].Name().id)
            && (k == |anns| || h.resolve(imported, anns[k].Name().id).None?))
  {
    ResolveAnnotationsPrefix(h, imported, anns);
  }

  /** An inject field is kept exactly when its type resolves, is in the pool,
      is accepted as a field and all its annotations resolve; it is in the
      carrier class whenever the field was added, even if an annotation then
      failed. */
  lemma InjectFieldVerdict(h: Javassist, imported: seq<string>, carrier: seq<CarrierField>, name: string, typeName: string, anns: seq<AnnotationExpr>)
    ensures var step := InjectField(h, imported, carrier, name, typeName, anns); var fqn := h.resolve(imported, typeName);
      && (step.verdict == Kept <==>
            fqn.Some? && h.poolHas(fqn.value) && h.addField(carrier, name, fqn.value) &&
            forall a :: a in anns ==> h.resolve(imported, a.Name().id).Some?)
      && (step.added != [] <==> step.verdict in {Kept, AnnotationUnresolved})
      && (step.added != [] ==> step.added == [CarrierField(name, fqn.value, LastAttached(ResolveAnnotations(h, imported, anns).types))])
  {
    ResolveAnnotationsPrefix(h, imported, anns);
    var r := ResolveAnnotations(h, imported, anns);
    if !r.complete {
      assert anns[|r.types|] in anns;
    } else {
      forall a | a in anns
        ensures h.resolve(imported, a.Name().id).Some?
      {
        var i :| 0 <= i < |anns| && anns[i] == a;
      }
    }
  }

  /** `fields` is the subsequence of inject variable names, in inject order,
      whose verdict is Kept; the carrier gains, in the same order, one field
      for each inject that was added, kept or not. */
  lemma {:induction false} SelectionIsSubsequence(h: Javassist, imported: seq<string>, carrier: seq<CarrierField>, injects: seq<FieldDeclaration>)
    requires SelectFrom(h, imported, carrier, injects).Success?
    ensures var sel := SelectFrom(h, imported, carrier, injects).value;
      && |sel.verdicts| == |injects|
      && sel.fields == NamesWith(injects, sel.verdicts, {Kept})
      && |carrier| <= |sel.carrier| && sel.carrier[..|carrier|] == carrier
      && FieldNames(sel.carrier[|carrier|..]) == NamesWith(injects, sel.verdicts, {Kept, AnnotationUnresolved})
    decreases |injects|
  {
    var sel := SelectFrom(h, imported, carrier, injects).value;
    if injects == [] {
      assert sel.carrier[|carrier|..] == [];
    } else {
      var f := injects[0];
      var name := f.variables[0];
      var step := InjectField(h, imported, carrier, name, InjectTypeName(f).value, f.annotations);
      var next := carrier + step.added;
      SelectionIsSubsequence(h, imported, next, injects[1..]);
      var rest := SelectFrom(h, imported, next, injects[1..]).value;
      assert sel == Selection(rest.carrier, (if step.verdict.Kept? then [name] else []) + rest.fields, [step.verdict] + rest.verdicts);
      assert sel.verdicts[0] == step.verdict && sel.verdicts[1..] == rest.verdicts;
      InjectFieldVerdict(h, imported, carrier, name, InjectTypeName(f).value, f.annotations);
      assert FieldNames(step.added) == if step.verdict in {Kept, AnnotationUnresolved} then [name] else [];
      CarrierExtends(carrier, step.added, rest.carrier);
      FieldNamesAppend(step.added, rest.carrier[|next|..]);
    }
  }

  /** A carrier that extends `carrier + added` splits after `carrier`. */
  lemma CarrierExtends(carrier: seq<CarrierField>, added: seq<CarrierField>, whole: seq<CarrierField>)
    requires |carrier + added| <= |whole| && whole[..|carrier + added|] == carrier + added
    ensures |carrier| <= |whole| && whole[..|carrier|] == carrier
    ensures whole[|carrier|..] == added + whole[|carrier + added|..]
  {
    assert whole[..|carrier|] == (carrier + added)[..|carrier|];
    assert whole[|carrier|..|carrier + added|] == added;
  }

  lemma FieldNamesAppend(a: seq<CarrierField>, b: seq<CarrierField>)
    ensures FieldNames(a + b) == FieldNames(a) + FieldNames(b)
  {
  }

  /** The inject at `i` is the first whose type casts fail. */
  predicate FirstCastFailure(injects: seq<FieldDeclaration>, i: int) {
    && 0 <= i < |injects| && InjectTypeName(injects[i]).Failure?
    && forall j :: 0 <= j < i ==> InjectTypeName(injects[j]).Success?
  }

  /** The build fails exactly when some inject field has a primitive type or
      a primitive array type, and then with that field's ClassCastException
      for the first such field. */
  lemma {:induction false} SelectionFailsOnlyOnCast(h: Javassist, imported: seq<string>, carrier: seq<CarrierField>, injects: seq<FieldDeclaration>)
    ensures var r := SelectFrom(h, imported, carrier, injects);
      && (r.Failure? <==> exists i :: 0 <= i < |injects| && InjectTypeName(injects[i]).Failure?)
      && (r.Failure? ==> exists i :: FirstCastFailure(injects, i) && r.error == InjectTypeName(injects[i]).error)
    decreases |injects|
  {
    if injects != [] && InjectTypeName(injects[0]).Success? {
      var f := injects[0];
      var step := InjectField(h, imported, carrier, f.variables[0], InjectTypeName(f).value, f.annotations);
      SelectionFailsOnlyOnCast(h, imported, carrier + step.added, injects[1..]);
      var r := SelectFrom(h, imported, carrier, injects);
      if exists i :: 0 <= i < |injects| && InjectTypeName(injects[i]).Failure? {
        var i :| 0 <= i < |injects| && InjectTypeName(injects[i]).Failure?;
        assert injects[1..][i - 1] == injects[i];
      }
      if exists i :: 0 <= i < |injects[1..]| && InjectTypeName(injects[1..][i]).Failure? {
        var i :| 0 <= i < |injects[1..]| && InjectTypeName(injects[1..][i]).Failure?;
        assert injects[i + 1] == injects[1..][i];
      }
      if r.Failure? {
        var i :| FirstCastFailure(injects[1..], i) && r.error == InjectTypeName(injects[1..][i]).error;
        assert injects[i + 1] == injects[1..][i];
        forall j | 0 <= j < i + 1
          ensures InjectTypeName(injects[j]).Success?
        {
          if j > 0 {
            assert injects[j] == injects[1..][j - 1];
          }
        }
        assert FirstCastFailure(injects, i + 1);
      }
    }
  }

  // ---------------------------------------------------------------------------
  // Lemmas: the accessor source.

  lemma IndexOfQuoteAt(s: string, k: nat)
    requires k < |s| && s[k] == '"' && '"' !in s[..k]
    ensures IndexOfQuote(s) == k
  {
  }

  lemma PutThenRest(name: string, rest: string)
    requires '"' !in name
    ensures ParsePuts(Put(name) + rest) == match ParsePuts(rest) case None => None case Some(ns) => Some([name] + ns)
  {
    var s := Put(name) + rest;
    assert s[..|PutOpen|] == PutOpen;
    var tail := s[|PutOpen|..];
    assert tail == name + PutMiddle + name + PutClose + rest;
    assert tail[..|name|] == name;
    IndexOfQuoteAt(tail, |name|);
    var expected := PutMiddle + name + PutClose;
    assert tail[|name|..] == expected + rest;
    assert tail[|name|..][..|expected|] == expected;
    assert tail[|name| + |expected|..] == rest;
  }

  lemma {:induction false} PutsRoundTrip(names: seq<string>)
    requires forall i :: 0 <= i < |names| ==> '"' !in names[i]
    ensures ParsePuts(Puts(names)) == Some(names)
    decreases |names|
  {
    if names != [] {
      PutsRoundTrip(names[1..]);
      PutThenRest(names[0], Puts(names[1..]));
      assert Puts(names) == Put(names[0]) + Puts(names[1..]);
      assert [names[0]] + names[1..] == names;
    }
  }

  /** The generated accessor is the fixed head, one put per field name in
      order, and the fixed tail: reading it back gives the names. */
  lemma AccessorRoundTrip(names: seq<string>)
    requires forall i :: 0 <= i < |names| ==> '"' !in names[i]
    ensures ParseAccessor(AccessorSource(names)) == Some(names)
  {
    var src := AccessorSource(names);
    PutsRoundTrip(names);
    assert src[..|AccessorHead|] == AccessorHead;
    assert src[|src| - |AccessorTail|..] == AccessorTail;
    assert src[|AccessorHead|..|src| - |AccessorTail|] == Puts(names);
  }
}
