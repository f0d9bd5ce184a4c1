/**
 * The descriptor a script's header nodes are gathered into, and the visitor
 * that routes each node by annotation name. The visitor works on the
 * script's own fields; here those fields are one value, and the script class
 * (module Scripts) applies these functions to its state.
 */
module Visitor {
  import opened Wrappers
  import opened JavaAst
  import opened Exceptions

  /** The header slots of a script: four single annotations (null until the
      header supplies one) and four node lists in visit order. */
  datatype Descriptor = Descriptor(
    nameNode: Option<SingleMemberAnnotationExpr>,
    descriptionNode: Option<SingleMemberAnnotationExpr>,
    importNodes: seq<ImportDeclaration>,
    startupNode: Option<NormalAnnotationExpr>,
    scheduleNode: Option<SingleMemberAnnotationExpr>,
    observesNodes: seq<FieldDeclaration>,
    injectNodes: seq<FieldDeclaration>,
    resourceNodes: seq<FieldDeclaration>)

  /** The state of a freshly constructed script. */
  const Empty: Descriptor := Descriptor(None, None, [], None, None, [], [], [])

  /** The first-annotation names that send a field to the resource list. */
  const ResourceKinds: set<string> := {"Resource", "EJB", "WebServiceRef", "PersistenceUnit", "PersistenceContext"}

  /** The simple name of a field's first annotation, which routes it. */
  function FieldKind(f: FieldDeclaration): string {
    f.annotations[0].Name().id
  }

  function VisitNormal(d: Descriptor, node: NormalAnnotationExpr): Descriptor {
    if node.name.id == "Startup" then d.(startupNode := Some(node)) else d
  }

  function VisitSingleMember(d: Descriptor, node: SingleMemberAnnotationExpr): Descriptor {
    var id := node.name.id;
    if id == "Name" then d.(nameNode := Some(node))
    else if id == "Description" then d.(descriptionNode := Some(node))
    else if id == "Schedule" then d.(scheduleNode := Some(node))
    else d
  }

  function VisitField(d: Descriptor, node: FieldDeclaration): Descriptor {
    var kind := FieldKind(node);
    if kind == "Observes" then d.(observesNodes := d.observesNodes + [node])
    else if kind == "Inject" then d.(injectNodes := d.injectNodes + [node])
    else if kind in ResourceKinds then d.(resourceNodes := d.resourceNodes + [node])
    else d
  }

  function VisitImport(d: Descriptor, node: ImportDeclaration): Descriptor {
    d.(importNodes := d.importNodes + [node])
  }

  /** Node.accept: the overridden visit method for the node's class; marker
      annotations and non-field members reach the empty NoOpVisitor methods. */
  function Accept(d: Descriptor, n: Node): Descriptor {
    match n
    case ImportNode(i) => VisitImport(d, i)
    case AnnotationNode(NormalAnnotation(a)) => VisitNormal(d, a)
    case AnnotationNode(SingleMemberAnnotation(a)) => VisitSingleMember(d, a)
    case AnnotationNode(MarkerAnnotation(_)) => d
    case BodyNode(FieldMember(f)) => VisitField(d, f)
    case BodyNode(OtherMember(_)) => d
  }

  /** The state after visiting `nodes` in order. */
  function AcceptAll(d: Descriptor, nodes: seq<Node>): Descriptor
    decreases |nodes|
  {
    if nodes == [] then d else Accept(AcceptAll(d, nodes[..|nodes| - 1]), nodes[|nodes| - 1])
  }

  /** Script.getName: the text of the @Name annotation's value, cast to
      StringLiteralExpr; a script without the annotation fails with
      NullPointerException and one whose value is no StringLiteralExpr (nor one
      of its numeric or char literal subclasses, so `@Name(42)` gives "42")
      with ClassCastException. */
  function NameOf(d: Descriptor): (r: Result<string, Unchecked>)
    ensures r.Success? <==> d.nameNode.Some? && d.nameNode.value.memberValue.StringLiteral?
  {
    match d.nameNode
    case None => Failure(NullPointer("Script.getName: no @Name annotation"))
    case Some(a) =>
      match a.memberValue
      case StringLiteral(v) => Success(v)
      case OtherExpr(_) => Failure(ClassCast("Script.getName: @Name value is not a StringLiteralExpr"))
  }

  // ---------------------------------------------------------------------------
  // Independent descriptions of what the visitor collects.

  /** The import declarations among `nodes`, in order. */
  function ImportsIn(nodes: seq<Node>): seq<ImportDeclaration>
    decreases |nodes|
  {
    if nodes == [] then []
    else
      var last := nodes[|nodes| - 1];
      ImportsIn(nodes[..|nodes| - 1]) + (if last.ImportNode? then [last.importDecl] else [])
  }

  /** The field declarations among `nodes` whose first annotation's simple
      name is in `kinds`, in order. */
  function FieldsOfKind(nodes: seq<Node>, kinds: set<string>): seq<FieldDeclaration>
    decreases |nodes|
  {
    if nodes == [] then []
    else
      var last := nodes[|nodes| - 1];
      FieldsOfKind(nodes[..|nodes| - 1], kinds)
        + (if last.BodyNode? && last.member.FieldMember? && FieldKind(last.member.field) in kinds then [last.member.field] else [])
  }

  /** The last single-member annotation among `nodes` with simple name `id`. */
  function LastSingleMember(nodes: seq<Node>, id: string): Option<SingleMemberAnnotationExpr>
    decreases |nodes|
  {
    if nodes == [] then None
    else
      var last := nodes[|nodes| - 1];
      if last.AnnotationNode? && last.annotation.SingleMemberAnnotation? && last.annotation.single.name.id == id
      then Some(last.annotation.single)
      else LastSingleMember(nodes[..|nodes| - 1], id)
  }

  /** The last normal annotation among `nodes` with simple name `id`. */
  function LastNormal(nodes: seq<Node>, id: string): Option<NormalAnnotationExpr>
    decreases |nodes|
  {
    if nodes == [] then None
    else
      var last := nodes[|nodes| - 1];
      if last.AnnotationNode? && last.annotation.NormalAnnotation? && last.annotation.normal.name.id == id
      then Some(last.annotation.normal)
      else LastNormal(nodes[..|nodes| - 1], id)
  }

  function Otherwise<T>(o: Option<T>, fallback: Option<T>): Option<T> {
    if o.Some? then o else fallback
  }

  /** A node whose name the visitor does not route. */
  predicate Inert(n: Node) {
    match n
    case ImportNode(_) => false
    case AnnotationNode(NormalAnnotation(a)) => a.name.id != "Startup"
    case AnnotationNode(SingleMemberAnnotation(a)) => a.name.id !in {"Name", "Description", "Schedule"}
    case AnnotationNode(MarkerAnnotation(_)) => true
    case BodyNode(FieldMember(f)) => FieldKind(f) !in {"Observes", "Inject"} + ResourceKinds
    case BodyNode(OtherMember(_)) => true
  }

  // ---------------------------------------------------------------------------
  // Lemmas: the visitor's final state, slot by slot.

  /** Import nodes are appended in visit order, and nothing else is. */
  lemma {:induction false} ImportsInOrder(d: Descriptor, nodes: seq<Node>)
    ensures AcceptAll(d, nodes).importNodes == d.importNodes + ImportsIn(nodes)
    decreases |nodes|
  {
    if nodes != [] {
      ImportsInOrder(d, nodes[..|nodes| - 1]);
    }
  }

  /** The three field lists each collect, in visit order, exactly the fields
      whose first annotation has one of its names; other fields are dropped. */
  lemma {:induction false} FieldListsByKind(d: Descriptor, nodes: seq<Node>)
    ensures AcceptAll(d, nodes).observesNodes == d.observesNodes + FieldsOfKind(nodes, {"Observes"})
    ensures AcceptAll(d, nodes).injectNodes == d.injectNodes + FieldsOfKind(nodes, {"Inject"})
    ensures AcceptAll(d, nodes).resourceNodes == d.resourceNodes + FieldsOfKind(nodes, ResourceKinds)
    decreases |nodes|
  {
    if nodes != [] {
      var prefix := nodes[..|nodes| - 1];
      FieldListsByKind(d, prefix);
      NodeTouchesOnlyItsSlot(AcceptAll(d, prefix), nodes[|nodes| - 1]);
    }
  }

  /** Name, Description and Schedule each hold the last single-member
      annotation with that name, or keep their earlier value if there is none;
      Startup holds the last normal annotation named Startup. */
  lemma {:induction false} SlotsHoldLastOccurrence(d: Descriptor, nodes: seq<Node>)
    ensures AcceptAll(d, nodes).nameNode == Otherwise(LastSingleMember(nodes, "Name"), d.nameNode)
    ensures AcceptAll(d, nodes).descriptionNode == Otherwise(LastSingleMember(nodes, "Description"), d.descriptionNode)
    ensures AcceptAll(d, nodes).scheduleNode == Otherwise(LastSingleMember(nodes, "Schedule"), d.scheduleNode)
    ensures AcceptAll(d, nodes).startupNode == Otherwise(LastNormal(nodes, "Startup"), d.startupNode)
    decreases |nodes|
  {
    if nodes != [] {
      var prefix := nodes[..|nodes| - 1];
      SlotsHoldLastOccurrence(d, prefix);
      NodeTouchesOnlyItsSlot(AcceptAll(d, prefix), nodes[|nodes| - 1]);
    }
  }

  /** A node with a name the visitor does not route changes nothing. */
  lemma InertChangesNothing(d: Descriptor, n: Node)
    requires Inert(n)
    ensures Accept(d, n) == d
  {
  }

  /** Each node changes only the slot or list its name selects: a later
      single annotation with the same name overwrites the earlier one, a
      field joins exactly one list or none, and every other slot keeps its
      value. */
  lemma NodeTouchesOnlyItsSlot(d: Descriptor, n: Node)
    ensures var e := Accept(d, n);
      match n
      case ImportNode(i) => e == d.(importNodes := d.importNodes + [i])
      case AnnotationNode(NormalAnnotation(a)) =>
        e == d.(startupNode := if a.name.id == "Startup" then Some(a) else d.startupNode)
      case AnnotationNode(SingleMemberAnnotation(a)) =>
        && e.nameNode == (if a.name.id == "Name" then Some(a) else d.nameNode)
        && e.descriptionNode == (if a.name.id == "Description" then Some(a) else d.descriptionNode)
        && e.scheduleNode == (if a.name.id == "Schedule" then Some(a) else d.scheduleNode)
        && e.(nameNode := d.nameNode, descriptionNode := d.descriptionNode, scheduleNode := d.scheduleNode) == d
      case AnnotationNode(MarkerAnnotation(_)) => e == d
      case BodyNode(FieldMember(f)) =>
        && e.observesNodes == d.observesNodes + (if FieldKind(f) == "Observes" then [f] else [])
        && e.injectNodes == d.injectNodes + (if FieldKind(f) == "Inject" then [f] else [])
        && e.resourceNodes == d.resourceNodes + (if FieldKind(f) in ResourceKinds then [f] else [])
        && e.(observesNodes := d.observesNodes, injectNodes := d.injectNodes, resourceNodes := d.resourceNodes) == d
      case BodyNode(OtherMember(_)) => e == d
  {
    match n
    case BodyNode(FieldMember(f)) =>
      assert d.observesNodes + [] == d.observesNodes && d.injectNodes + [] == d.injectNodes;
      assert d.resourceNodes + [] == d.resourceNodes;
    case _ =>
  }
}
