/**
 * The part of the JavaParser 2.x syntax tree that the header scanner produces
 * and the script builder reads, and the three JavaParser entry points as an
 * abstract parser. The grammar itself is foreign: a parse yields a node, fails
 * with a ParseException or fails in the token manager, and which of the three
 * happens is up to the parser.
 */
module JavaAst {
  import opened Wrappers

  /** A NameExpr (`Foo`) or QualifiedNameExpr (`a.b.Foo`). */
  datatype QName = Name(id: string) | Qualified(qualifier: QName, id: string) {
    /** NameExpr.toString: the identifiers joined by dots. */
    function ToString(): string {
      match this
      case Name(id) => id
      case Qualified(q, id) => q.ToString() + "." + id
    }
  }

  /** An annotation member value. StringLiteral stands for a StringLiteralExpr
      or any of the JavaParser 2.x literals that extend it (integer, long,
      double and char literals), holding the literal's text as getValue
      returns it; OtherExpr is every other expression (names, boolean and null
      literals, arrays, binary expressions, ...). */
  datatype Expr = StringLiteral(value: string) | OtherExpr(text: string)

  datatype MemberValuePair = MemberValuePair(key: string, value: Expr)

  /** `@Foo(x)` */
  datatype SingleMemberAnnotationExpr = SingleMemberAnnotationExpr(name: QName, memberValue: Expr)

  /** `@Foo()` or `@Foo(k = v, ...)` */
  datatype NormalAnnotationExpr = NormalAnnotationExpr(name: QName, pairs: seq<MemberValuePair>)

  datatype AnnotationExpr =
    | MarkerAnnotation(marker: QName)                    // `@Foo`
    | NormalAnnotation(normal: NormalAnnotationExpr)
    | SingleMemberAnnotation(single: SingleMemberAnnotationExpr)
  {
    /** AnnotationExpr.getName(). */
    function Name(): QName {
      match this
      case MarkerAnnotation(n) => n
      case NormalAnnotation(a) => a.name
      case SingleMemberAnnotation(a) => a.name
    }
  }

  /** The element of a reference type: a class or interface type (its scope
      `a.b` in `a.b.Foo` kept apart from the simple name) or a primitive (the
      element of `int[]`). */
  datatype ElementType = ClassOrInterfaceType(scope: seq<string>, name: string) | PrimitiveElement(keyword: string)

  /** A field's declared type: a primitive type, or a ReferenceType wrapping an
      element type with an array dimension count. */
  datatype TypeRef = PrimitiveType(keyword: string) | ReferenceType(element: ElementType, arrayCount: nat)

  /** A field declaration parsed from a header line starting with '@' always
      carries that leading annotation, and every field declaration declares at
      least one variable. */
  type Annotations = s: seq<AnnotationExpr> | |s| > 0 witness [MarkerAnnotation(Name("Inject"))]
  type Variables = s: seq<string> | |s| > 0 witness ["x"]

  datatype FieldDeclaration = FieldDeclaration(annotations: Annotations, fieldType: TypeRef, variables: Variables)

  /** parseBodyDeclaration yields a field, or some other member (a method, a
      constructor, a nested type, an annotation type), which no visitor reads. */
  datatype BodyDeclaration = FieldMember(field: FieldDeclaration) | OtherMember(text: string)

  datatype ImportDeclaration = ImportDeclaration(isStatic: bool, isAsterisk: bool, name: QName)

  datatype Node =
    | ImportNode(importDecl: ImportDeclaration)
    | AnnotationNode(annotation: AnnotationExpr)
    | BodyNode(member: BodyDeclaration)

  /** What one JavaParser entry point does with a text: it returns a node
      (Ok), throws a ParseException (Rejected), or its token manager meets a
      character sequence that is no Java token (a single-quoted string, an
      unterminated double quote) and throws TokenMgrError, which is not a
      ParseException (LexicalError). */
  datatype ParseOutcome<+T> = Ok(value: T) | Rejected | LexicalError

  /** JavaParser.parseImport / parseAnnotation / parseBodyDeclaration. */
  datatype JavaParser = JavaParser(
    parseImport: string -> ParseOutcome<ImportDeclaration>,
    parseAnnotation: string -> ParseOutcome<AnnotationExpr>,
    parseBodyDeclaration: string -> ParseOutcome<BodyDeclaration>)
}
