/**
 * ScriptLoader: reads a script line by line, copies every line into the body,
 * tracks whether the cursor is inside a documentation-comment block (opened by
 * a line that strips to slash-star-star, closed by one that strips to
 * star-slash) and hands each line read inside such a block to the header
 * parser.
 */
module ScriptLoader {
  import opened Wrappers
  import opened Text
  import opened JavaAst
  import opened Exceptions
  import V = Visitor
  import opened Importer
  import Stubs
  import opened Scripts

  /** The characters stripStart removes before classification: spaces and
      stars only (a tab is kept). */
  const HeaderStripChars: set<char> := {' ', '*'}

  /** Where a TokenMgrError leaves the loader. */
  const LexErrorSite: string := "ScriptLoader.parseHeader: lexical error"


  /** How parseHeader treats one header line: which JavaParser entry point it
      calls and on what text, or that it yields no node. */
  datatype HeaderLine =
    | ImportLine(source: string)
    | TopLevelAnnotationLine(source: string)
    | DeclarationLine(source: string)
    | Ignored

  /** StringUtils.startsWithAny over the four top-level annotations, checked as
      plain prefixes. */
  predicate StartsWithTopLevelAnnotation(s: string) {
    StartsWith(s, "@Name") || StartsWith(s, "@Description") || StartsWith(s, "@Startup") || StartsWith(s, "@Schedule")
  }

  /** The prefix tests of parseHeader, in their order. */
  function Classify(line: string): HeaderLine {
    var l := StripStart(line, HeaderStripChars);
    if StartsWith(l, "import") then ImportLine(l + ";")
    else if StartsWithTopLevelAnnotation(l) then TopLevelAnnotationLine(l)
    else if StartsWith(l, "@") then DeclarationLine(l + ";")
    else Ignored
  }

  /** Result of parseHeader: a node, null (no node), a ParseException, or the
      token manager's TokenMgrError, which parseHeader's caller does not catch. */
  datatype HeaderParse = Parsed(node: Node) | NoNode | ParseError | LexError

  /** parseHeader: classify the line, then call the matching parser. */
  function ParseHeader(parser: JavaParser, line: string): (r: HeaderParse)
    ensures r.NoNode? <==> Classify(line) == Ignored
    ensures r.Parsed? ==> (r.node.ImportNode? <==> Classify(line).ImportLine?)
    ensures r.Parsed? ==> (r.node.AnnotationNode? <==> Classify(line).TopLevelAnnotationLine?)
    ensures r.Parsed? ==> (r.node.BodyNode? <==> Classify(line).DeclarationLine?)
    ensures r.LexError? <==> match Classify(line)
      case ImportLine(src) => parser.parseImport(src).LexicalError?
      case TopLevelAnnotationLine(src) => parser.parseAnnotation(src).LexicalError?
      case DeclarationLine(src) => parser.parseBodyDeclaration(src).LexicalError?
      case Ignored => false
  {
    match Classify(line)
    case ImportLine(src) =>
      (match parser.parseImport(src)
       case Ok(d) => Parsed(ImportNode(d)) case Rejected => ParseError case LexicalError => LexError)
    case TopLevelAnnotationLine(src) =>
      (match parser.parseAnnotation(src)
       case Ok(a) => Parsed(AnnotationNode(a)) case Rejected => ParseError case LexicalError => LexError)
    case DeclarationLine(src) =>
      (match parser.parseBodyDeclaration(src)
       case Ok(b) => Parsed(BodyNode(b)) case Rejected => ParseError case LexicalError => LexError)
    case Ignored => NoNode
  }

  /** A line whose stripped form is exactly the block opener / closer. */
  predicate IsOpen(line: string) { Strip(line) == "/**" }
  predicate IsClose(line: string) { Strip(line) == "*/" }

  /** The nodes a parsed line contributes: a ParseException is logged and the
      line skipped, a null result adds nothing. (A lexical error ends the loop
      instead; see LexFails.) */
  function Kept(parser: JavaParser, line: string): seq<Node> {
    match ParseHeader(parser, line)
    case Parsed(n) => [n]
    case _ => []
  }

  /** The loop of `load` as a state machine: `flag` is the header flag before
      the first of `lines`; the result is the nodes added from then on. */
  function Scan(parser: JavaParser, flag: bool, lines: seq<string>): seq<Node>
    decreases |lines|
  {
    if lines == [] then []
    else if IsOpen(lines[0]) then Scan(parser, true, lines[1..])
    else if IsClose(lines[0]) then Scan(parser, false, lines[1..])
    else if flag then Kept(parser, lines[0]) + Scan(parser, flag, lines[1..])
    else Scan(parser, flag, lines[1..])
  }

  /** One line read with the given flag is handed to parseHeader and fails in
      the token manager. */
  predicate StepFails(parser: JavaParser, flag: bool, line: string) {
    flag && !IsOpen(line) && !IsClose(line) && ParseHeader(parser, line).LexError?
  }

  /** Some line handed to parseHeader, reading on from `flag`, throws
      TokenMgrError: the exception leaves the loop and `load`. */
  predicate LexFails(parser: JavaParser, flag: bool, lines: seq<string>)
    decreases |lines|
  {
    lines != [] && (StepFails(parser, flag, lines[0]) || LexFails(parser, NextFlag(flag, lines[0]), lines[1..]))
  }

  /** The body: every line followed by the line separator. */
  function Printed(lines: seq<string>): string
  {
    if lines == [] then "" else lines[0] + LineSeparator + Printed(lines[1..])
  }

  // ---------------------------------------------------------------------------
  // An independent description of the header: by line index.

  /** Line i is read with the flag set: some earlier line opens a block and no
      line between them closes it (every opener line reopens, not only the first). */
  ghost predicate FlagAt(lines: seq<string>, i: int)
    requires 0 <= i <= |lines|
  {
    exists j :: 0 <= j < i && IsOpen(lines[j]) && NoCloserIn(lines, j + 1, i)
  }

  ghost predicate NoCloserIn(lines: seq<string>, lo: int, hi: int)
    requires 0 <= lo <= hi <= |lines|
  {
    forall k :: lo <= k < hi ==> !IsClose(lines[k])
  }

  /** Lines handed to parseHeader: read with the flag set, and not a delimiter. */
  ghost predicate HeaderLineAt(lines: seq<string>, i: int)
    requires 0 <= i < |lines|
  {
    FlagAt(lines, i) && !IsOpen(lines[i]) && !IsClose(lines[i])
  }

  /** What line i contributes. */
  ghost function KeptAt(parser: JavaParser, lines: seq<string>, i: int): seq<Node>
    requires 0 <= i < |lines|
  {
    if HeaderLineAt(lines, i) then Kept(parser, lines[i]) else []
  }

  /** The nodes of the first n lines, collected line index by line index. */
  ghost function Collected(parser: JavaParser, lines: seq<string>, n: nat): seq<Node>
    requires n <= |lines|
  {
    if n == 0 then [] else Collected(parser, lines, n - 1) + KeptAt(parser, lines, n - 1)
  }

  /** How the flag moves from line i to line i + 1. */
  lemma FlagStep(lines: seq<string>, i: int)
    requires 0 <= i < |lines|
    ensures FlagAt(lines, i + 1) <==> IsOpen(lines[i]) || (!IsClose(lines[i]) && FlagAt(lines, i))
  {
    if FlagAt(lines, i + 1) && !IsOpen(lines[i]) {
      var j :| 0 <= j < i + 1 && IsOpen(lines[j]) && NoCloserIn(lines, j + 1, i + 1);
      assert j != i;
      assert !IsClose(lines[i]);
      assert NoCloserIn(lines, j + 1, i);
      assert FlagAt(lines, i);
    }
    if IsOpen(lines[i]) {
      assert NoCloserIn(lines, i + 1, i + 1);
      assert FlagAt(lines, i + 1);
    }
    if !IsClose(lines[i]) && FlagAt(lines, i) {
      var j :| 0 <= j < i && IsOpen(lines[j]) && NoCloserIn(lines, j + 1, i);
      assert NoCloserIn(lines, j + 1, i + 1);
      assert FlagAt(lines, i + 1);
    }
  }

  /** One line of the loop in terms of the line-indexed description. */
  lemma ScanStepAt(parser: JavaParser, lines: seq<string>, i: nat)
    requires i < |lines|
    ensures Scan(parser, FlagAt(lines, i), lines[i..]) == KeptAt(parser, lines, i) + Scan(parser, FlagAt(lines, i + 1), lines[i + 1..])
  {
    var flag, next := FlagAt(lines, i), FlagAt(lines, i + 1);
    var line, rest := lines[i], lines[i..];
    assert rest[0] == line && rest[1..] == lines[i + 1..];
    FlagStep(lines, i);
    if IsOpen(line) {
      assert next;
    } else if IsClose(line) {
      assert !next;
    } else {
      assert next == flag;
    }
  }

  lemma CollectedStep(parser: JavaParser, lines: seq<string>, i: nat, total: seq<Node>, after: seq<Node>, scan: seq<Node>)
    requires i < |lines|
    requires total == Collected(parser, lines, i + 1) + after
    requires scan == KeptAt(parser, lines, i) + after
    ensures total == Collected(parser, lines, i) + scan
  {
    var before, step := Collected(parser, lines, i), KeptAt(parser, lines, i);
    assert Collected(parser, lines, i + 1) == before + step;
    assert (before + step) + after == before + (step + after);
  }

  lemma {:induction false} ScanFrom(parser: JavaParser, lines: seq<string>, i: nat)
    requires i <= |lines|
    ensures Collected(parser, lines, |lines|) == Collected(parser, lines, i) + Scan(parser, FlagAt(lines, i), lines[i..])
    decreases |lines| - i
  {
    if i == |lines| {
      assert lines[i..] == [];
    } else {
      ScanFrom(parser, lines, i + 1);
      ScanStepAt(parser, lines, i);
      CollectedStep(parser, lines, i, Collected(parser, lines, |lines|),
        Scan(parser, FlagAt(lines, i + 1), lines[i + 1..]), Scan(parser, FlagAt(lines, i), lines[i..]));
    }
  }

  /** The nodes `load` collects are exactly, in line order, those of the lines
      read inside a block that parse to a node; delimiter lines, lines outside
      every block and lines that fail to parse contribute nothing. */
  lemma HeaderNodesByLine(parser: JavaParser, lines: seq<string>)
    ensures Scan(parser, false, lines) == Collected(parser, lines, |lines|)
  {
    assert !FlagAt(lines, 0) && lines[0..] == lines && Collected(parser, lines, 0) == [] by {
      assert lines[0..] == lines;
    }
    ScanFrom(parser, lines, 0);
  }

  /** Line i is handed to parseHeader and fails in the token manager. */
  ghost predicate LexErrorAt(parser: JavaParser, lines: seq<string>, i: int)
    requires 0 <= i < |lines|
  {
    HeaderLineAt(lines, i) && ParseHeader(parser, lines[i]).LexError?
  }

  lemma {:induction false} LexFailsFrom(parser: JavaParser, lines: seq<string>, i: nat)
    requires i <= |lines|
    ensures LexFails(parser, FlagAt(lines, i), lines[i..]) <==> exists j :: i <= j < |lines| && LexErrorAt(parser, lines, j)
    decreases |lines| - i
  {
    if i == |lines| {
      assert lines[i..] == [];
    } else {
      var rest := lines[i..];
      assert rest[0] == lines[i] && rest[1..] == lines[i + 1..];
      FlagStep(lines, i);
      assert NextFlag(FlagAt(lines, i), lines[i]) == FlagAt(lines, i + 1);
      assert StepFails(parser, FlagAt(lines, i), lines[i]) == LexErrorAt(parser, lines, i);
      LexFailsFrom(parser, lines, i + 1);
      if exists j :: i <= j < |lines| && LexErrorAt(parser, lines, j) {
        var j :| i <= j < |lines| && LexErrorAt(parser, lines, j);
        if j > i {
          assert exists k :: i + 1 <= k < |lines| && LexErrorAt(parser, lines, k);
        }
      }
    }
  }

  /** `load` ends with TokenMgrError exactly when some line read inside a block
      (no delimiter) meets a lexical error in the parser it is handed to. */
  lemma LexFailsByLine(parser: JavaParser, lines: seq<string>)
    ensures LexFails(parser, false, lines) <==> exists i :: 0 <= i < |lines| && LexErrorAt(parser, lines, i)
  {
    assert !FlagAt(lines, 0) && lines[0..] == lines;
    LexFailsFrom(parser, lines, 0);
  }

  // Without an opener line no header line is ever parsed.
  lemma {:induction false} NoOpenerNoNodes(parser: JavaParser, lines: seq<string>)
    requires forall i :: 0 <= i < |lines| ==> !IsOpen(lines[i])
    ensures Scan(parser, false, lines) == []
  {
    if lines != [] {
      assert forall i :: 0 <= i < |lines[1..]| ==> !IsOpen(lines[1..][i]) by {
        forall i | 0 <= i < |lines[1..]| ensures !IsOpen(lines[1..][i]) {
          assert lines[1..][i] == lines[i + 1];
        }
      }
      NoOpenerNoNodes(parser, lines[1..]);
    }
  }

  // ---------------------------------------------------------------------------
  // Properties of the classification.

  lemma {:induction false} StripStartSkipsPrefix(prefix: string, line: string)
    requires forall i :: 0 <= i < |prefix| ==> prefix[i] in HeaderStripChars
    ensures StripStart(prefix + line, HeaderStripChars) == StripStart(line, HeaderStripChars)
  {
    if prefix != [] {
      assert (prefix + line)[1..] == prefix[1..] + line;
      StripStartSkipsPrefix(prefix[1..], line);
    } else {
      assert prefix + line == line;
    }
  }

  /** Leading spaces and stars (the JSDoc margin) never change how a line is classified. */
  lemma MarginIrrelevant(margin: string, line: string)
    requires forall i :: 0 <= i < |margin| ==> margin[i] == ' ' || margin[i] == '*'
    ensures Classify(margin + line) == Classify(line)
  {
    forall i | 0 <= i < |margin|
      ensures margin[i] in HeaderStripChars
    {
    }
    StripStartSkipsPrefix(margin, line);
  }

  /** Only spaces and stars are stripped: a tab-indented line yields no node. */
  lemma TabIndentedIgnored(line: string)
    ensures Classify("\t" + line) == Ignored
  {
    var l := "\t" + line;
    assert StripStart(l, HeaderStripChars) == l;
    assert l[0] == '\t';
  }

  lemma StartsWithHead(s: string, prefix: string)
    requires StartsWith(s, prefix) && prefix != []
    ensures s[0] == prefix[0]
  {
    assert s[..|prefix|][0] == s[0];
  }

  /** The four-way partition: a stripped line starting with "import" is an
      import, any other starting with '@' is an annotation or a declaration
      (the text given to the parser being the stripped line, with ';' added
      for imports and declarations), and every other line is ignored. */
  lemma ClassificationPartition(line: string)
    ensures var l := StripStart(line, HeaderStripChars);
      && (Classify(line).ImportLine? <==> StartsWith(l, "import"))
      && (Classify(line).ImportLine? ==> Classify(line).source == l + ";")
      && (Classify(line).TopLevelAnnotationLine? <==> !StartsWith(l, "import") && StartsWithTopLevelAnnotation(l))
      && (Classify(line).TopLevelAnnotationLine? ==> Classify(line).source == l)
      && (Classify(line).DeclarationLine? <==>
            !StartsWith(l, "import") && !StartsWithTopLevelAnnotation(l) && StartsWith(l, "@"))
      && (Classify(line).DeclarationLine? ==> Classify(line).source == l + ";")
      && (Classify(line) == Ignored <==> !StartsWith(l, "import") && !StartsWith(l, "@"))
  {
    var l := StripStart(line, HeaderStripChars);
    if StartsWithTopLevelAnnotation(l) {
      if StartsWith(l, "@Name") {
        StartsWithHead(l, "@Name");
      } else if StartsWith(l, "@Description") {
        StartsWithHead(l, "@Description");
      } else if StartsWith(l, "@Startup") {
        StartsWithHead(l, "@Startup");
      } else {
        StartsWithHead(l, "@Schedule");
      }
      assert StartsWith(l, "@");
    }
  }

  /** `@Named` (the CDI qualifier) starts with "@Name", so a header line that
      begins with `@Named(...)` goes to the annotation parser, not the
      declaration parser. */
  lemma NamedGoesToAnnotationParser(line: string)
    requires StartsWith(StripStart(line, HeaderStripChars), "@Named")
    ensures Classify(line).TopLevelAnnotationLine?
  {
    var l := StripStart(line, HeaderStripChars);
    assert l[..5] == "@Name";
  }

  /** A top-level annotation behind a margin of spaces and stars goes to the
      annotation parser as it stands. */
  lemma AnnotationBehindMargin(margin: string, l: string)
    requires forall i :: 0 <= i < |margin| ==> margin[i] == ' ' || margin[i] == '*'
    requires l != [] && l[0] == '@' && StartsWithTopLevelAnnotation(l)
    ensures Classify(margin + l) == TopLevelAnnotationLine(l)
  {
    MarginIrrelevant(margin, l);
    assert l[0] !in HeaderStripChars;
    assert StripStart(l, HeaderStripChars) == l;
    assert !StartsWith(l, "import") by {
      if StartsWith(l, "import") {
        StartsWithHead(l, "import");
      }
    }
  }

  // ---------------------------------------------------------------------------
  // The body is the script text itself.

  /** Splitting a text at each separator: the inverse of Printed. */
  function IndexOfNewline(s: string): (i: nat)
    ensures i <= |s|
    ensures forall k :: 0 <= k < i ==> s[k] != '\n'
    ensures i < |s| ==> s[i] == '\n'
  {
    if s == [] || s[0] == '\n' then 0 else 1 + IndexOfNewline(s[1..])
  }

  function SplitLines(text: string): seq<string>
    decreases |text|
  {
    if text == [] then []
    else
      var i := IndexOfNewline(text);
      if i == |text| then [text] else [text[..i]] + SplitLines(text[i + 1..])
  }

  /** The body records every line, in order: splitting it at the separators
      gives the lines back. */
  lemma {:induction false} BodyRoundTrip(lines: seq<string>)
    requires forall i :: 0 <= i < |lines| ==> '\n' !in lines[i]
    ensures SplitLines(Printed(lines)) == lines
  {
    if lines != [] {
      var text := Printed(lines);
      var line := lines[0];
      assert text == line + "\n" + Printed(lines[1..]);
      assert text[|line|] == '\n';
      assert forall k :: 0 <= k < |line| ==> text[k] == line[k];
      assert IndexOfNewline(text) == |line|;
      assert text[..|line|] == line;
      assert text[|line| + 1..] == Printed(lines[1..]);
      BodyRoundTrip(lines[1..]);
    }
  }

  // ---------------------------------------------------------------------------
  // The loader object.

  /** The header flag after one line. */
  function NextFlag(flag: bool, line: string): bool {
    if IsOpen(line) then true else if IsClose(line) then false else flag
  }

  /** The nodes one line adds when read with the given flag. */
  function StepNodes(parser: JavaParser, flag: bool, line: string): seq<Node> {
    if !IsOpen(line) && !IsClose(line) && flag then Kept(parser, line) else []
  }

  /** Scan of a non-empty list: the first line's nodes, then the rest from
      the flag that line leaves. */
  lemma ScanHead(parser: JavaParser, flag: bool, lines: seq<string>)
    requires lines != []
    ensures Scan(parser, flag, lines) == StepNodes(parser, flag, lines[0]) + Scan(parser, NextFlag(flag, lines[0]), lines[1..])
  {
    var rest := Scan(parser, NextFlag(flag, lines[0]), lines[1..]);
    if IsOpen(lines[0]) || IsClose(lines[0]) || !flag {
      assert [] + rest == rest;
    }
  }

  /** One turn of the loop of `load`, on the specification side. */
  lemma LoadStep(parser: JavaParser, flag: bool, lines: seq<string>, i: nat, found: seq<Node>, body: string)
    requires i < |lines|
    requires Scan(parser, false, lines) == found + Scan(parser, flag, lines[i..])
    requires Printed(lines) == body + Printed(lines[i..])
    ensures Scan(parser, false, lines) ==
      (found + StepNodes(parser, flag, lines[i])) + Scan(parser, NextFlag(flag, lines[i]), lines[i + 1..])
    ensures Printed(lines) == (body + (lines[i] + LineSeparator)) + Printed(lines[i + 1..])
    ensures LexFails(parser, flag, lines[i..]) ==
      (StepFails(parser, flag, lines[i]) || LexFails(parser, NextFlag(flag, lines[i]), lines[i + 1..]))
  {
    var rest := lines[i..];
    assert rest[0] == lines[i] && rest[1..] == lines[i + 1..];
    ScanHead(parser, flag, rest);
    SeqAssociative(found, StepNodes(parser, flag, lines[i]), Scan(parser, NextFlag(flag, lines[i]), lines[i + 1..]));
    assert Printed(rest) == lines[i] + LineSeparator + Printed(lines[i + 1..]);
    SeqAssociative(body, lines[i] + LineSeparator, Printed(lines[i + 1..]));
  }

  class ScriptLoader {
    const parser: JavaParser
    /** The class loader's view of the world: classpath, javassist pool and
        container. */
    const host: Host

    constructor(parser: JavaParser, host: Host)
      ensures this.parser == parser && this.host == host
    {
      this.parser := parser;
      this.host := host;
    }

    /** The loop of load: the header nodes and the body text, or the
        TokenMgrError of the first header line that fails to lex. */
    method ReadLines(lines: seq<string>) returns (r: Result<seq<Node>, LoadFailure>, body: string)
      ensures r.Failure? <==> LexFails(parser, false, lines)
      ensures r.Failure? ==> r.error == RuntimeFailure(TokenManager(LexErrorSite))
      ensures r.Success? ==> r.value == Scan(parser, false, lines) && body == Printed(lines)
    {
      body := "";
      var flag := false;
      var found := [];
      var i := 0;
      assert lines[0..] == lines;
      while i < |lines|
        invariant 0 <= i <= |lines|
        invariant Scan(parser, false, lines) == found + Scan(parser, flag, lines[i..])
        invariant Printed(lines) == body + Printed(lines[i..])
        invariant LexFails(parser, false, lines) == LexFails(parser, flag, lines[i..])
      {
        var line := lines[i];
        LoadStep(parser, flag, lines, i, found, body);
        ghost var step := StepNodes(parser, flag, line);
        ghost var next := NextFlag(flag, line);
        body := body + (line + LineSeparator);
        if Strip(line) == "/**" {
          flag := true;
        } else if Strip(line) == "*/" {
          flag := false;
        } else if flag {
          var header := ParseHeader(parser, line);
          if header.LexError? {
            assert StepFails(parser, flag, line);
            return Failure(RuntimeFailure(TokenManager(LexErrorSite))), body;
          }
          if header.Parsed? {
            assert step == [header.node];
            found := found + [header.node];
          } else {
            assert step == [];
            assert found + step == found;
          }
        } else {
          assert found + step == found;
        }
        assert flag == next;
        i := i + 1;
      }
      assert lines[i..] == [];
      assert body + "" == body && found + [] == found;
      r := Success(found);
    }

    /** ScriptLoader.load on the lines the reader returns. */
    method Load(lines: seq<string>, sequence: Stubs.Sequence) returns (r: Result<Script, LoadFailure>, ghost nodes: seq<Node>, ghost orders: seq<seq<string>>)
      requires sequence.Valid()
      modifies sequence
      ensures sequence.Valid()
      ensures nodes == Scan(parser, false, lines)
      ensures LexFails(parser, false, lines) ==>
        r == Failure(RuntimeFailure(TokenManager(LexErrorSite))) && unchanged(sequence)
      ensures !LexFails(parser, false, lines) ==> var d := V.AcceptAll(V.Empty, nodes);
        && |orders| == |d.importNodes| && ValidOrders(host.classpath, d.importNodes, orders)
        && var run := BuildSpec(host, d, orders, Stubs.Successor(old(sequence.value)));
        && (r.Success? <==> run.failure.None?)
        && (r.Failure? ==> r.error == run.failure.value)
        && (r.Success? ==>
              (fresh(r.value) && r.value.body == Printed(lines) && r.value.State() == d
               && r.value.prelude == run.prelude && r.value.bindings == run.bindings))
        && (if run.counterMoved then sequence.issued == old(sequence.issued) + 1 else sequence.issued == old(sequence.issued))
    {
      nodes := Scan(parser, false, lines);
      var read, body := ReadLines(lines);
      if read.Failure? {
        return Failure(read.error), nodes, [];
      }
      var builder := new Builder(read.value, body, host);
      r, orders := builder.Build(sequence);
    }
  }
}
