/**
 * XMLFormatter: re-indents XML by parsing it into a DOM tree, pruning the
 * whitespace-only text nodes, serialising it again and post-processing the
 * text (namespace declarations on their own lines, CRLF to LF).
 */
module XMLFormatter {
  import opened Text
  import opened Data

  /** A DOM node: the document, an element, a text node, or any other kind (comment, CDATA, ...). */
  datatype Node =
    | Document(children: seq<Node>)
    | Element(name: string, children: seq<Node>)
    | Text(content: string)
    | Other(kind: string, content: string)

  /** A text node whose `getTextContent().trim()` is empty. */
  predicate BlankText(n: Node) {
    n.Text? && Trim(n.content) == []
  }

  /** A node has children only when it is a document or an element. */
  function Children(n: Node): seq<Node> {
    if n.Document? || n.Element? then n.children else []
  }

  /**
   * What `removeEmptyTextNodes` leaves of a node: its blank text children
   * are gone and each element child is pruned in turn.
   */
  function Prune(n: Node): Node
    decreases n, 0
  {
    match n
    case Document(cs) => Document(PruneList(cs))
    case Element(name, cs) => Element(name, PruneList(cs))
    case _ => n
  }

  function PruneList(cs: seq<Node>): seq<Node>
    decreases cs, 2
  {
    if cs == [] then [] else Keep(cs[0]) + PruneList(cs[1..])
  }

  /** What remains of one child: nothing if it is blank text, the pruned element, or the child itself. */
  function Keep(c: Node): seq<Node>
    decreases c, 1
  {
    if BlankText(c) then [] else if c.Element? then [Prune(c)] else [c]
  }

  /** No blank text child below `n`, looking through every element. */
  predicate Clean(n: Node)
    decreases n
  {
    (n.Document? || n.Element?) ==>
      forall k :: 0 <= k < |n.children| ==> !BlankText(n.children[k]) && (n.children[k].Element? ==> Clean(n.children[k]))
  }

  /**
   * `removeEmptyTextNodes(node)`: walks the children from the last to the
   * first (`j` children are still to visit, the current one is `j - 1`),
   * removing blank text nodes and recursing into elements; going backwards,
   * a removal never shifts a child still to be visited.
   */
  method RemoveEmptyTextNodes(node: Node) returns (r: Node)
    ensures r == Prune(node)
    decreases node
  {
    if !(node.Document? || node.Element?) {
      return node;
    }
    var cs := node.children;
    var children := cs;
    var j := |children|;
    while j > 0
      invariant 0 <= j <= |cs|
      invariant children == cs[..j] + PruneList(cs[j..])
    {
      var i := j - 1;
      var child := children[i];
      SpliceStep(cs, i, children, Keep(cs[i]));
      if BlankText(child) {
        children := children[..i] + children[i + 1..];
      } else if child.Element? {
        assert child == cs[i] && cs[i] in node.children;
        var pruned := RemoveEmptyTextNodes(child);
        children := children[..i] + [pruned] + children[i + 1..];
      }
      j := i;
    }
    r := if node.Document? then Document(children) else Element(node.name, children);
  }

  /** Replacing the child at `i` by what remains of it extends the pruned suffix by one child. */
  lemma SpliceStep(cs: seq<Node>, i: nat, children: seq<Node>, kept: seq<Node>)
    requires i < |cs| && children == cs[..i + 1] + PruneList(cs[i + 1..])
    requires kept == Keep(cs[i])
    ensures children[i] == cs[i]
    ensures children[..i] + kept + children[i + 1..] == cs[..i] + PruneList(cs[i..])
    ensures children[..i] + children[i + 1..] == children[..i] + [] + children[i + 1..]
  {
    ConcatAt(cs[..i + 1], PruneList(cs[i + 1..]), i);
    assert cs[..i + 1][..i] == cs[..i];
    PruneListAt(cs, i);
  }

  /** The pruned suffix from `i` is what remains of child `i` followed by the pruned suffix after it. */
  lemma PruneListAt(cs: seq<Node>, i: nat)
    requires i < |cs|
    ensures PruneList(cs[i..]) == Keep(cs[i]) + PruneList(cs[i + 1..])
  {
    assert cs[i..][1..] == cs[i + 1..];
  }

  /** Indexing into `a + b` where `a` ends at `i`. */
  lemma ConcatAt<T>(a: seq<T>, b: seq<T>, i: nat)
    requires i + 1 == |a|
    ensures (a + b)[..i] == a[..i] && (a + b)[i] == a[i] && (a + b)[i + 1..] == b
  {
  }

  /** After pruning no blank text node remains anywhere in the tree. */
  lemma {:induction false} PruneCleans(n: Node)
    ensures Clean(Prune(n))
    decreases n
  {
    match n
    case Document(cs) => PruneListCleans(cs);
    case Element(name, cs) => PruneListCleans(cs);
    case _ =>
  }

  lemma {:induction false} PruneListCleans(cs: seq<Node>)
    ensures forall k :: 0 <= k < |PruneList(cs)| ==>
      !BlankText(PruneList(cs)[k]) && (PruneList(cs)[k].Element? ==> Clean(PruneList(cs)[k]))
    decreases cs
  {
    if cs != [] {
      PruneListCleans(cs[1..]);
      if cs[0].Element? {
        PruneCleans(cs[0]);
      }
    }
  }

  /** A tree without blank text nodes is left exactly as it was. */
  lemma {:induction false} CleanIsUntouched(n: Node)
    requires Clean(n)
    ensures Prune(n) == n
    decreases n
  {
    match n
    case Document(cs) => CleanListIsUntouched(cs);
    case Element(name, cs) => CleanListIsUntouched(cs);
    case _ =>
  }

  lemma {:induction false} CleanListIsUntouched(cs: seq<Node>)
    requires forall k :: 0 <= k < |cs| ==> !BlankText(cs[k]) && (cs[k].Element? ==> Clean(cs[k]))
    ensures PruneList(cs) == cs
    decreases cs
  {
    if cs != [] {
      CleanListIsUntouched(cs[1..]);
      if cs[0].Element? {
        CleanIsUntouched(cs[0]);
      }
      assert [cs[0]] + cs[1..] == cs;
    }
  }

  /** Pruning changes a tree exactly when it holds a blank text node, and pruning twice is pruning once. */
  lemma PruneFixpoints(n: Node)
    ensures Prune(n) == n <==> Clean(n)
    ensures Prune(Prune(n)) == Prune(n)
  {
    PruneCleans(n);
    if Clean(n) {
      CleanIsUntouched(n);
    }
    CleanIsUntouched(Prune(n));
  }

  /** The number of children that survive pruning. */
  function Kept(cs: seq<Node>): nat
    decreases |cs|
  {
    if cs == [] then 0 else (if BlankText(cs[0]) then 0 else 1) + Kept(cs[1..])
  }

  /**
   * No child other than a blank text node is lost or reordered: the child at
   * `i` reappears, pruned if it is an element, right after the survivors
   * before it; so survivors keep their relative order.
   */
  lemma {:induction false} KeptInOrder(cs: seq<Node>, i: nat)
    requires i < |cs| && !BlankText(cs[i])
    ensures |PruneList(cs)| == Kept(cs)
    ensures Kept(cs[..i]) < Kept(cs)
    ensures PruneList(cs)[Kept(cs[..i])] == (if cs[i].Element? then Prune(cs[i]) else cs[i])
    decreases i
  {
    KeptLength(cs);
    if i == 0 {
      KeptLength(cs[1..]);
    } else {
      assert cs[..i][1..] == cs[1..][..i - 1];
      KeptInOrder(cs[1..], i - 1);
    }
  }

  lemma {:induction false} KeptLength(cs: seq<Node>)
    ensures |PruneList(cs)| == Kept(cs)
    decreases |cs|
  {
    if cs != [] {
      KeptLength(cs[1..]);
    }
  }

  /** The outcome of the DOM parser on a string, standing in for `DocumentBuilder.parse`. */
  datatype ParseOutcome =
    | Parsed(document: Node)
    | SyntaxError(message: string, line: int, column: int)   // a SAXParseException
    | ParseFailure(message: string)                          // any other exception

  /** The outcome of the `Transformer` that serialises a document with indentation. */
  datatype SerializeOutcome = Serialized(text: string) | TransformFailure(message: string)

  /** The DOM parser and serialiser, which the formatter only calls. */
  datatype Dom = Dom(parse: string -> ParseOutcome, serialize: Node -> SerializeOutcome)

  /** A name char of the namespace regex: `[a-zA-Z0-9\-]`. */
  predicate NameChar(c: char) {
    'a' <= c <= 'z' || 'A' <= c <= 'Z' || '0' <= c <= '9' || c == '-'
  }

  /** The length of the longest prefix of name chars. */
  function NameRun(s: string): (n: nat)
    ensures n <= |s| && forall i :: 0 <= i < n ==> NameChar(s[i])
    ensures n < |s| ==> !NameChar(s[n])
    decreases |s|
  {
    if s != [] && NameChar(s[0]) then 1 + NameRun(s[1..]) else 0
  }

  /** The length of the longest prefix without a double quote: `[^"]*`. */
  function ValueRun(s: string): (n: nat)
    ensures n <= |s| && forall i :: 0 <= i < n ==> s[i] != '"'
    ensures n < |s| ==> s[n] == '"'
    decreases |s|
  {
    if s != [] && s[0] != '"' then 1 + ValueRun(s[1..]) else 0
  }

  /**
   * The length of the match of `xmlns:[a-zA-Z0-9\-]+="[^"]*"` at the start of
   * `s`, if there is one. Neither `=` nor `"` can extend the runs before them,
   * so the regex has at most one match at a position and this is it.
   */
  function DeclarationAt(s: string): (r: Option<nat>)
    ensures r.Some? ==> 10 <= r.value <= |s| && StartsWith(s, "xmlns:") && s[r.value - 1] == '"'
    ensures !StartsWith(s, "xmlns:") ==> r.None?
  {
    if !StartsWith(s, "xmlns:") then None
    else
      var k := 6 + NameRun(s[6..]);
      if k > 6 && k + 1 < |s| && s[k] == '=' && s[k + 1] == '"' then
        var q := ValueRun(s[k + 2..]);
        if k + 2 + q < |s| then Some(k + 3 + q) else None
      else None
  }

  /** `xml.replaceAll(regex, "$0\n")`: a newline after each namespace declaration, scanning left to right. */
  function BreakNamespaces(s: string): string
    decreases |s|
  {
    if s == [] then []
    else
      match DeclarationAt(s)
      case Some(n) => s[..n] + "\n" + BreakNamespaces(s[n..])
      case None => [s[0]] + BreakNamespaces(s[1..])
  }

  /** `finalFormatting`: the namespace line breaks when the flag is on, then CRLF to LF. */
  function FinalFormatting(xml: string, formatNamespacesOnNewLine: bool): string {
    var broken := if formatNamespacesOnNewLine then BreakNamespaces(xml) else xml;
    ReplaceAll(broken, "\r\n", "\n")
  }

  /** Breaking namespace lines only inserts newlines. */
  lemma {:induction false} BreakOnlyAddsNewlines(s: string)
    ensures RemoveChar(BreakNamespaces(s), '\n') == RemoveChar(s, '\n')
    decreases |s|
  {
    if s != [] {
      match DeclarationAt(s)
      case Some(n) =>
        BreakOnlyAddsNewlines(s[n..]);
        BreakAfterDeclaration(s, n);
      case None =>
        BreakOnlyAddsNewlines(s[1..]);
        BreakElsewhere(s);
    }
  }

  /** Past a declaration, the namespace pass emits the declaration and a newline. */
  lemma BreakNamespacesAt(s: string, n: nat)
    requires s != [] && DeclarationAt(s) == Some(n)
    ensures BreakNamespaces(s) == s[..n] + "\n" + BreakNamespaces(s[n..])
  {
  }

  /** The step of `BreakOnlyAddsNewlines` past a declaration, which is followed by a newline. */
  lemma BreakAfterDeclaration(s: string, n: nat)
    requires s != [] && DeclarationAt(s) == Some(n)
    requires RemoveChar(BreakNamespaces(s[n..]), '\n') == RemoveChar(s[n..], '\n')
    ensures RemoveChar(BreakNamespaces(s), '\n') == RemoveChar(s, '\n')
  {
    SplitAt(s, n);
    BreakNamespacesAt(s, n);
    NewlineInserted(s[..n], s[n..], BreakNamespaces(s[n..]));
  }

  /** The step of `BreakOnlyAddsNewlines` past one char that starts no declaration. */
  lemma BreakElsewhere(s: string)
    requires s != [] && DeclarationAt(s).None?
    requires RemoveChar(BreakNamespaces(s[1..]), '\n') == RemoveChar(s[1..], '\n')
    ensures RemoveChar(BreakNamespaces(s), '\n') == RemoveChar(s, '\n')
  {
    assert BreakNamespaces(s) == [s[0]] + BreakNamespaces(s[1..]);
    RemoveCharAppend([s[0]], BreakNamespaces(s[1..]), '\n');
    RemoveCharAppend([s[0]], s[1..], '\n');
    assert [s[0]] + s[1..] == s;
  }

  /** A text without `xmlns:` is not changed by the namespace pass. */
  lemma {:induction false} BreakWithoutNamespaces(s: string)
    requires !Contains(s, "xmlns:")
    ensures BreakNamespaces(s) == s
    decreases |s|
  {
    if s != [] {
      BreakWithoutNamespaces(s[1..]);
      assert [s[0]] + s[1..] == s;
    }
  }

  /** Turning CRLF into LF only deletes carriage returns. */
  lemma {:induction false} NormaliseOnlyDropsReturns(s: string)
    ensures RemoveChar(ReplaceAll(s, "\r\n", "\n"), '\r') == RemoveChar(s, '\r')
    decreases |s|
  {
    if s != [] {
      if StartsWith(s, "\r\n") {
        NormaliseOnlyDropsReturns(s[2..]);
        NormaliseAtCrlf(s);
      } else {
        NormaliseOnlyDropsReturns(s[1..]);
        NormaliseElsewhere(s);
      }
    }
  }

  /** The step of `NormaliseOnlyDropsReturns` at a CRLF, which becomes LF. */
  lemma NormaliseAtCrlf(s: string)
    requires StartsWith(s, "\r\n")
    requires RemoveChar(ReplaceAll(s[2..], "\r\n", "\n"), '\r') == RemoveChar(s[2..], '\r')
    ensures RemoveChar(ReplaceAll(s, "\r\n", "\n"), '\r') == RemoveChar(s, '\r')
  {
    var rest := s[2..];
    assert RemoveChar(s, '\r') == "\n" + RemoveChar(rest, '\r') by {
      assert s == "\r\n" + rest;
      RemoveCharAppend("\r\n", rest, '\r');
    }
    assert ReplaceAll(s, "\r\n", "\n") == "\n" + ReplaceAll(rest, "\r\n", "\n");
    RemoveCharAppend("\n", ReplaceAll(rest, "\r\n", "\n"), '\r');
  }

  /** The step of `NormaliseOnlyDropsReturns` past one char that starts no CRLF. */
  lemma NormaliseElsewhere(s: string)
    requires s != [] && !StartsWith(s, "\r\n")
    requires RemoveChar(ReplaceAll(s[1..], "\r\n", "\n"), '\r') == RemoveChar(s[1..], '\r')
    ensures RemoveChar(ReplaceAll(s, "\r\n", "\n"), '\r') == RemoveChar(s, '\r')
  {
    assert ReplaceAll(s, "\r\n", "\n") == [s[0]] + ReplaceAll(s[1..], "\r\n", "\n");
    RemoveCharAppend([s[0]], ReplaceAll(s[1..], "\r\n", "\n"), '\r');
    RemoveCharAppend([s[0]], s[1..], '\r');
    assert [s[0]] + s[1..] == s;
  }

  /**
   * The post-pass touches line terminators only: with either flag, deleting
   * every CR and LF from its output gives the input with every CR and LF
   * deleted.
   */
  lemma FinalFormattingKeepsText(xml: string, formatNamespacesOnNewLine: bool)
    ensures RemoveChar(RemoveChar(FinalFormatting(xml, formatNamespacesOnNewLine), '\r'), '\n')
         == RemoveChar(RemoveChar(xml, '\r'), '\n')
  {
    var broken := if formatNamespacesOnNewLine then BreakNamespaces(xml) else xml;
    NormaliseOnlyDropsReturns(broken);
    RemoveCharCommutes(broken, '\r', '\n');
    RemoveCharCommutes(xml, '\r', '\n');
    BreakOnlyAddsNewlines(xml);
  }

  /** With the flag off, or without namespace declarations, only CRLF pairs change. */
  lemma FlagOffOnlyNormalises(xml: string, formatNamespacesOnNewLine: bool)
    requires !formatNamespacesOnNewLine || !Contains(xml, "xmlns:")
    ensures FinalFormatting(xml, formatNamespacesOnNewLine) == ReplaceAll(xml, "\r\n", "\n")
  {
    if formatNamespacesOnNewLine {
      BreakWithoutNamespaces(xml);
    }
  }

  /** A text already free of CRLF pairs and namespace declarations comes out unchanged. */
  lemma FinalFormattingIdentity(xml: string, formatNamespacesOnNewLine: bool)
    requires !Contains(xml, "\r\n") && !Contains(xml, "xmlns:")
    ensures FinalFormatting(xml, formatNamespacesOnNewLine) == xml
  {
    FlagOffOnlyNormalises(xml, formatNamespacesOnNewLine);
    ReplaceAbsent(xml, "\r\n", "\n");
  }

  /**
   * `formatXMLFromString(xmlData)`, given the formatter's current flag:
   * null or empty input is rejected before parsing; a syntax error and any
   * other failure become exceptions with the messages the source builds;
   * input that parses and serialises comes back formatted.
   */
  function FormatXmlFromString(xmlData: Option<string>, formatNamespacesOnNewLine: bool, dom: Dom): (r: Result<string>)
    ensures (xmlData.None? || xmlData.value == []) <==> r == Fail(Error(IllegalArgument, "XML data is null or empty."))
    ensures r.Ok? <==>
      xmlData.Some? && xmlData.value != [] && dom.parse(xmlData.value).Parsed?
      && dom.serialize(Prune(dom.parse(xmlData.value).document)).Serialized?
    ensures r.Ok? ==>
      r.value == FinalFormatting(dom.serialize(Prune(dom.parse(xmlData.value).document)).text, formatNamespacesOnNewLine)
    ensures r.Fail? && r.error.kind != IllegalArgument ==>
      r.error.kind == Checked
      && (StartsWith(r.error.message, "XML syntax error: ") <==> xmlData.Some? && dom.parse(xmlData.value).SyntaxError?)
  {
    if xmlData.None? || xmlData.value == [] then Fail(Error(IllegalArgument, "XML data is null or empty."))
    else
      match dom.parse(xmlData.value)
      case SyntaxError(m, line, column) =>
        Fail(Error(Checked, "XML syntax error: " + m + " at line " + IntToString(line) + ", column " + IntToString(column)))
      case ParseFailure(m) =>
        FirstCharDiffers("An error occurred while formatting XML: ", m, "XML syntax error: ");
        Fail(Error(Checked, "An error occurred while formatting XML: " + m))
      case Parsed(document) =>
        match dom.serialize(Prune(document))
        case TransformFailure(m) =>
          FirstCharDiffers("An error occurred while formatting XML: ", "Error transforming XML to string: " + m, "XML syntax error: ");
          Fail(Error(Checked, "An error occurred while formatting XML: " + ("Error transforming XML to string: " + m)))
        case Serialized(text) => Ok(FinalFormatting(text, formatNamespacesOnNewLine))
  }

  /** The formatter's static state: the namespace flag, false until an overload sets it. */
  class Formatter {
    var formatNamespacesOnNewLine: bool

    constructor ()
      ensures !formatNamespacesOnNewLine
    {
      formatNamespacesOnNewLine := false;
    }

    /**
     * `formatOntologyInner`: a null ontology or null/empty XML is rejected;
     * otherwise a new ontology with the input's name and extension holds the
     * formatted XML, and the input is not changed.
     */
    method FormatOntologyInner(ontology: Ontology?, dom: Dom) returns (r: Result<Ontology>)
      ensures ontology == null || ontology.xmlData.None? || ontology.xmlData.value == [] ==>
        r == Fail(Error(IllegalArgument, "Ontology is either null or empty."))
      ensures ontology != null && ontology.xmlData.Some? && ontology.xmlData.value != [] ==>
        match FormatXmlFromString(ontology.xmlData, formatNamespacesOnNewLine, dom)
        case Fail(e) => r == Fail(e)
        case Ok(formatted) =>
          r.Ok? && fresh(r.value) && r.value.xmlData == Some(formatted)
          && r.value.ontologyName == ontology.ontologyName && r.value.ontologyExtension == ontology.ontologyExtension
    {
      if ontology == null || ontology.xmlData.None? || ontology.xmlData.value == [] {
        return Fail(Error(IllegalArgument, "Ontology is either null or empty."));
      }
      var formattedXml := FormatXmlFromString(ontology.xmlData, formatNamespacesOnNewLine, dom);
      if formattedXml.Fail? {
        return Fail(formattedXml.error);
      }
      var formattedOntology := new Ontology(ontology.ontologyName, ontology.ontologyExtension);
      formattedOntology.SetXmlData(Some(formattedXml.value));
      r := Ok(formattedOntology);
    }

    /** `formatOntology(ontology, flag)`: records the flag for later calls, then formats. */
    method FormatOntologyWithFlag(ontology: Ontology?, formatNamespaces: bool, dom: Dom) returns (r: Result<Ontology>)
      modifies this
      ensures formatNamespacesOnNewLine == formatNamespaces
      ensures ontology == null || ontology.xmlData.None? || ontology.xmlData.value == [] ==>
        r == Fail(Error(IllegalArgument, "Ontology is either null or empty."))
      ensures ontology != null && ontology.xmlData.Some? && ontology.xmlData.value != [] ==>
        match FormatXmlFromString(ontology.xmlData, formatNamespaces, dom)
        case Fail(e) => r == Fail(e)
        case Ok(formatted) =>
          r.Ok? && fresh(r.value) && r.value.xmlData == Some(formatted)
          && r.value.ontologyName == ontology.ontologyName && r.value.ontologyExtension == ontology.ontologyExtension
    {
      formatNamespacesOnNewLine := formatNamespaces;
      r := FormatOntologyInner(ontology, dom);
    }

    /** `formatOntology(ontology)`: formats with whatever flag the last two-argument call left. */
    method FormatOntology(ontology: Ontology?, dom: Dom) returns (r: Result<Ontology>)
      ensures ontology == null || ontology.xmlData.None? || ontology.xmlData.value == [] ==>
        r == Fail(Error(IllegalArgument, "Ontology is either null or empty."))
      ensures ontology != null && ontology.xmlData.Some? && ontology.xmlData.value != [] ==>
        match FormatXmlFromString(ontology.xmlData, formatNamespacesOnNewLine, dom)
        case Fail(e) => r == Fail(e)
        case Ok(formatted) =>
          r.Ok? && fresh(r.value) && r.value.xmlData == Some(formatted)
          && r.value.ontologyName == ontology.ontologyName && r.value.ontologyExtension == ontology.ontologyExtension
    {
      r := FormatOntologyInner(ontology, dom);
    }
  }
}
