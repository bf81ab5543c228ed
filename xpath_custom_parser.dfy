/**
 * XPathCustomParser: a SAX handler that gives every element a positional path
 * such as `/RDF[1]/Class[2]` and records the element's start and end lines.
 *
 * The SAX parser and its `Locator` are not modelled: a document is the
 * sequence of start/end events it would deliver, each carrying the line the
 * locator reports, or `Malformed` when the parser would throw.
 */
module XPathCustomParser {
  import opened Text
  import opened Data

  datatype Event = Start(qName: string, line: int) | End(qName: string, line: int)

  datatype SaxInput = Document(events: seq<Event>) | Malformed

  /** `LineData(tagName, beginLineNumber, endLineNumber)` */
  datatype LineData = LineData(tagName: string, beginLineNumber: int, endLineNumber: int)

  /**
   * `stripNamespace`: the part after the first `:` when there is one,
   * otherwise the name itself (`rdf:RDF` becomes `RDF`).
   */
  function StripNamespace(qName: string): (r: string)
    ensures ':' !in qName ==> r == qName
    ensures ':' in qName ==>
      var k := |qName| - |r| - 1;
      0 <= k && qName == qName[..k] + [':'] + r && ':' !in qName[..k]
  {
    if ':' in qName then
      var k := IndexOf(qName, ':');
      assert qName == qName[..k] + [':'] + qName[k + 1..];
      qName[k + 1..]
    else qName
  }

  /** `String.format("%s/%s[%d]", parent, tag, index)` */
  function StepPath(parent: string, tag: string, index: nat): string {
    parent + "/" + tag + "[" + NatToString(index) + "]"
  }

  /** The fields of the handler: `elements`, `pathStack` (top last), `elementCount`, `startLineMap`. */
  datatype HandlerState = HandlerState(
    elements: map<string, LineData>,
    pathStack: seq<string>,
    elementCount: map<string, nat>,
    startLineMap: map<string, int>)

  const Initial := HandlerState(map[], [], map[], map[])

  /** `map.getOrDefault(key, 0)` */
  function Count(m: map<string, nat>, key: string): nat {
    if key in m then m[key] else 0
  }

  /** `pathStack.isEmpty() ? "" : pathStack.peek()` */
  function ParentPath(stack: seq<string>): string {
    if stack == [] then "" else stack[|stack| - 1]
  }

  /** The effect of `startElement`. */
  function StartStep(s: HandlerState, qName: string, line: int): HandlerState {
    var tag := StripNamespace(qName);
    var index := Count(s.elementCount, tag) + 1;
    var path := StepPath(ParentPath(s.pathStack), tag, index);
    s.(pathStack := s.pathStack + [path],
       elementCount := s.elementCount[tag := index],
       startLineMap := s.startLineMap[path := line])
  }

  /** The effect of `endElement`; `None` where `pathStack.pop()` throws on an empty stack. */
  function EndStep(s: HandlerState, qName: string, line: int): Option<HandlerState> {
    if s.pathStack == [] then None
    else
      var path := s.pathStack[|s.pathStack| - 1];
      var startLine := if path in s.startLineMap then s.startLineMap[path] else -1;
      Some(s.(pathStack := s.pathStack[..|s.pathStack| - 1],
              elements := s.elements[path := LineData(StripNamespace(qName), startLine, line)]))
  }

  function Step(s: HandlerState, e: Event): Option<HandlerState> {
    match e
    case Start(q, l) => Some(StartStep(s, q, l))
    case End(q, l) => EndStep(s, q, l)
  }

  /** The handler's state after the events, or `None` once an event has thrown. */
  function Run(events: seq<Event>): Option<HandlerState>
    decreases |events|
  {
    if events == [] then Some(Initial)
    else
      match Run(events[..|events| - 1])
      case None => None
      case Some(s) => Step(s, events[|events| - 1])
  }

  /** `parse`: the handler's `elements`, or the empty map when parsing throws. */
  function ParseSpec(input: SaxInput): map<string, LineData> {
    match input
    case Malformed => map[]
    case Document(events) =>
      match Run(events)
      case None => map[]
      case Some(s) => s.elements
  }

  /** `getInfoFromXPath` over a parsed map: the line pair, or `(-1, -1)` on a miss. */
  function Lookup(lines: map<string, LineData>, xPath: string): (r: Pair<int, int>)
    ensures xPath !in lines ==> r == Pair(-1, -1)
    ensures xPath in lines ==> r == Pair(lines[xPath].beginLineNumber, lines[xPath].endLineNumber)
  {
    if xPath in lines then Pair(lines[xPath].beginLineNumber, lines[xPath].endLineNumber)
    else Pair(-1, -1)
  }

  /** `SAXHandler`: its four collections, updated in place by each event. */
  class SAXHandler {
    var elements: map<string, LineData>
    var pathStack: seq<string>
    var elementCount: map<string, nat>
    var startLineMap: map<string, int>

    function State(): HandlerState
      reads this
    {
      HandlerState(elements, pathStack, elementCount, startLineMap)
    }

    constructor ()
      ensures State() == Initial
    {
      elements := map[];
      pathStack := [];
      elementCount := map[];
      startLineMap := map[];
    }

    /** `startElement`: bump the tag's counter, push the new path, remember its line. */
    method StartElement(qName: string, line: int)
      modifies this
      ensures State() == StartStep(old(State()), qName, line)
    {
      var tagName := StripNamespace(qName);
      elementCount := elementCount[tagName := Count(elementCount, tagName) + 1];
      var index := elementCount[tagName];
      var parentXPath := if pathStack == [] then "" else pathStack[|pathStack| - 1];
      var xPath := StepPath(parentXPath, tagName, index);
      pathStack := pathStack + [xPath];
      startLineMap := startLineMap[xPath := line];
    }

    /** `endElement`: pop the path and record its line range; `ok` is false where the pop throws. */
    method EndElement(qName: string, line: int) returns (ok: bool)
      modifies this
      ensures ok <==> old(pathStack) != []
      ensures ok ==> State() == EndStep(old(State()), qName, line).value
      ensures !ok ==> State() == old(State())
    {
      if pathStack == [] {
        return false;
      }
      var tagName := StripNamespace(qName);
      var xPath := pathStack[|pathStack| - 1];
      pathStack := pathStack[..|pathStack| - 1];
      var startLine := if xPath in startLineMap then startLineMap[xPath] else -1;
      elements := elements[xPath := LineData(tagName, startLine, line)];
      ok := true;
    }
  }

  /** The SAX parser's dispatch of one event to the handler; `ok` is false where the handler throws. */
  method Feed(handler: SAXHandler, e: Event) returns (ok: bool)
    modifies handler
    ensures ok <==> Step(old(handler.State()), e).Some?
    ensures ok ==> Step(old(handler.State()), e) == Some(handler.State())
  {
    if e.Start? {
      handler.StartElement(e.qName, e.line);
      ok := true;
    } else {
      ok := handler.EndElement(e.qName, e.line);
    }
  }

  /** `parse`: feed every event to a fresh handler; any exception yields the empty map. */
  method Parse(input: SaxInput) returns (lines: map<string, LineData>)
    ensures lines == ParseSpec(input)
  {
    if input.Malformed? {
      return map[];
    }
    var events := input.events;
    var handler := new SAXHandler();
    var i := 0;
    while i < |events|
      invariant 0 <= i <= |events|
      invariant Run(events[..i]) == Some(handler.State())
    {
      RunOneMore(events, i, handler.State());
      var ok := Feed(handler, events[i]);
      if !ok {
        RunFailureSticks(events, i + 1);
        return map[];
      }
      i := i + 1;
    }
    assert events[..i] == events;
    lines := handler.elements;
  }

  /** Running one more event is one more step. */
  lemma RunOneMore(events: seq<Event>, k: nat, s: HandlerState)
    requires k < |events| && Run(events[..k]) == Some(s)
    ensures Run(events[..k + 1]) == Step(s, events[k])
  {
    assert events[..k + 1][..k] == events[..k];
  }

  /** Once an event throws, the whole parse fails. */
  lemma {:induction false} RunFailureSticks(events: seq<Event>, k: nat)
    requires k <= |events| && Run(events[..k]).None?
    ensures Run(events).None?
    decreases |events| - k
  {
    if k < |events| {
      assert events[..k + 1][..k] == events[..k];
      RunFailureSticks(events, k + 1);
    } else {
      assert events[..k] == events;
    }
  }

  /** `XPathCustomParser`: the map is built once, at construction. */
  class XPathCustomParser {
    const lines: map<string, LineData>

    constructor (xmlData: SaxInput)
      ensures lines == ParseSpec(xmlData)
    {
      var parsed := Parse(xmlData);
      lines := parsed;
    }

    /** `getInfoFromXPath` */
    function GetInfoFromXPath(xPath: string): (r: Pair<int, int>)
      ensures r == Lookup(lines, xPath)
    {
      Lookup(lines, xPath)
    }
  }

  // ---------------------------------------------------------------------
  // Counting events

  function Starts(events: seq<Event>): nat
    decreases |events|
  {
    if events == [] then 0
    else Starts(events[..|events| - 1]) + (if events[|events| - 1].Start? then 1 else 0)
  }

  function Ends(events: seq<Event>): nat
    decreases |events|
  {
    if events == [] then 0
    else Ends(events[..|events| - 1]) + (if events[|events| - 1].End? then 1 else 0)
  }

  /** The number of start events whose stripped name is `tag`. */
  function StartsOf(events: seq<Event>, tag: string): nat
    decreases |events|
  {
    if events == [] then 0
    else
      var e := events[|events| - 1];
      StartsOf(events[..|events| - 1], tag) + (if e.Start? && StripNamespace(e.qName) == tag then 1 else 0)
  }

  /** No end event comes while no element is open. */
  predicate Balanced(events: seq<Event>) {
    forall k :: 0 <= k < |events| && events[k].End? ==> Ends(events[..k]) < Starts(events[..k])
  }

  /** The handler never throws exactly when the events are balanced; then the stack holds the open elements. */
  lemma {:induction false} RunDefinedAndDepth(events: seq<Event>)
    ensures Run(events).Some? <==> Balanced(events)
    ensures Run(events).Some? ==> |Run(events).value.pathStack| == Starts(events) - Ends(events)
    decreases |events|
  {
    if events != [] {
      RunDefinedAndDepth(events[..|events| - 1]);
      BalancedSnoc(events);
    }
  }

  /** Events are balanced when all but the last are and the last end event has an open element to close. */
  lemma BalancedSnoc(events: seq<Event>)
    requires events != []
    ensures var init := events[..|events| - 1];
      Balanced(events) <==> Balanced(init) && (events[|events| - 1].End? ==> Ends(init) < Starts(init))
  {
    var init := events[..|events| - 1];
    forall k | 0 <= k < |init| ensures init[..k] == events[..k] && init[k] == events[k] { }
    assert events[..|events| - 1] == init;
  }

  /** A well-nested document leaves the stack empty. */
  lemma StackEmptiesAtEnd(events: seq<Event>)
    requires Balanced(events) && Starts(events) == Ends(events)
    ensures Run(events).Some? && Run(events).value.pathStack == []
  {
    RunDefinedAndDepth(events);
  }

  /**
   * The counter is document-wide: after the events, the count for a tag is
   * the number of start events carrying that stripped name, whatever their parents.
   */
  lemma {:induction false} CounterIsGlobal(events: seq<Event>, tag: string)
    requires Run(events).Some?
    ensures Count(Run(events).value.elementCount, tag) == StartsOf(events, tag)
    decreases |events|
  {
    if events != [] {
      CounterIsGlobal(events[..|events| - 1], tag);
    }
  }

  // ---------------------------------------------------------------------
  // Paths are never reused

  /** XML names never contain `/` or `[`. */
  predicate PlainName(name: string) {
    '/' !in name && '[' !in name
  }

  predicate XmlNames(events: seq<Event>) {
    forall k :: 0 <= k < |events| ==> PlainName(events[k].qName)
  }

  /** A path is its parent followed by its own step. */
  lemma StepPathSplit(parent: string, tag: string, index: nat)
    ensures StepPath(parent, tag, index) == parent + ("/" + tag + "[" + NatToString(index) + "]")
  {
  }

  /** The last step of a path determines its tag and index, whatever the parents. */
  lemma {:induction false} StepPathInjective(a: string, t: string, n: nat, a2: string, t2: string, n2: nat)
    requires PlainName(t) && PlainName(t2)
    requires StepPath(a, t, n) == StepPath(a2, t2, n2)
    ensures t == t2 && n == n2
  {
    var s := "/" + t + "[" + NatToString(n) + "]";
    var s2 := "/" + t2 + "[" + NatToString(n2) + "]";
    StepPathSplit(a, t, n);
    StepPathSplit(a2, t2, n2);
    SuffixFromSlash(a, s, a2, s2, t, n, t2, n2);
    assert s == s2;
    TagFromBracket(t, n, t2, n2);
  }

  lemma {:induction false} SlashOnlyFirst(t: string, n: nat, i: int)
    requires PlainName(t) && 0 < i < |"/" + t + "[" + NatToString(n) + "]"|
    ensures ("/" + t + "[" + NatToString(n) + "]")[i] != '/'
  {
    var s := "/" + t + "[" + NatToString(n) + "]";
    var d := NatToString(n);
    if i <= |t| {
      assert s[i] == t[i - 1];
    } else if i == |t| + 1 {
      assert s[i] == '[';
    } else if i < |s| - 1 {
      assert s[i] == d[i - |t| - 2];
    } else {
      assert s[i] == ']';
    }
  }

  lemma {:induction false} SuffixFromSlash(a: string, s: string, a2: string, s2: string,
                                           t: string, n: nat, t2: string, n2: nat)
    requires PlainName(t) && PlainName(t2)
    requires s == "/" + t + "[" + NatToString(n) + "]"
    requires s2 == "/" + t2 + "[" + NatToString(n2) + "]"
    requires a + s == a2 + s2
    ensures s == s2
  {
    if |a| <= |a2| {
      SameSuffixStart(a, s, a2, s2, t, n);
    } else {
      SameSuffixStart(a2, s2, a, s, t2, n2);
    }
    assert s == (a + s)[|a|..] == (a2 + s2)[|a2|..] == s2;
  }

  /** Both suffixes start with their only `/`, so they start at the same place. */
  lemma {:induction false} SameSuffixStart(a: string, s: string, a2: string, s2: string, t: string, n: nat)
    requires PlainName(t) && s == "/" + t + "[" + NatToString(n) + "]"
    requires s2 != [] && s2[0] == '/'
    requires a + s == a2 + s2 && |a| <= |a2|
    ensures |a| == |a2|
  {
    forall i | 0 < i < |s| ensures s[i] != '/' {
      SlashOnlyFirst(t, n, i);
    }
    assert (a + s)[|a2|] == (a2 + s2)[|a2|] == '/';
    assert (a + s)[|a2|] == s[|a2| - |a|];
  }

  lemma {:induction false} TagFromBracket(t: string, n: nat, t2: string, n2: nat)
    requires PlainName(t) && PlainName(t2)
    requires "/" + t + "[" + NatToString(n) + "]" == "/" + t2 + "[" + NatToString(n2) + "]"
    ensures t == t2 && n == n2
  {
    var s := "/" + t + "[" + NatToString(n) + "]";
    if |t| <= |t2| {
      BracketAfterTag(t, n, t2, n2);
    } else {
      BracketAfterTag(t2, n2, t, n);
    }
    assert t == s[1..|t| + 1] == t2;
    assert NatToString(n) == s[|t| + 2..|s| - 1] == NatToString(n2);
    NatToStringInjective(n, n2);
  }

  /** The first `[` of a step sits right after its tag. */
  lemma {:induction false} BracketAfterTag(t: string, n: nat, t2: string, n2: nat)
    requires PlainName(t2) && |t| <= |t2|
    requires "/" + t + "[" + NatToString(n) + "]" == "/" + t2 + "[" + NatToString(n2) + "]"
    ensures |t| == |t2|
  {
    var s := "/" + t + "[" + NatToString(n) + "]";
    assert s[|t| + 1] == '[';
    forall i | 1 <= i <= |t2| ensures s[i] != '[' {
      assert s[i] == t2[i - 1];
    }
  }

  /** The path is some parent's step to `tag[n]` where `n` is within the tag's count. */
  ghost predicate Indexed(path: string, counts: map<string, nat>) {
    exists a: string, t: string, n: nat :: path == StepPath(a, t, n) && PlainName(t) && 1 <= n <= Count(counts, t)
  }

  /**
   * What keeps paths unique: the open paths are distinct, have start lines and
   * are not yet closed, closed paths have start lines, and every path with a
   * start line carries an index already handed out for its tag.
   */
  ghost predicate Inv(s: HandlerState) {
    (forall i :: 0 <= i < |s.pathStack| ==> s.pathStack[i] in s.startLineMap && s.pathStack[i] !in s.elements)
    && (forall i, j :: 0 <= i < j < |s.pathStack| ==> s.pathStack[i] != s.pathStack[j])
    && (forall p :: p in s.elements ==> p in s.startLineMap)
    && (forall p :: p in s.startLineMap ==> Indexed(p, s.elementCount))
  }

  lemma {:induction false} StripKeepsPlain(qName: string)
    requires PlainName(qName)
    ensures PlainName(StripNamespace(qName))
  {
    var r := StripNamespace(qName);
    if ':' in qName {
      assert r == qName[|qName| - |r|..];
      forall i | 0 <= i < |r| ensures r[i] == qName[|qName| - |r| + i] { }
    }
  }

  /** The path a start event builds carries an index not yet handed out, so it is new. */
  lemma NewPathIsFresh(s: HandlerState, parent: string, tag: string)
    requires Inv(s) && PlainName(tag)
    ensures StepPath(parent, tag, Count(s.elementCount, tag) + 1) !in s.startLineMap
  {
    var path := StepPath(parent, tag, Count(s.elementCount, tag) + 1);
    if path in s.startLineMap {
      var a: string, t: string, n: nat :| path == StepPath(a, t, n) && PlainName(t) && 1 <= n <= Count(s.elementCount, t);
      StepPathInjective(parent, tag, Count(s.elementCount, tag) + 1, a, t, n);
    }
  }

  /** A start event pushes a fresh path, so the open paths stay distinct, recorded and not yet closed. */
  lemma StartKeepsStack(s: HandlerState, qName: string, line: int)
    requires Inv(s) && PlainName(qName)
    ensures var r := StartStep(s, qName, line);
      (forall i :: 0 <= i < |r.pathStack| ==> r.pathStack[i] in r.startLineMap && r.pathStack[i] !in r.elements)
      && (forall i, j :: 0 <= i < j < |r.pathStack| ==> r.pathStack[i] != r.pathStack[j])
  {
    var tag := StripNamespace(qName);
    StripKeepsPlain(qName);
    var parent := ParentPath(s.pathStack);
    var path := StepPath(parent, tag, Count(s.elementCount, tag) + 1);
    var r := StartStep(s, qName, line);
    NewPathIsFresh(s, parent, tag);
    assert r.pathStack == s.pathStack + [path] && r.startLineMap == s.startLineMap[path := line];
    forall i | 0 <= i < |r.pathStack| ensures r.pathStack[i] in r.startLineMap && r.pathStack[i] !in r.elements {
      if i < |s.pathStack| {
        assert r.pathStack[i] == s.pathStack[i];
      }
    }
    forall i, j | 0 <= i < j < |r.pathStack| ensures r.pathStack[i] != r.pathStack[j] {
      assert r.pathStack[i] == s.pathStack[i];
    }
  }

  /** A start event hands out the next index of its tag, so every recorded path stays indexed. */
  lemma StartKeepsIndexed(s: HandlerState, qName: string, line: int)
    requires Inv(s) && PlainName(qName)
    ensures var r := StartStep(s, qName, line);
      forall p :: p in r.startLineMap ==> Indexed(p, r.elementCount)
  {
    var tag := StripNamespace(qName);
    StripKeepsPlain(qName);
    var c := Count(s.elementCount, tag);
    var parent := ParentPath(s.pathStack);
    var path := StepPath(parent, tag, c + 1);
    var r := StartStep(s, qName, line);
    forall p | p in r.startLineMap ensures Indexed(p, r.elementCount) {
      if p == path {
        assert p == StepPath(parent, tag, c + 1) && PlainName(tag) && 1 <= c + 1 <= Count(r.elementCount, tag);
      } else {
        var a: string, t: string, n: nat :| p == StepPath(a, t, n) && PlainName(t) && 1 <= n <= Count(s.elementCount, t);
        assert p == StepPath(a, t, n) && PlainName(t) && 1 <= n <= Count(r.elementCount, t);
      }
    }
  }

  lemma StartKeepsInv(s: HandlerState, qName: string, line: int)
    requires Inv(s) && PlainName(qName)
    ensures Inv(StartStep(s, qName, line))
  {
    StartKeepsStack(s, qName, line);
    StartKeepsIndexed(s, qName, line);
  }

  lemma {:induction false} EndKeepsInv(s: HandlerState, qName: string, line: int)
    requires Inv(s) && s.pathStack != []
    ensures s.pathStack[|s.pathStack| - 1] !in s.elements
    ensures Inv(EndStep(s, qName, line).value)
  {
  }

  /** The invariant holds after every prefix of a document with XML names. */
  lemma {:induction false} RunKeepsInv(events: seq<Event>)
    requires XmlNames(events) && Run(events).Some?
    ensures Inv(Run(events).value)
    decreases |events|
  {
    if events != [] {
      var init := events[..|events| - 1];
      assert XmlNames(init) by {
        forall k | 0 <= k < |init| ensures PlainName(init[k].qName) {
          assert init[k] == events[k];
        }
      }
      RunKeepsInv(init);
      var e := events[|events| - 1];
      assert PlainName(e.qName);
      if e.Start? {
        StartKeepsInv(Run(init).value, e.qName, e.line);
      } else {
        EndKeepsInv(Run(init).value, e.qName, e.line);
      }
    }
  }

  /** Every end event adds a new entry: the map has exactly one entry per closed element. */
  lemma {:induction false} OneEntryPerClosedElement(events: seq<Event>)
    requires XmlNames(events) && Run(events).Some?
    ensures |Run(events).value.elements| == Ends(events)
    decreases |events|
  {
    if events != [] {
      var init := events[..|events| - 1];
      assert XmlNames(init) by {
        forall k | 0 <= k < |init| ensures PlainName(init[k].qName) {
          assert init[k] == events[k];
        }
      }
      OneEntryPerClosedElement(init);
      RunKeepsInv(init);
      var e := events[|events| - 1];
      if e.End? {
        EndKeepsInv(Run(init).value, e.qName, e.line);
      }
    }
  }

  /** No entry is ever overwritten: what an earlier prefix recorded is still there, unchanged. */
  lemma {:induction false} EntriesNeverOverwritten(events: seq<Event>, k: nat)
    requires XmlNames(events) && Run(events).Some? && k <= |events|
    ensures Run(events[..k]).Some?
    ensures forall p :: p in Run(events[..k]).value.elements ==>
      p in Run(events).value.elements && Run(events).value.elements[p] == Run(events[..k]).value.elements[p]
    decreases |events|
  {
    if k == |events| {
      assert events[..k] == events;
    } else {
      var init := events[..|events| - 1];
      assert init[..k] == events[..k];
      assert XmlNames(init) by {
        forall j | 0 <= j < |init| ensures PlainName(init[j].qName) {
          assert init[j] == events[j];
        }
      }
      EntriesNeverOverwritten(init, k);
      RunKeepsInv(init);
      var e := events[|events| - 1];
      if e.End? {
        EndKeepsInv(Run(init).value, e.qName, e.line);
      }
    }
  }

  // ---------------------------------------------------------------------
  // Line numbers

  /** The locator's lines are 1-based and never go backwards. */
  predicate LinesOk(events: seq<Event>) {
    (forall k :: 0 <= k < |events| ==> events[k].line >= 1)
    && (forall j, k :: 0 <= j <= k < |events| ==> events[j].line <= events[k].line)
  }

  ghost predicate LinesBounded(s: HandlerState, bound: int) {
    (forall i :: 0 <= i < |s.pathStack| ==> s.pathStack[i] in s.startLineMap)
    && (forall p :: p in s.startLineMap ==> 1 <= s.startLineMap[p] <= bound)
    && (forall p :: p in s.elements ==>
          1 <= s.elements[p].beginLineNumber <= s.elements[p].endLineNumber <= bound)
  }

  /** One event on a line no earlier than every recorded line keeps all recorded lines within it. */
  lemma StepLinesBounded(s: HandlerState, e: Event, bound: int)
    requires LinesBounded(s, bound) && bound <= e.line && 1 <= e.line && Step(s, e).Some?
    ensures LinesBounded(Step(s, e).value, e.line)
  {
    var r := Step(s, e).value;
    if e.Start? {
      forall i | 0 <= i < |r.pathStack| ensures r.pathStack[i] in r.startLineMap {
        if i < |s.pathStack| {
          assert r.pathStack[i] == s.pathStack[i];
        }
      }
    } else {
      assert s.pathStack[|s.pathStack| - 1] in s.startLineMap;
      forall i | 0 <= i < |r.pathStack| ensures r.pathStack[i] in r.startLineMap {
        assert r.pathStack[i] == s.pathStack[i];
      }
    }
  }

  lemma {:induction false} RunLinesBounded(events: seq<Event>)
    requires LinesOk(events) && events != [] && Run(events).Some?
    ensures LinesBounded(Run(events).value, events[|events| - 1].line)
    decreases |events|
  {
    var init := events[..|events| - 1];
    var e := events[|events| - 1];
    if init != [] {
      assert LinesOk(init) by {
        forall k | 0 <= k < |init| ensures init[k] == events[k] { }
      }
      RunLinesBounded(init);
      assert init[|init| - 1].line <= e.line;
      StepLinesBounded(Run(init).value, e, init[|init| - 1].line);
    } else {
      assert e.line >= 1;
      StepLinesBounded(Initial, e, 1);
    }
  }

  /**
   * With 1-based, non-decreasing lines, every recorded element starts on a
   * real line (the `-1` default is never used) and ends no earlier than it starts.
   */
  lemma EntryLinesOrdered(events: seq<Event>)
    requires LinesOk(events) && Run(events).Some?
    ensures forall p :: p in Run(events).value.elements ==>
      1 <= Run(events).value.elements[p].beginLineNumber <= Run(events).value.elements[p].endLineNumber
  {
    if events != [] {
      RunLinesBounded(events);
    }
  }

  // ---------------------------------------------------------------------
  // Nesting

  /** A path less its last step: everything before its last `/` (`""` for a root path). */
  function Parent(path: string): string
    decreases |path|
  {
    if path == [] then ""
    else if path[|path| - 1] == '/' then path[..|path| - 1]
    else Parent(path[..|path| - 1])
  }

  lemma {:induction false} ParentOfPrefix(p: string, s: string, k: nat)
    requires 1 <= k <= |s| && s[0] == '/'
    requires forall i :: 0 < i < |s| ==> s[i] != '/'
    ensures Parent(p + s[..k]) == p
    decreases k
  {
    var w := p + s[..k];
    if k == 1 {
      assert w[|w| - 1] == '/' && w[..|w| - 1] == p;
    } else {
      assert w[|w| - 1] == s[k - 1];
      assert w[..|w| - 1] == p + s[..k - 1];
      ParentOfPrefix(p, s, k - 1);
    }
  }

  /** The parent of `parent/tag[n]` is `parent`. */
  lemma ParentOfStep(parent: string, tag: string, n: nat)
    requires PlainName(tag)
    ensures Parent(StepPath(parent, tag, n)) == parent
  {
    var s := "/" + tag + "[" + NatToString(n) + "]";
    forall i | 0 < i < |s| ensures s[i] != '/' {
      SlashOnlyFirst(tag, n, i);
    }
    StepPathSplit(parent, tag, n);
    assert s[..|s|] == s;
    ParentOfPrefix(parent, s, |s|);
  }

  /** Each open path's parent is the path below it; the bottom one is a root path. */
  ghost predicate StackChained(stack: seq<string>) {
    (stack != [] ==> Parent(stack[0]) == "")
    && forall j :: 0 < j < |stack| ==> Parent(stack[j]) == stack[j - 1]
  }

  /** A recorded path's parent (unless it is a root path) was recorded first, on no later line. */
  ghost predicate StartsNested(startLines: map<string, int>) {
    "" !in startLines
    && (forall q :: q in startLines ==> Parent(q) == "" || Parent(q) in startLines)
    && (forall q :: q in startLines && Parent(q) in startLines ==> startLines[Parent(q)] <= startLines[q])
  }

  /** A closed element keeps its start line, and a closed child ends no later than its closed parent. */
  ghost predicate EndsNested(elements: map<string, LineData>, startLines: map<string, int>) {
    (forall p :: p in elements ==> p in startLines && elements[p].beginLineNumber == startLines[p])
    && (forall q :: q in elements && Parent(q) in elements ==>
          elements[q].endLineNumber <= elements[Parent(q)].endLineNumber)
  }

  /** What keeps a child's lines inside its parent's. */
  ghost predicate Nested(s: HandlerState) {
    StackChained(s.pathStack) && StartsNested(s.startLineMap) && EndsNested(s.elements, s.startLineMap)
  }

  lemma PushKeepsChained(stack: seq<string>, path: string)
    requires StackChained(stack) && Parent(path) == ParentPath(stack)
    ensures StackChained(stack + [path])
  {
    var r := stack + [path];
    forall j | 0 < j < |r| ensures Parent(r[j]) == r[j - 1] {
      if j < |stack| {
        assert r[j] == stack[j];
      }
    }
  }

  lemma PopKeepsChained(stack: seq<string>)
    requires StackChained(stack) && stack != []
    ensures StackChained(stack[..|stack| - 1])
  {
    var r := stack[..|stack| - 1];
    forall j | 0 < j < |r| ensures Parent(r[j]) == r[j - 1] {
      assert r[j] == stack[j];
    }
  }

  /** Recording a fresh path whose parent is recorded (or none), on a line no earlier than the others. */
  lemma RecordKeepsStartsNested(startLines: map<string, int>, path: string, line: int)
    requires StartsNested(startLines) && path != [] && path !in startLines
    requires Parent(path) == "" || Parent(path) in startLines
    requires forall q :: q in startLines ==> startLines[q] <= line
    ensures StartsNested(startLines[path := line])
  {
    var r := startLines[path := line];
    forall q | q in r && Parent(q) in r ensures r[Parent(q)] <= r[q] {
      if q != path && Parent(q) != path {
        assert Parent(q) in startLines;
      }
    }
  }

  lemma RecordKeepsEndsNested(elements: map<string, LineData>, startLines: map<string, int>, path: string, line: int)
    requires EndsNested(elements, startLines) && path !in startLines
    ensures EndsNested(elements, startLines[path := line])
  {
  }

  /** Closing the open path `top`, whose parent is still open, on a line no earlier than every closed one. */
  lemma CloseKeepsEndsNested(elements: map<string, LineData>, startLines: map<string, int>,
                             top: string, tag: string, line: int)
    requires EndsNested(elements, startLines) && top in startLines && Parent(top) !in elements
    requires Parent(top) != top
    requires forall q :: q in elements ==> elements[q].endLineNumber <= line
    ensures EndsNested(elements[top := LineData(tag, startLines[top], line)], startLines)
  {
  }

  /** A start event on a line no earlier than every recorded line keeps the nesting. */
  lemma StartKeepsNested(s: HandlerState, qName: string, line: int, bound: int)
    requires Inv(s) && Nested(s) && LinesBounded(s, bound) && bound <= line && PlainName(qName)
    ensures Nested(StartStep(s, qName, line))
  {
    var tag := StripNamespace(qName);
    StripKeepsPlain(qName);
    var c := Count(s.elementCount, tag);
    var parent := ParentPath(s.pathStack);
    var path := StepPath(parent, tag, c + 1);
    NewPathIsFresh(s, parent, tag);
    ParentOfStep(parent, tag, c + 1);
    var r := StartStep(s, qName, line);
    assert r.pathStack == s.pathStack + [path] && r.startLineMap == s.startLineMap[path := line];
    assert r.elements == s.elements;
    PushKeepsChained(s.pathStack, path);
    assert parent == "" || parent in s.startLineMap;
    assert forall q :: q in s.startLineMap ==> s.startLineMap[q] <= line;
    RecordKeepsStartsNested(s.startLineMap, path, line);
    RecordKeepsEndsNested(s.elements, s.startLineMap, path, line);
  }

  /** An end event on a line no earlier than every recorded line keeps the nesting. */
  lemma EndKeepsNested(s: HandlerState, qName: string, line: int, bound: int)
    requires Inv(s) && Nested(s) && LinesBounded(s, bound) && bound <= line && s.pathStack != []
    ensures Nested(EndStep(s, qName, line).value)
  {
    var n := |s.pathStack|;
    var top := s.pathStack[n - 1];
    assert top in s.startLineMap;
    assert Parent(top) !in s.elements && Parent(top) != top by {
      if n > 1 {
        assert Parent(top) == s.pathStack[n - 2];
      }
    }
    PopKeepsChained(s.pathStack);
    CloseKeepsEndsNested(s.elements, s.startLineMap, top, StripNamespace(qName), line);
  }

  /** Every prefix of a document with XML names and well-behaved lines keeps the nesting. */
  lemma {:induction false} RunKeepsNested(events: seq<Event>)
    requires XmlNames(events) && LinesOk(events) && Run(events).Some?
    ensures Nested(Run(events).value)
    decreases |events|
  {
    if events != [] {
      var init := events[..|events| - 1];
      var e := events[|events| - 1];
      assert XmlNames(init) && LinesOk(init) by {
        forall k | 0 <= k < |init| ensures init[k] == events[k] { }
      }
      RunKeepsNested(init);
      RunKeepsInv(init);
      var s := Run(init).value;
      var bound := e.line;
      if init != [] {
        RunLinesBounded(init);
        bound := init[|init| - 1].line;
      }
      assert LinesBounded(s, bound);
      if e.Start? {
        StartKeepsNested(s, e.qName, e.line, bound);
      } else {
        EndKeepsNested(s, e.qName, e.line, bound);
      }
    }
  }

  /**
   * An element's lines lie inside its parent's: the element whose path is
   * `p/tag[n]` starts no earlier and ends no later than the element `p`.
   */
  lemma ChildRangeInsideParent(events: seq<Event>)
    requires XmlNames(events) && LinesOk(events) && Run(events).Some?
    ensures var m := Run(events).value.elements;
      forall p, t, n :: p in m && StepPath(p, t, n) in m && PlainName(t) ==>
        m[p].beginLineNumber <= m[StepPath(p, t, n)].beginLineNumber
        && m[StepPath(p, t, n)].endLineNumber <= m[p].endLineNumber
  {
    RunKeepsNested(events);
    var m := Run(events).value.elements;
    forall p, t, n | p in m && StepPath(p, t, n) in m && PlainName(t)
      ensures m[p].beginLineNumber <= m[StepPath(p, t, n)].beginLineNumber
      ensures m[StepPath(p, t, n)].endLineNumber <= m[p].endLineNumber
    {
      ParentOfStep(p, t, n);
    }
  }

  /** A failed parse leaves the map empty, so every lookup misses. */
  lemma FailedParseFindsNothing(input: SaxInput, xPath: string)
    requires input.Malformed? || Run(input.events).None?
    ensures Lookup(ParseSpec(input), xPath) == Pair(-1, -1)
  {
  }

  /**
   * A label inside the first class of a document whose root already holds a
   * label is `label[2]`, not `label[1]`: the counter does not restart per parent.
   */
  lemma NestedLabelIndexIsDocumentWide(events: seq<Event>)
    requires |events| >= 6 && XmlNames(events) && Run(events).Some?
    requires events[0].Start? && StripNamespace(events[0].qName) == "RDF"
    requires events[1].Start? && StripNamespace(events[1].qName) == "label" && events[2].End?
    requires events[3].Start? && StripNamespace(events[3].qName) == "Class"
    requires events[4].Start? && StripNamespace(events[4].qName) == "label" && events[5].End?
    ensures Lookup(ParseSpec(Document(events)), "/RDF[1]/Class[1]/label[2]")
         == Pair(events[4].line, events[5].line)
  {
    OpeningRecordsNestedLabel(events);
    EntriesNeverOverwritten(events, 6);
  }

  lemma OpeningRecordsNestedLabel(events: seq<Event>)
    requires |events| >= 6
    requires events[0].Start? && StripNamespace(events[0].qName) == "RDF"
    requires events[1].Start? && StripNamespace(events[1].qName) == "label" && events[2].End?
    requires events[3].Start? && StripNamespace(events[3].qName) == "Class"
    requires events[4].Start? && StripNamespace(events[4].qName) == "label" && events[5].End?
    ensures Run(events[..6]).Some?
    ensures "/RDF[1]/Class[1]/label[2]" in Run(events[..6]).value.elements
    ensures Run(events[..6]).value.elements["/RDF[1]/Class[1]/label[2]"].beginLineNumber == events[4].line
    ensures Run(events[..6]).value.elements["/RDF[1]/Class[1]/label[2]"].endLineNumber == events[5].line
  {
    RootThenLabel(events);
    var s3 := Run(events[..3]).value;
    var s4 := StartStep(s3, events[3].qName, events[3].line);
    var s5 := StartStep(s4, events[4].qName, events[4].line);
    RunOneMore(events, 3, s3);
    RunOneMore(events, 4, s4);
    RunOneMore(events, 5, s5);
    ClassThenLabel(s3, events[3], events[4], events[5]);
    SamplePaths();
  }

  /** After `<RDF><label/>` the root is open and one `label` has been counted, no `Class` yet. */
  lemma RootThenLabel(events: seq<Event>)
    requires |events| >= 3
    requires events[0].Start? && StripNamespace(events[0].qName) == "RDF"
    requires events[1].Start? && StripNamespace(events[1].qName) == "label" && events[2].End?
    ensures Run(events[..3]).Some?
    ensures Run(events[..3]).value.pathStack == [StepPath("", "RDF", 1)]
    ensures Count(Run(events[..3]).value.elementCount, "label") == 1
    ensures Count(Run(events[..3]).value.elementCount, "Class") == 0
  {
    var s1 := StartStep(Initial, events[0].qName, events[0].line);
    var s2 := StartStep(s1, events[1].qName, events[1].line);
    assert events[..0] == [];
    RunOneMore(events, 0, Initial);
    RunOneMore(events, 1, s1);
    RunOneMore(events, 2, s2);
  }

  /** Then `<Class><label/>` records `label[2]` under `Class[1]` with its two lines. */
  lemma ClassThenLabel(s: HandlerState, e3: Event, e4: Event, e5: Event)
    requires s.pathStack == [StepPath("", "RDF", 1)]
    requires Count(s.elementCount, "label") == 1 && Count(s.elementCount, "Class") == 0
    requires e3.Start? && StripNamespace(e3.qName) == "Class"
    requires e4.Start? && StripNamespace(e4.qName) == "label" && e5.End?
    ensures var s5 := StartStep(StartStep(s, e3.qName, e3.line), e4.qName, e4.line);
      var inner := StepPath(StepPath(StepPath("", "RDF", 1), "Class", 1), "label", 2);
      EndStep(s5, e5.qName, e5.line).Some?
      && inner in EndStep(s5, e5.qName, e5.line).value.elements
      && EndStep(s5, e5.qName, e5.line).value.elements[inner].beginLineNumber == e4.line
      && EndStep(s5, e5.qName, e5.line).value.elements[inner].endLineNumber == e5.line
  {
    var cls := StepPath(StepPath("", "RDF", 1), "Class", 1);
    var inner := StepPath(cls, "label", 2);
    var s4 := StartStep(s, e3.qName, e3.line);
    assert ParentPath(s4.pathStack) == cls;
    assert Count(s4.elementCount, "label") == 1 by {
      assert s4.elementCount == s.elementCount["Class" := 1];
    }
    var s5 := StartStep(s4, e4.qName, e4.line);
    assert s5.pathStack[|s5.pathStack| - 1] == inner;
  }

  lemma SamplePaths()
    ensures StepPath("", "RDF", 1) == "/RDF[1]"
    ensures StepPath("/RDF[1]", "Class", 1) == "/RDF[1]/Class[1]"
    ensures StepPath("/RDF[1]/Class[1]", "label", 2) == "/RDF[1]/Class[1]/label[2]"
  {
  }
}
