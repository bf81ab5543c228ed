/**
 * XMLDiffChecker: turns the differences an XML comparison reports into
 * edited elements, one per distinct identity string.
 *
 * The comparison itself (XMLUnit's DiffBuilder) is an oracle: it either
 * rejects a document that is not well formed, fails otherwise, or yields a
 * list of differences, each with optional control and test details.
 */
module XMLDiffChecker {
  import opened Text
  import opened Data

  /** The target of a comparison detail: a DOM node with its parent's name, or some other object. */
  datatype NodeRef = NotANode | DomNode(nodeName: string, parentName: Option<string>)

  /** `ComparisonDetails`: the value's `toString()` (null stays `None`) and its target. */
  datatype Detail = Detail(value: Option<string>, target: NodeRef)

  datatype Comparison = Comparison(control: Option<Detail>, test: Option<Detail>)

  datatype Difference = Difference(comparison: Option<Comparison>)

  /** What the comparison oracle reports. */
  datatype Compared = NotWellFormed | ComparisonFailure | Differences(diffs: seq<Option<Difference>>)

  /** A compared value as it appears in an identity: `"null"`, or the trimmed text. */
  function RenderValue(v: Option<string>): (r: string)
    ensures v.None? ==> r == "null"
    ensures v.Some? ==> r == Trim(v.value)
  {
    match v
    case None => "null"
    case Some(s) => Trim(s)
  }

  /** A rendered present value has no leading or trailing char at or below U+0020. */
  lemma RenderedValueIsTrimmed(s: string)
    ensures RenderValue(Some(s)) != [] ==> RenderValue(Some(s))[0] > ' '
    ensures RenderValue(Some(s)) != [] ==> RenderValue(Some(s))[|RenderValue(Some(s))| - 1] > ' '
  {
    var t := TrimStart(s);
    var r := TrimEnd(t);
    if r != [] {
      assert r[0] == t[0];
    }
  }

  /** `getNodeName` */
  function NodeName(target: NodeRef): string {
    match target
    case NotANode => "Unknown"
    case DomNode(name, _) => name
  }

  /** `getParentNodeName` */
  function ParentNodeName(target: NodeRef): string {
    match target
    case NotANode => "Unknown"
    case DomNode(_, parent) => if parent.Some? then parent.value else "Unknown"
  }

  /** The identity of a difference: both values and where in the control document it sits. */
  function Identity(control: string, test: string, target: NodeRef): string {
    "Control: " + control + " => Test: " + test
    + " | Context: " + "Class: " + ParentNodeName(target) + ", Property: " + NodeName(target)
  }

  /** The identity starts with the control value and the label of the test value. */
  lemma IdentityHead(control: string, test: string, target: NodeRef)
    ensures StartsWith(Identity(control, test, target), "Control: " + control + " => Test: ")
  {
    var id := Identity(control, test, target);
    var head := "Control: " + control + " => Test: ";
    var withTest := head + test;
    var withContext := withTest + " | Context: " + "Class: " + ParentNodeName(target);
    assert withTest[..|head|] == head;
    PrefixOfAppend(withTest, " | Context: ", head);
    PrefixOfAppend(withTest + " | Context: ", "Class: ", head);
    PrefixOfAppend(withTest + " | Context: " + "Class: ", ParentNodeName(target), head);
    PrefixOfAppend(withContext, ", Property: ", head);
    PrefixOfAppend(withContext + ", Property: ", NodeName(target), head);
  }

  /** The identity ends with the control node's name. */
  lemma IdentityTail(control: string, test: string, target: NodeRef)
    ensures var id := Identity(control, test, target);
      var tail := ", Property: " + NodeName(target);
      |tail| <= |id| && id[|id| - |tail|..] == tail
  {
    var id := Identity(control, test, target);
    var tail := ", Property: " + NodeName(target);
    assert id == "Control: " + control + " => Test: " + test + " | Context: " + "Class: " + ParentNodeName(target) + tail;
  }

  /**
   * `getEditedElement`, without the line numbers: no element for a null
   * difference, an empty element when the comparison or either detail is
   * missing, otherwise the trimmed test value as data and the identity as id.
   * The XPath is never filled in.
   */
  function EditedElementOf(d: Option<Difference>): (r: Option<EditedElement>)
    ensures r.None? <==> d.None?
    ensures r.Some? ==> r.value.xPath.None?
    ensures r.Some? && !Complete(d.value) ==> r.value == EditedElement(None, None, None)
    ensures r.Some? && Complete(d.value) ==>
      var c := d.value.comparison.value;
      r.value.data == Some(RenderValue(c.test.value.value))
      && r.value.id == Some(Identity(RenderValue(c.control.value.value), RenderValue(c.test.value.value), c.control.value.target))
  {
    match d
    case None => None
    case Some(diff) =>
      if !Complete(diff) then Some(EditedElement(None, None, None))
      else
        var c := diff.comparison.value;
        var controlValue := RenderValue(c.control.value.value);
        var testValue := RenderValue(c.test.value.value);
        Some(EditedElement(Some(testValue), Some(Identity(controlValue, testValue, c.control.value.target)), None))
  }

  /** The comparison and both its details are present. */
  predicate Complete(d: Difference) {
    d.comparison.Some? && d.comparison.value.control.Some? && d.comparison.value.test.Some?
  }

  // ---------------------------------------------------------------------
  // Line search

  /** A line mentions the control or the test value. */
  predicate Matches(line: string, control: string, test: string) {
    Contains(line, control) || Contains(line, test)
  }

  /** `determineLineNumber`: the 1-based number of the first line mentioning a value, or -1. */
  method DetermineLineNumber(lines: seq<string>, control: string, test: string) returns (lineNumber: int)
    ensures lineNumber == -1 <==> forall j :: 0 <= j < |lines| ==> !Matches(lines[j], control, test)
    ensures lineNumber != -1 ==>
      1 <= lineNumber <= |lines| && Matches(lines[lineNumber - 1], control, test)
      && forall j :: 0 <= j < lineNumber - 1 ==> !Matches(lines[j], control, test)
  {
    var currentLine := 0;
    while currentLine < |lines|
      invariant 0 <= currentLine <= |lines|
      invariant forall j :: 0 <= j < currentLine ==> !Matches(lines[j], control, test)
    {
      currentLine := currentLine + 1;
      if Matches(lines[currentLine - 1], control, test) {
        return currentLine;
      }
    }
    return -1;
  }

  /**
   * `findEndLine`: the number of the last line at or after `startLine`
   * mentioning a value, or `startLine` when there is none.
   */
  method FindEndLine(lines: seq<string>, startLine: int, control: string, test: string) returns (endLine: int)
    ensures endLine >= startLine
    ensures endLine == startLine || (1 <= endLine <= |lines| && Matches(lines[endLine - 1], control, test))
    ensures forall j :: 0 <= j < |lines| && j + 1 >= startLine && j + 1 > endLine ==> !Matches(lines[j], control, test)
  {
    endLine := startLine;
    var currentLine := 0;
    while currentLine < |lines|
      invariant 0 <= currentLine <= |lines|
      invariant endLine >= startLine
      invariant endLine == startLine || (1 <= endLine <= currentLine && Matches(lines[endLine - 1], control, test))
      invariant forall j :: 0 <= j < currentLine && j + 1 >= startLine && j + 1 > endLine ==> !Matches(lines[j], control, test)
    {
      currentLine := currentLine + 1;
      if currentLine >= startLine && Matches(lines[currentLine - 1], control, test) {
        endLine := currentLine;
      }
    }
  }

  /**
   * `getEditedElement`: the element, and for a complete comparison the line
   * range it computes (the first mention, extended to the last mention only
   * when a value spans several lines). The range is not stored in the element.
   */
  method GetEditedElement(lines: seq<string>, d: Option<Difference>) returns (e: Option<EditedElement>, range: Option<Pair<int, int>>)
    ensures e == EditedElementOf(d)
    ensures range.Some? <==> d.Some? && Complete(d.value)
    ensures range.Some? ==>
      var c := d.value.comparison.value;
      var control, test := RenderValue(c.control.value.value), RenderValue(c.test.value.value);
      range.value.second >= range.value.first
      && (range.value.first == -1 <==> forall j :: 0 <= j < |lines| ==> !Matches(lines[j], control, test))
      && ('\n' !in control && '\n' !in test ==> range.value.second == range.value.first)
  {
    e := EditedElementOf(d);
    range := None;
    if d.Some? && Complete(d.value) {
      var c := d.value.comparison.value;
      var controlNodeValue := RenderValue(c.control.value.value);
      var testNodeValue := RenderValue(c.test.value.value);
      var startLine := DetermineLineNumber(lines, controlNodeValue, testNodeValue);
      var endLine := startLine;
      if '\n' in controlNodeValue || '\n' in testNodeValue {
        endLine := FindEndLine(lines, startLine, controlNodeValue, testNodeValue);
      }
      range := Some(Pair(startLine, endLine));
    }
  }

  /** A value spanning lines is never found inside one line, since no line holds a line break. */
  lemma MultiLineValueNotOnOneLine(line: string, value: string)
    requires '\n' !in line && '\n' in value
    ensures !Contains(line, value)
  {
    if Contains(line, value) {
      var i := ContainsWitness(line, value);
    }
  }

  // ---------------------------------------------------------------------
  // First identity wins

  function Ids(es: seq<EditedElement>): set<Option<string>> {
    set e | e in es :: e.id
  }

  /** The element each difference yields, in order (`None` for a null difference). */
  function Candidates(diffs: seq<Option<Difference>>): (cs: seq<Option<EditedElement>>)
    ensures |cs| == |diffs| && forall k :: 0 <= k < |diffs| ==> cs[k] == EditedElementOf(diffs[k])
  {
    seq(|diffs|, k requires 0 <= k < |diffs| => EditedElementOf(diffs[k]))
  }

  /** The candidates kept: one is dropped when it is missing or its id was already seen. */
  function KeepFirst(cs: seq<Option<EditedElement>>): seq<EditedElement>
    decreases |cs|
  {
    if cs == [] then []
    else
      var kept := KeepFirst(cs[..|cs| - 1]);
      match cs[|cs| - 1]
      case None => kept
      case Some(e) => if e.id in Ids(kept) then kept else kept + [e]
  }

  /** The edited elements `diff` keeps from the differences. */
  function Collect(diffs: seq<Option<Difference>>): seq<EditedElement> {
    KeepFirst(Candidates(diffs))
  }

  /** The `k`-th candidate is present and no earlier candidate has its id. */
  predicate FirstWithId(cs: seq<Option<EditedElement>>, k: int)
    requires 0 <= k < |cs|
  {
    cs[k].Some? && forall j :: 0 <= j < k && cs[j].Some? ==> cs[j].value.id != cs[k].value.id
  }

  /** Every id some candidate carries is kept, and only those. */
  lemma {:induction false} KeepFirstKeepsEveryId(cs: seq<Option<EditedElement>>, id: Option<string>)
    ensures id in Ids(KeepFirst(cs)) <==> exists k :: 0 <= k < |cs| && cs[k].Some? && cs[k].value.id == id
    decreases |cs|
  {
    if cs != [] {
      var init := cs[..|cs| - 1];
      KeepFirstKeepsEveryId(init, id);
      var kept := KeepFirst(init);
      var last := cs[|cs| - 1];
      if last.Some? && last.value.id !in Ids(kept) {
        assert Ids(kept + [last.value]) == Ids(kept) + {last.value.id};
      }
      if exists k :: 0 <= k < |cs| && cs[k].Some? && cs[k].value.id == id {
        var k :| 0 <= k < |cs| && cs[k].Some? && cs[k].value.id == id;
        if k < |init| {
          assert init[k] == cs[k];
        }
      }
      if exists k :: 0 <= k < |init| && init[k].Some? && init[k].value.id == id {
        var k :| 0 <= k < |init| && init[k].Some? && init[k].value.id == id;
        assert cs[k] == init[k];
      }
    }
  }

  /** Kept ids are pairwise distinct, so at most one kept element has a null id. */
  lemma {:induction false} KeptIdsDistinct(cs: seq<Option<EditedElement>>)
    ensures forall i, j :: 0 <= i < j < |KeepFirst(cs)| ==> KeepFirst(cs)[i].id != KeepFirst(cs)[j].id
    decreases |cs|
  {
    if cs != [] {
      KeptIdsDistinct(cs[..|cs| - 1]);
      var kept := KeepFirst(cs[..|cs| - 1]);
      forall i | 0 <= i < |kept| ensures kept[i].id in Ids(kept) {
        assert kept[i] in kept;
      }
    }
  }

  /**
   * An element is kept exactly when it is a candidate whose id no earlier
   * candidate carries: the first occurrence wins.
   */
  lemma FirstOccurrenceWins(cs: seq<Option<EditedElement>>, e: EditedElement)
    ensures e in KeepFirst(cs) <==> exists k :: 0 <= k < |cs| && FirstWithId(cs, k) && cs[k] == Some(e)
  {
    if e in KeepFirst(cs) {
      var k := KeptIsFirst(cs, e);
    }
    if exists k :: 0 <= k < |cs| && FirstWithId(cs, k) && cs[k] == Some(e) {
      var k :| 0 <= k < |cs| && FirstWithId(cs, k) && cs[k] == Some(e);
      FirstIsKept(cs, k);
    }
  }

  lemma {:induction false} FirstWithIdOfPrefix(cs: seq<Option<EditedElement>>, n: nat, k: nat)
    requires k < n <= |cs|
    ensures FirstWithId(cs[..n], k) <==> FirstWithId(cs, k)
  {
    assert forall j :: 0 <= j <= k ==> cs[..n][j] == cs[j];
  }

  lemma {:induction false} KeptIsFirst(cs: seq<Option<EditedElement>>, e: EditedElement) returns (k: nat)
    requires e in KeepFirst(cs)
    ensures k < |cs| && FirstWithId(cs, k) && cs[k] == Some(e)
    decreases |cs|
  {
    var n := |cs| - 1;
    var init := cs[..n];
    var kept := KeepFirst(init);
    if e in kept {
      k := KeptIsFirst(init, e);
      FirstWithIdOfPrefix(cs, n, k);
    } else {
      k := n;
      assert cs[n] == Some(e) && e.id !in Ids(kept);
      forall j | 0 <= j < n && cs[j].Some? ensures cs[j].value.id != e.id {
        assert init[j] == cs[j];
        KeepFirstKeepsEveryId(init, cs[j].value.id);
      }
    }
  }

  lemma {:induction false} FirstIsKept(cs: seq<Option<EditedElement>>, k: nat)
    requires k < |cs| && FirstWithId(cs, k)
    ensures cs[k].value in KeepFirst(cs)
    decreases |cs|
  {
    var n := |cs| - 1;
    var init := cs[..n];
    var kept := KeepFirst(init);
    if k == n {
      assert forall j :: 0 <= j < |init| ==> init[j] == cs[j];
      KeepFirstKeepsEveryId(init, cs[k].value.id);
    } else {
      FirstWithIdOfPrefix(cs, n, k);
      FirstIsKept(init, k);
      assert init[k] == cs[k];
    }
  }

  /** Processing more candidates only appends: what was kept stays, in the same order. */
  lemma {:induction false} KeepFirstGrowsByAppending(cs: seq<Option<EditedElement>>, k: nat)
    requires k <= |cs|
    ensures KeepFirst(cs[..k]) <= KeepFirst(cs)
    decreases |cs| - k
  {
    if k < |cs| {
      assert cs[..k + 1][..k] == cs[..k];
      KeepFirstGrowsByAppending(cs, k + 1);
    } else {
      assert cs[..k] == cs;
    }
  }

  /**
   * `diff`: `None` (Java's `null`) for a document that is not well formed, an
   * exception for any other comparison failure, otherwise the kept elements.
   */
  method Diff(outcome: Compared, controlLines: seq<string>) returns (r: Result<Option<seq<EditedElement>>>)
    ensures outcome.NotWellFormed? ==> r == Ok(None)
    ensures outcome.ComparisonFailure? ==> r == Fail(Error(Checked, "Error during XML comparison"))
    ensures outcome.Differences? ==> r == Ok(Some(Collect(outcome.diffs)))
  {
    if outcome.NotWellFormed? {
      return Ok(None);
    }
    if outcome.ComparisonFailure? {
      return Fail(Error(Checked, "Error during XML comparison"));
    }
    var diffs := outcome.diffs;
    var differences: seq<EditedElement> := [];
    var seenDifferences: set<Option<string>> := {};
    var i := 0;
    while i < |diffs|
      invariant 0 <= i <= |diffs|
      invariant differences == KeepFirst(Candidates(diffs)[..i])
      invariant seenDifferences == Ids(differences)
    {
      assert Candidates(diffs)[..i + 1][..i] == Candidates(diffs)[..i];
      var editedElement, _ := GetEditedElement(controlLines, diffs[i]);
      if editedElement.Some? && editedElement.value.id !in seenDifferences {
        seenDifferences := seenDifferences + {editedElement.value.id};
        differences := differences + [editedElement.value];
      }
      i := i + 1;
    }
    assert Candidates(diffs)[..i] == Candidates(diffs);
    return Ok(Some(differences));
  }

  /** The comparison oracle, applied to the control and test XML (either may be null). */
  type Comparator = (Option<string>, Option<string>) -> Compared

  /**
   * `diffOntologies`: rejects a missing ontology, then compares the two XML
   * texts; the control text is re-read line by line for the line search
   * (a null control text makes that reader throw).
   */
  method DiffOntologies(inputOntology: Ontology?, outputOntology: Ontology?, compare: Comparator)
    returns (r: Result<Option<seq<EditedElement>>>)
    ensures inputOntology == null || outputOntology == null ==>
      r == Fail(Error(IllegalArgument, "Input or output ontology cannot be null."))
    ensures inputOntology != null && outputOntology != null ==>
      var outcome := compare(inputOntology.xmlData, outputOntology.xmlData);
      (outcome.NotWellFormed? ==> r == Ok(None))
      && (outcome.ComparisonFailure? ==> r == Fail(Error(Checked, "Error during XML comparison")))
      && (outcome.Differences? && inputOntology.xmlData.None? ==> r == Fail(Error(NullPointer, "")))
      && (outcome.Differences? && inputOntology.xmlData.Some? ==> r == Ok(Some(Collect(outcome.diffs))))
  {
    if inputOntology == null || outputOntology == null {
      return Fail(Error(IllegalArgument, "Input or output ontology cannot be null."));
    }
    var outcome := compare(inputOntology.xmlData, outputOntology.xmlData);
    if outcome.Differences? && inputOntology.xmlData.None? {
      return Fail(Error(NullPointer, ""));
    }
    var content := if inputOntology.xmlData.Some? then ReaderLines(inputOntology.xmlData.value) else [];
    r := Diff(outcome, content);
  }

  /** No element the diff produces carries an XPath. */
  lemma DiffLeavesPathsUnset(diffs: seq<Option<Difference>>)
    ensures forall e :: e in Collect(diffs) ==> e.xPath.None?
  {
    forall e | e in Collect(diffs) ensures e.xPath.None? {
      FirstOccurrenceWins(Candidates(diffs), e);
    }
  }
}
