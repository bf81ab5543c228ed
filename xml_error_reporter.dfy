/**
 * XMLErrorReporter: turns the edited elements of a diff into error records
 * carrying the line range of each element in the original document.
 */
module XMLErrorReporter {
  import opened Data
  import opened XPathCustomParser

  /** The path of the document root, which is not reported. */
  const RootPath := "/RDF[1]"

  /**
   * The record for one edited element, if any: elements without a path, the
   * root, and paths whose lookup misses are skipped; otherwise the record
   * carries the looked-up lines, the element's data as message and its id as details.
   */
  function Record(lines: map<string, LineData>, e: EditedElement): (r: Option<ErrorInfo>)
    ensures r.Some? <==>
      e.xPath.Some? && e.xPath.value != RootPath
      && Lookup(lines, e.xPath.value).first != -1 && Lookup(lines, e.xPath.value).second != -1
    ensures r.Some? ==>
      e.xPath.value in lines
      && r.value == ErrorInfo(lines[e.xPath.value].beginLineNumber, lines[e.xPath.value].endLineNumber, e.data, e.id)
  {
    match e.xPath
    case None => None
    case Some(p) =>
      if p == RootPath then None
      else
        var found := Lookup(lines, p);
        if found.first != -1 && found.second != -1 then Some(ErrorInfo(found.first, found.second, e.data, e.id))
        else None
  }

  /** The records of a list of edited elements, in order. */
  function Project(lines: map<string, LineData>, es: seq<EditedElement>): seq<ErrorInfo>
    decreases |es|
  {
    if es == [] then []
    else
      var init := Project(lines, es[..|es| - 1]);
      match Record(lines, es[|es| - 1])
      case None => init
      case Some(r) => init + [r]
  }

  /** `XMLErrorReporter(xmlString)` builds its path index once. */
  class ErrorReporter {
    const parser: XPathCustomParser

    constructor (xmlString: SaxInput)
      ensures parser.lines == ParseSpec(xmlString)
    {
      parser := new XPathCustomParser(xmlString);
    }

    /** `generateErrorInfo` */
    method GenerateErrorInfo(editedElements: seq<EditedElement>) returns (errorInfos: seq<ErrorInfo>)
      ensures errorInfos == Project(parser.lines, editedElements)
    {
      errorInfos := [];
      var i := 0;
      while i < |editedElements|
        invariant 0 <= i <= |editedElements|
        invariant errorInfos == Project(parser.lines, editedElements[..i])
      {
        assert editedElements[..i + 1][..i] == editedElements[..i];
        var editedElement := editedElements[i];
        if editedElement.xPath.Some? && editedElement.xPath.value != RootPath {
          var lines := parser.GetInfoFromXPath(editedElement.xPath.value);
          if lines.first != -1 && lines.second != -1 {
            errorInfos := errorInfos + [ErrorInfo(lines.first, lines.second, editedElement.data, editedElement.id)];
          }
        }
        i := i + 1;
      }
      assert editedElements[..i] == editedElements;
    }
  }

  /** Projection distributes over concatenation: each element is handled on its own. */
  lemma {:induction false} ProjectAppend(lines: map<string, LineData>, a: seq<EditedElement>, b: seq<EditedElement>)
    ensures Project(lines, a + b) == Project(lines, a) + Project(lines, b)
    decreases |b|
  {
    if b == [] {
      assert a + b == a;
    } else {
      var b0 := b[..|b| - 1];
      assert (a + b)[..|a + b| - 1] == a + b0;
      ProjectAppend(lines, a, b0);
    }
  }

  /** The number of elements that yield a record. */
  function Survivors(lines: map<string, LineData>, es: seq<EditedElement>): nat
    decreases |es|
  {
    if es == [] then 0
    else Survivors(lines, es[..|es| - 1]) + (if Record(lines, es[|es| - 1]).Some? then 1 else 0)
  }

  /**
   * No record is ever dropped or merged: one record per surviving element,
   * so never more records than elements.
   */
  lemma {:induction false} OneRecordPerSurvivor(lines: map<string, LineData>, es: seq<EditedElement>)
    ensures |Project(lines, es)| == Survivors(lines, es) <= |es|
    decreases |es|
  {
    if es != [] {
      OneRecordPerSurvivor(lines, es[..|es| - 1]);
    }
  }

  /** A record is in the output exactly when some input element yields it. */
  lemma {:induction false} RecordsComeFromElements(lines: map<string, LineData>, es: seq<EditedElement>, r: ErrorInfo)
    ensures r in Project(lines, es) <==> exists k :: 0 <= k < |es| && Record(lines, es[k]) == Some(r)
    decreases |es|
  {
    if es != [] {
      var init := es[..|es| - 1];
      RecordsComeFromElements(lines, init, r);
      if exists k :: 0 <= k < |es| && Record(lines, es[k]) == Some(r) {
        var k :| 0 <= k < |es| && Record(lines, es[k]) == Some(r);
        if k < |init| {
          assert init[k] == es[k];
        }
      }
      if exists k :: 0 <= k < |init| && Record(lines, init[k]) == Some(r) {
        var k :| 0 <= k < |init| && Record(lines, init[k]) == Some(r);
        assert es[k] == init[k];
      }
    }
  }

  /** No record carries the `-1` miss marker, and messages and details come from some element. */
  lemma RecordsAreResolved(lines: map<string, LineData>, es: seq<EditedElement>)
    ensures forall r :: r in Project(lines, es) ==> r.startLine != -1 && r.endLine != -1
    ensures forall r :: r in Project(lines, es) ==>
      exists k :: 0 <= k < |es| && es[k].xPath.Some? && es[k].xPath.value != RootPath
        && r.errorMessage == es[k].data && r.elementDetails == es[k].id
  {
    forall r | r in Project(lines, es)
      ensures r.startLine != -1 && r.endLine != -1
      ensures exists k :: (0 <= k < |es| && es[k].xPath.Some? && es[k].xPath.value != RootPath
                           && r.errorMessage == es[k].data && r.elementDetails == es[k].id)
    {
      RecordsComeFromElements(lines, es, r);
      var k :| 0 <= k < |es| && Record(lines, es[k]) == Some(r);
    }
  }

  /** A document that failed to parse yields no records at all. */
  lemma FailedParseReportsNothing(input: SaxInput, es: seq<EditedElement>)
    requires input.Malformed? || Run(input.events).None?
    ensures Project(ParseSpec(input), es) == []
  {
    forall r | r in Project(ParseSpec(input), es) ensures false {
      RecordsComeFromElements(ParseSpec(input), es, r);
    }
  }

  /** Over a parsed document with sane line numbers, every record spans lines `1 <= start <= end`. */
  lemma RecordsSpanRealLines(events: seq<Event>, es: seq<EditedElement>)
    requires LinesOk(events) && Run(events).Some?
    ensures forall r :: r in Project(ParseSpec(Document(events)), es) ==> 1 <= r.startLine <= r.endLine
  {
    EntryLinesOrdered(events);
    forall r | r in Project(ParseSpec(Document(events)), es) ensures 1 <= r.startLine <= r.endLine {
      RecordsComeFromElements(ParseSpec(Document(events)), es, r);
    }
  }
}
