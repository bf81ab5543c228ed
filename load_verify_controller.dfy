/**
 * LoadVerifyController: the list logic behind the main window. The loaded
 * file is shown as a list of lines; lines inside an error's range are
 * grouped into one highlighted block with a "Fix" action, every other line
 * is a block of its own.
 */
module LoadVerifyController {
  import opened Text
  import opened Data

  /**
   * One entry of the list view: the 0-based index range the block was built
   * for, whether it is an error block, the message and details its "Fix"
   * action carries, and the lines it shows.
   */
  datatype Block = Block(startIndex: int, endIndex: int, isError: bool,
                         errorMessage: Option<string>, errorDetails: Option<string>, lines: seq<string>)

  /** The state of `highlightErrors` after some lines: the processed indices, the blocks so far, and the exception if one was thrown. */
  datatype Highlighting = Highlighting(processed: seq<int>, blocks: seq<Block>, thrown: Option<Error>)

  /** Line `i` (0-based) lies in the 1-based range of `e`. */
  predicate Covers(e: ErrorInfo, i: int) {
    e.startLine - 1 <= i <= e.endLine - 1
  }

  /** The position of the first error whose range holds line `i`, or `|errors|` if none does. */
  function FirstMatch(errors: seq<ErrorInfo>, i: int): (k: nat)
    ensures k <= |errors|
    ensures forall m :: 0 <= m < k ==> !Covers(errors[m], i)
    ensures k < |errors| ==> Covers(errors[k], i)
    decreases |errors|
  {
    if errors == [] then 0
    else if Covers(errors[0], i) then 0
    else 1 + FirstMatch(errors[1..], i)
  }

  function Min(a: int, b: int): int {
    if a <= b then a else b
  }

  /** The indices `a, a + 1, ..., b`, empty when `b < a`. */
  function IndexRange(a: int, b: int): (r: seq<int>)
    ensures |r| == if b < a then 0 else b - a + 1
    ensures forall k :: 0 <= k < |r| ==> r[k] == a + k
  {
    seq(if b < a then 0 else b - a + 1, k => a + k)
  }

  /**
   * One iteration of the outer loop of `highlightErrors` for line `i`: a
   * line already grouped into a block is skipped; otherwise the first error
   * covering it gives the block's range (a non-error block is the single
   * line), the block collects the lines of that range that exist, and a
   * negative start makes `get` throw.
   */
  function Step(lines: seq<string>, errors: seq<ErrorInfo>, h: Highlighting, i: nat): Highlighting
    requires i < |lines|
  {
    if h.thrown.Some? || i in h.processed then h
    else
      var k := FirstMatch(errors, i);
      var isError := k < |errors|;
      var blockStart := if isError then errors[k].startLine - 1 else i;
      var blockEnd := if isError then errors[k].endLine - 1 else i;
      if blockStart < 0 then
        Highlighting(h.processed, h.blocks,
          Some(Error(IndexOutOfBounds, "Index " + IntToString(blockStart) + " out of bounds for length " + NatToString(|lines|))))
      else
        var stop := Min(blockEnd + 1, |lines|);
        var message := if isError then errors[k].errorMessage else Some("");
        var details := if isError then errors[k].elementDetails else Some("");
        Highlighting(h.processed + IndexRange(blockStart, stop - 1),
                     h.blocks + [Block(blockStart, blockEnd, isError, message, details, lines[blockStart..stop])],
                     None)
  }

  /** The state after the first `n` lines. */
  function HighlightUpTo(lines: seq<string>, errors: seq<ErrorInfo>, n: nat): Highlighting
    requires n <= |lines|
  {
    if n == 0 then Highlighting([], [], None)
    else Step(lines, errors, HighlightUpTo(lines, errors, n - 1), n - 1)
  }

  /** `highlightErrors(errorList)` over all the lines. */
  function Highlight(lines: seq<string>, errors: seq<ErrorInfo>): Highlighting {
    HighlightUpTo(lines, errors, |lines|)
  }

  /** Once `get` has thrown, later lines change nothing. */
  lemma {:induction false} ThrownSticks(lines: seq<string>, errors: seq<ErrorInfo>, k: nat, n: nat)
    requires k <= n <= |lines|
    requires HighlightUpTo(lines, errors, k).thrown.Some?
    ensures HighlightUpTo(lines, errors, n) == HighlightUpTo(lines, errors, k)
    decreases n
  {
    if n > k {
      ThrownSticks(lines, errors, k, n - 1);
      ThrownStep(lines, errors, n);
    }
  }

  /** A line after the exception leaves the state alone. */
  lemma ThrownStep(lines: seq<string>, errors: seq<ErrorInfo>, n: nat)
    requires 0 < n <= |lines| && HighlightUpTo(lines, errors, n - 1).thrown.Some?
    ensures HighlightUpTo(lines, errors, n) == HighlightUpTo(lines, errors, n - 1)
  {
  }

  /**
   * A block as `highlightErrors` builds it: it starts at an existing line
   * and shows the lines of its range that exist; an error block takes its
   * range, message and details from an error; any other block is one line
   * with empty message and details.
   */
  ghost predicate BlockFits(lines: seq<string>, errors: seq<ErrorInfo>, b: Block) {
    0 <= b.startIndex < |lines| && b.startIndex <= b.endIndex
    && b.lines == lines[b.startIndex..Min(b.endIndex + 1, |lines|)]
    && (b.isError ==>
          exists k :: 0 <= k < |errors| && b.startIndex == errors[k].startLine - 1 && b.endIndex == errors[k].endLine - 1
            && b.errorMessage == errors[k].errorMessage && b.errorDetails == errors[k].elementDetails)
    && (!b.isError ==> b.startIndex == b.endIndex && b.errorMessage == Some("") && b.errorDetails == Some(""))
  }

  /** A processed line lies in the range of some block. */
  ghost predicate InSomeBlock(blocks: seq<Block>, j: int) {
    exists m :: 0 <= m < |blocks| && blocks[m].startIndex <= j <= blocks[m].endIndex
  }

  /**
   * One step either leaves the state alone, records the exception, or adds
   * one fitting block whose range holds line `i` and the lines it shows to
   * the processed ones.
   */
  lemma StepFacts(lines: seq<string>, errors: seq<ErrorInfo>, h: Highlighting, i: nat)
    requires i < |lines|
    ensures var h' := Step(lines, errors, h, i);
      || h' == h
      || (h'.thrown.Some? && h'.blocks == h.blocks)
      || (h.thrown.None? && h'.thrown.None? && |h'.blocks| == |h.blocks| + 1 && h'.blocks[..|h.blocks|] == h.blocks
          && BlockFits(lines, errors, h'.blocks[|h.blocks|])
          && h'.blocks[|h.blocks|].startIndex <= i <= h'.blocks[|h.blocks|].endIndex
          && h'.processed == h.processed + IndexRange(h'.blocks[|h.blocks|].startIndex, Min(h'.blocks[|h.blocks|].endIndex + 1, |lines|) - 1))
    ensures Step(lines, errors, h, i).thrown.None? ==> i in Step(lines, errors, h, i).processed
  {
    var h' := Step(lines, errors, h, i);
    if h.thrown.None? && i !in h.processed {
      var k := FirstMatch(errors, i);
      var isError := k < |errors|;
      var blockStart := if isError then errors[k].startLine - 1 else i;
      if blockStart >= 0 {
        var b := h'.blocks[|h.blocks|];
        assert BlockFits(lines, errors, b) by {
          if isError {
            assert b.startIndex == errors[k].startLine - 1 && b.endIndex == errors[k].endLine - 1;
          }
        }
        assert i == IndexRange(blockStart, Min(b.endIndex + 1, |lines|) - 1)[i - blockStart];
      }
    }
  }

  /** After any number of lines there is at most one block per line, and every block fits. */
  lemma {:induction false} BlocksFit(lines: seq<string>, errors: seq<ErrorInfo>, n: nat)
    requires n <= |lines|
    ensures |HighlightUpTo(lines, errors, n).blocks| <= n
    ensures forall m :: 0 <= m < |HighlightUpTo(lines, errors, n).blocks| ==>
      BlockFits(lines, errors, HighlightUpTo(lines, errors, n).blocks[m])
    decreases n
  {
    if n > 0 {
      BlocksFit(lines, errors, n - 1);
      StepFacts(lines, errors, HighlightUpTo(lines, errors, n - 1), n - 1);
    }
  }

  /** A step that does not throw keeps every processed line processed and processes line `i`. */
  lemma StepGrowsProcessed(lines: seq<string>, errors: seq<ErrorInfo>, h: Highlighting, i: nat)
    requires i < |lines|
    ensures Step(lines, errors, h, i).thrown.None? ==>
      h.thrown.None? && i in Step(lines, errors, h, i).processed
      && forall j :: j in h.processed ==> j in Step(lines, errors, h, i).processed
  {
    StepFacts(lines, errors, h, i);
  }

  /** A step keeps every processed line inside some block. */
  lemma StepKeepsShown(lines: seq<string>, errors: seq<ErrorInfo>, h: Highlighting, i: nat)
    requires i < |lines|
    requires forall j :: j in h.processed ==> InSomeBlock(h.blocks, j)
    ensures forall j :: j in Step(lines, errors, h, i).processed ==> InSomeBlock(Step(lines, errors, h, i).blocks, j)
  {
    var h' := Step(lines, errors, h, i);
    StepFacts(lines, errors, h, i);
    if h.thrown.None? && h'.thrown.None? && |h'.blocks| == |h.blocks| + 1 {
      var b := h'.blocks[|h.blocks|];
      forall j | j in h'.processed ensures InSomeBlock(h'.blocks, j) {
        if j in h.processed {
          var m :| 0 <= m < |h.blocks| && h.blocks[m].startIndex <= j <= h.blocks[m].endIndex;
          assert h'.blocks[m] == h.blocks[m];
        } else {
          var r := IndexRange(b.startIndex, Min(b.endIndex + 1, |lines|) - 1);
          assert j in r;
          var t :| 0 <= t < |r| && r[t] == j;
          assert b.startIndex <= j <= b.endIndex;
        }
      }
    }
  }

  /** After any number of lines every processed line is inside a block, and, unless `get` threw, every visited line was processed. */
  lemma {:induction false} ProcessedAreShown(lines: seq<string>, errors: seq<ErrorInfo>, n: nat)
    requires n <= |lines|
    ensures forall j :: j in HighlightUpTo(lines, errors, n).processed ==> InSomeBlock(HighlightUpTo(lines, errors, n).blocks, j)
    ensures HighlightUpTo(lines, errors, n).thrown.None? ==>
      forall i :: 0 <= i < n ==> i in HighlightUpTo(lines, errors, n).processed
    decreases n
  {
    if n > 0 {
      ProcessedAreShown(lines, errors, n - 1);
      var h := HighlightUpTo(lines, errors, n - 1);
      var h' := HighlightUpTo(lines, errors, n);
      assert h' == Step(lines, errors, h, n - 1);
      StepKeepsShown(lines, errors, h, n - 1);
      StepGrowsProcessed(lines, errors, h, n - 1);
      if h'.thrown.None? {
        forall i | 0 <= i < n ensures i in h'.processed {
          if i < n - 1 {
            assert i in h.processed;
          }
        }
      }
    }
  }

  /**
   * When `highlightErrors` completes, every line is shown in at least one
   * block, each block fits its range, and there are at most as many blocks
   * as lines.
   */
  lemma EveryLineIsShown(lines: seq<string>, errors: seq<ErrorInfo>)
    requires Highlight(lines, errors).thrown.None?
    ensures |Highlight(lines, errors).blocks| <= |lines|
    ensures forall m :: 0 <= m < |Highlight(lines, errors).blocks| ==> BlockFits(lines, errors, Highlight(lines, errors).blocks[m])
    ensures forall i :: 0 <= i < |lines| ==> InSomeBlock(Highlight(lines, errors).blocks, i)
  {
    BlocksFit(lines, errors, |lines|);
    ProcessedAreShown(lines, errors, |lines|);
  }

  /** Errors whose start line is at least 1 never make `get` throw. */
  lemma {:induction false} PositiveStartsNeverThrow(lines: seq<string>, errors: seq<ErrorInfo>, n: nat)
    requires n <= |lines|
    requires forall k :: 0 <= k < |errors| ==> errors[k].startLine >= 1
    ensures HighlightUpTo(lines, errors, n).thrown.None?
    decreases n
  {
    if n > 0 {
      PositiveStartsNeverThrow(lines, errors, n - 1);
    }
  }

  /** The blocks shown when there are no errors: one single-line block per line, in line order. */
  function PlainBlocks(lines: seq<string>, n: nat): (r: seq<Block>)
    requires n <= |lines|
    ensures |r| == n
  {
    seq(n, i requires 0 <= i < n => Block(i, i, false, Some(""), Some(""), [lines[i]]))
  }

  /** With an empty error list every line is its own plain block, in order. */
  lemma {:induction false} NoErrorsPlainBlocks(lines: seq<string>, n: nat)
    requires n <= |lines|
    ensures HighlightUpTo(lines, [], n) == Highlighting(IndexRange(0, n - 1), PlainBlocks(lines, n), None)
    decreases n
  {
    if n > 0 {
      NoErrorsPlainBlocks(lines, n - 1);
      PlainBlocksGrow(lines, n);
    }
  }

  /** The plain blocks and processed lines for `n` lines extend those for `n - 1` by line `n - 1`. */
  lemma PlainBlocksGrow(lines: seq<string>, n: nat)
    requires 0 < n <= |lines|
    ensures n - 1 !in IndexRange(0, n - 2)
    ensures IndexRange(0, n - 2) + IndexRange(n - 1, n - 1) == IndexRange(0, n - 1)
    ensures lines[n - 1..n] == [lines[n - 1]]
    ensures PlainBlocks(lines, n - 1) + [Block(n - 1, n - 1, false, Some(""), Some(""), [lines[n - 1]])] == PlainBlocks(lines, n)
  {
    var i := n - 1;
    assert i !in IndexRange(0, n - 2);
    assert IndexRange(0, n - 2) + IndexRange(i, i) == IndexRange(0, n - 1);
    assert PlainBlocks(lines, n - 1) + [Block(i, i, false, Some(""), Some(""), [lines[i]])] == PlainBlocks(lines, n);
  }

  /** The search loop of `highlightErrors`: the position of the first error whose range holds line `i`. */
  method FindCoveringError(errorList: seq<ErrorInfo>, i: int) returns (k: nat)
    ensures k == FirstMatch(errorList, i)
  {
    k := 0;
    while k < |errorList|
      invariant 0 <= k <= |errorList|
      invariant forall m :: 0 <= m < k ==> !Covers(errorList[m], i)
    {
      var error := errorList[k];
      if i >= error.startLine - 1 && i <= error.endLine - 1 {
        return;
      }
      k := k + 1;
    }
  }

  /**
   * The collecting loop of `highlightErrors` for a block starting at an
   * existing line: the lines of the range that exist, and their indices.
   */
  method CollectBlock(lines: seq<string>, blockStart: nat, blockEnd: int) returns (block: seq<string>, added: seq<int>)
    requires blockStart <= blockEnd && blockStart < |lines|
    ensures block == lines[blockStart..Min(blockEnd + 1, |lines|)]
    ensures added == IndexRange(blockStart, Min(blockEnd + 1, |lines|) - 1)
  {
    block, added := [], [];
    var j := blockStart;
    while j <= blockEnd
      invariant blockStart <= j <= blockEnd + 1
      invariant block == lines[blockStart..Min(j, |lines|)] && added == IndexRange(blockStart, Min(j, |lines|) - 1)
      decreases blockEnd - j
    {
      if j < |lines| {
        block := block + [lines[j]];
        added := added + [j];
      }
      j := j + 1;
    }
  }

  /**
   * The body of the outer loop of `highlightErrors` for line `i`: skip a
   * line already shown, else find the error covering it and build its block
   * (or throw on a negative start).
   */
  method HighlightLine(lines: seq<string>, errorList: seq<ErrorInfo>, processedLines: seq<int>, blocks: seq<Block>, i: nat)
    returns (next: Highlighting)
    requires i < |lines|
    requires HighlightUpTo(lines, errorList, i) == Highlighting(processedLines, blocks, None)
    ensures next == HighlightUpTo(lines, errorList, i + 1)
  {
    if i in processedLines {
      return Highlighting(processedLines, blocks, None);
    }
    var k := FindCoveringError(errorList, i);
    var isErrorBlock := k < |errorList|;
    var errorMessage := if isErrorBlock then errorList[k].errorMessage else Some("");
    var errorDetails := if isErrorBlock then errorList[k].elementDetails else Some("");
    var blockStart := if isErrorBlock then errorList[k].startLine - 1 else i;
    var blockEnd := if isErrorBlock then errorList[k].endLine - 1 else i;
    if blockStart < 0 {
      var thrown := Error(IndexOutOfBounds, "Index " + IntToString(blockStart) + " out of bounds for length " + NatToString(|lines|));
      return Highlighting(processedLines, blocks, Some(thrown));
    }
    var block, added := CollectBlock(lines, blockStart, blockEnd);
    next := Highlighting(processedLines + added, blocks + [Block(blockStart, blockEnd, isErrorBlock, errorMessage, errorDetails, block)], None);
  }

  /**
   * The loop of `highlightErrors`: line after line, the blocks are built
   * until every line is shown or `get` throws.
   */
  method HighlightLines(lines: seq<string>, errorList: seq<ErrorInfo>) returns (result: Highlighting)
    ensures result == Highlight(lines, errorList)
  {
    var processedLines: seq<int> := [];
    var blocks: seq<Block> := [];
    var i := 0;
    while i < |lines|
      invariant 0 <= i <= |lines|
      invariant HighlightUpTo(lines, errorList, i) == Highlighting(processedLines, blocks, None)
    {
      var next := HighlightLine(lines, errorList, processedLines, blocks, i);
      if next.thrown.Some? {
        ThrownSticks(lines, errorList, i + 1, |lines|);
        return next;
      }
      processedLines, blocks := next.processed, next.blocks;
      i := i + 1;
    }
    result := Highlighting(processedLines, blocks, None);
  }

  /** `LoadVerifyController`: the displayed lines, their backup, the loaded ontology, and the list view's entries. */
  class LoadVerifyController {
    var ontologyLines: StringList
    var ontologyBackup: StringList
    var ontologyData: Ontology
    /** The `errors` field, which no method of the controller ever assigns. */
    var errors: seq<ErrorInfo>
    /** The entries of `ontologyListView`. */
    var listItems: seq<Block>

    /** `initialize()` */
    constructor ()
      ensures fresh(ontologyLines) && fresh(ontologyBackup) && fresh(ontologyData)
      ensures ontologyLines != ontologyBackup
      ensures ontologyLines.items == [] && ontologyBackup.items == [] && errors == [] && listItems == []
      ensures ontologyData.xmlData == None && ontologyData.ontologyName == None && ontologyData.ontologyExtension == None
    {
      ontologyLines := new StringList([]);
      ontologyBackup := new StringList([]);
      ontologyData := new Ontology.Empty();
      errors := [];
      listItems := [];
    }

    /**
     * `highlightErrors(errorList)`: the list view is cleared and refilled
     * block by block; if `get` throws, the blocks built before it stay. The
     * blocks are built by `HighlightLines` and installed once it returns,
     * which leaves the same list view.
     */
    method HighlightErrors(errorList: seq<ErrorInfo>) returns (thrown: Option<Error>)
      modifies this
      ensures listItems == Highlight(old(ontologyLines.items), errorList).blocks
      ensures thrown == Highlight(old(ontologyLines.items), errorList).thrown
      ensures ontologyLines == old(ontologyLines) && ontologyBackup == old(ontologyBackup)
      ensures ontologyData == old(ontologyData) && errors == old(errors)
    {
      var result := HighlightLines(ontologyLines.items, errorList);
      listItems, thrown := result.blocks, result.thrown;
    }

    /**
     * The part of `verifyFile` that serialises the displayed lines: each line
     * followed by a newline becomes the ontology's XML data.
     */
    method SerializeLines()
      modifies ontologyData
      ensures ontologyData.xmlData == Some(LinesText(ontologyLines.items))
      ensures ontologyData.ontologyName == old(ontologyData.ontologyName)
      ensures ontologyData.ontologyExtension == old(ontologyData.ontologyExtension)
    {
      var lines := ontologyLines.items;
      var data := "";
      var i := 0;
      while i < |lines|
        invariant 0 <= i <= |lines|
        invariant data == LinesText(lines[..i])
        invariant unchanged(ontologyData)
      {
        LinesTextAppend(lines[..i], lines[i]);
        assert lines[..i + 1] == lines[..i] + [lines[i]];
        data := data + lines[i] + "\n";
        i := i + 1;
      }
      assert lines[..i] == lines;
      ontologyData.SetXmlData(Some(data));
    }

    /** `getOntologyLines()`: a fresh copy of the displayed lines. */
    method GetOntologyLines() returns (copy: StringList)
      ensures fresh(copy) && copy.items == ontologyLines.items
    {
      copy := new StringList(ontologyLines.items);
    }

    /**
     * `setOntologyLines(l)`: the displayed list is cleared and refilled from
     * `l`; when `l` is that very list, the clear empties it first.
     */
    method SetOntologyLines(l: StringList)
      modifies ontologyLines
      ensures ontologyLines.items == if l == ontologyLines then [] else old(l.items)
    {
      ontologyLines.items := [];
      ontologyLines.items := ontologyLines.items + l.items;
    }

    /**
     * The part of `loadOntologyFile` after a file was chosen: the file's
     * lines (if it could be read) become the XML data, the name loses its
     * `.xml`, `.rdf` and `.owl` parts and the extension is what follows the
     * last dot; then the XML is displayed.
     */
    method LoadOntologyFile(fileName: string, fileContents: Option<string>)
      modifies this, ontologyData
      ensures ontologyData == old(ontologyData)
      ensures ontologyData.xmlData == if fileContents.Some? then Some(LinesText(ReaderLines(fileContents.value))) else old(ontologyData.xmlData)
      ensures ontologyData.ontologyName == Some(OntologyNameOf(fileName))
      ensures ontologyData.ontologyExtension == Some(ExtensionOf(fileName))
      ensures Displayable(ontologyData.xmlData) ==>
        fresh(ontologyLines) && ontologyLines.items == JavaSplit(ontologyData.xmlData.value, '\n')
        && listItems == PlainBlocks(ontologyLines.items, |ontologyLines.items|)
      ensures !(Displayable(ontologyData.xmlData)) ==>
        ontologyLines == old(ontologyLines) && listItems == old(listItems)
      ensures ontologyBackup == old(ontologyBackup) && errors == old(errors)
    {
      ReadOntologyFile(fileName, fileContents);
      DisplayXmlData();
    }

    /**
     * The reading step of `loadOntologyFile`: the file's lines (if it could
     * be read) become the XML data; name and extension come from the file name.
     */
    method ReadOntologyFile(fileName: string, fileContents: Option<string>)
      modifies ontologyData
      ensures ontologyData.xmlData == if fileContents.Some? then Some(LinesText(ReaderLines(fileContents.value))) else old(ontologyData.xmlData)
      ensures ontologyData.ontologyName == Some(OntologyNameOf(fileName))
      ensures ontologyData.ontologyExtension == Some(ExtensionOf(fileName))
    {
      if fileContents.Some? {
        ontologyData.SetXmlData(Some(LinesText(ReaderLines(fileContents.value))));
      }
      ontologyData.SetOntologyName(Some(OntologyNameOf(fileName)));
      ontologyData.SetOntologyExtension(Some(ExtensionOf(fileName)));
    }

    /**
     * The display step of `loadOntologyFile`: non-empty XML is split on
     * newlines into a new list of displayed lines, shown without errors.
     */
    method DisplayXmlData()
      modifies this
      ensures ontologyData == old(ontologyData)
      ensures Displayable(ontologyData.xmlData) ==>
        fresh(ontologyLines) && ontologyLines.items == JavaSplit(ontologyData.xmlData.value, '\n')
        && listItems == PlainBlocks(ontologyLines.items, |ontologyLines.items|)
      ensures !(Displayable(ontologyData.xmlData)) ==>
        ontologyLines == old(ontologyLines) && listItems == old(listItems)
      ensures ontologyBackup == old(ontologyBackup) && errors == old(errors)
    {
      var xml := ontologyData.xmlData;
      if Displayable(xml) {
        ontologyLines := new StringList(JavaSplit(xml.value, '\n'));
        NoErrorsPlainBlocks(ontologyLines.items, |ontologyLines.items|);
        var _ := HighlightErrors([]);
      }
    }
  }

  /** XML data `displayXmlData` shows: present and not empty. */
  predicate Displayable(xmlData: Option<string>) {
    xmlData.Some? && xmlData.value != []
  }

  /** `file.getName()` without its `.xml`, `.rdf` and `.owl` parts, removed in that order. */
  function OntologyNameOf(fileName: string): string {
    RemoveEach(fileName, [".xml", ".rdf", ".owl"])
  }

  /** Every occurrence of each part removed, one part after the other. */
  function RemoveEach(s: string, parts: seq<string>): string
    decreases |parts|
  {
    if parts == [] then s else RemoveEach(ReplaceAll(s, parts[0], ""), parts[1..])
  }

  /** Removing a dot-led part from a dot-free base followed by a tail only touches the tail. */
  lemma {:induction false} RemoveSkipsDotFree(base: string, tail: string, part: string)
    requires '.' !in base && part != [] && part[0] == '.'
    ensures ReplaceAll(base + tail, part, "") == base + ReplaceAll(tail, part, "")
    decreases |base|
  {
    if base != [] {
      var s := base + tail;
      FirstCharDiffers(base, tail, part);
      assert s[0] == base[0] && s[1..] == base[1..] + tail;
      assert ReplaceAll(s, part, "") == [base[0]] + ReplaceAll(base[1..] + tail, part, "");
      assert '.' !in base[1..];
      RemoveSkipsDotFree(base[1..], tail, part);
      var rest := ReplaceAll(tail, part, "");
      assert [base[0]] + (base[1..] + rest) == ([base[0]] + base[1..]) + rest;
      assert [base[0]] + base[1..] == base;
    } else {
      assert base + tail == tail;
    }
  }

  /** A dot-led extension is removed exactly when it is the part removed. */
  lemma RemoveExtension(ext: string, part: string)
    requires '.' !in ext && '.' !in part && |ext| == |part|
    ensures ReplaceAll("." + ext, "." + part, "") == if ext == part then "" else "." + ext
  {
    var s := "." + ext;
    if ext == part {
      assert StartsWith(s, "." + part);
      assert s[|"." + part|..] == [];
    } else {
      assert s[1..] == ext;
      MissingFirstChar(ext, "." + part);
      ReplaceAbsent(ext, "." + part, "");
    }
  }

  /** A dot-free name loses nothing to dot-led parts. */
  lemma {:induction false} RemoveEachDotFree(base: string, parts: seq<string>)
    requires '.' !in base
    requires forall k :: 0 <= k < |parts| ==> parts[k] != [] && parts[k][0] == '.'
    ensures RemoveEach(base, parts) == base
    decreases |parts|
  {
    if parts != [] {
      MissingFirstChar(base, parts[0]);
      ReplaceAbsent(base, parts[0], "");
      RemoveEachDotFree(base, parts[1..]);
    }
  }

  /** A dot-free base with a dot-free extension loses the extension exactly when it is one of the parts. */
  lemma {:induction false} RemoveEachExtension(base: string, ext: string, parts: seq<string>)
    requires '.' !in base && '.' !in ext
    requires forall k :: 0 <= k < |parts| ==>
      |parts[k]| == |ext| + 1 && parts[k][0] == '.' && '.' !in parts[k][1..]
    ensures RemoveEach(base + "." + ext, parts) == if "." + ext in parts then base else base + "." + ext
    decreases |parts|
  {
    if parts != [] {
      var part := parts[0];
      assert part == "." + part[1..];
      assert base + "." + ext == base + ("." + ext);
      RemoveSkipsDotFree(base, "." + ext, part);
      RemoveExtension(ext, part[1..]);
      assert "." + ext in parts <==> "." + ext == part || "." + ext in parts[1..];
      if "." + ext == part {
        assert ReplaceAll(base + "." + ext, part, "") == base;
        RemoveEachDotFree(base, parts[1..]);
      } else {
        assert ReplaceAll(base + "." + ext, part, "") == base + "." + ext;
        RemoveEachExtension(base, ext, parts[1..]);
      }
    }
  }

  /**
   * A file the dialog's filter offers, a dot-free name followed by `.xml`,
   * `.rdf` or `.owl`, is named without its extension, and its extension is
   * what follows the dot; a name without any dot is both name and extension.
   */
  lemma FilteredFileName(base: string, ext: string)
    requires '.' !in base && ext in ["xml", "rdf", "owl"]
    ensures OntologyNameOf(base + "." + ext) == base
    ensures ExtensionOf(base + "." + ext) == ext
    ensures OntologyNameOf(base) == base && ExtensionOf(base) == base
  {
    var parts := [".xml", ".rdf", ".owl"];
    assert "." + ext in parts by {
      if ext == "xml" { assert "." + ext == parts[0]; }
      else if ext == "rdf" { assert "." + ext == parts[1]; }
      else { assert "." + ext == parts[2]; }
    }
    RemoveEachExtension(base, ext, parts);
    RemoveEachDotFree(base, parts);
    var f := base + "." + ext;
    var r := ExtensionOf(f);
    assert '.' in f by {
      assert f[|base|] == '.';
    }
    assert r == f[|f| - |r|..] == ext;
  }

  /** What follows the last dot of the file name, or the whole name if it has none. */
  function ExtensionOf(fileName: string): (r: string)
    ensures '.' !in r
    ensures '.' !in fileName ==> r == fileName
    ensures '.' in fileName ==> |r| < |fileName| && fileName == fileName[..|fileName| - |r| - 1] + "." + r
  {
    var i := LastIndexOf(fileName, '.');
    var r := fileName[i + 1..];
    assert i < 0 ==> r == fileName;
    assert i >= 0 ==> '.' in fileName && |fileName| - |r| - 1 == i && fileName == fileName[..i] + "." + r;
    r
  }

  /**
   * Displayed lines survive a verify-then-reload cycle: splitting the
   * serialised text gives the lines back, less trailing empty lines.
   */
  lemma DisplayRoundTrip(lines: seq<string>)
    requires lines != []
    requires forall k :: 0 <= k < |lines| ==> '\n' !in lines[k]
    ensures JavaSplit(LinesText(lines), '\n') == DropTrailingEmpty(lines)
    ensures lines[|lines| - 1] != [] ==> JavaSplit(LinesText(lines), '\n') == lines
  {
    SplitUndoesLinesText(lines);
  }

  /**
   * Loading a non-empty file displays its lines as `readLine` yields them,
   * less trailing empty lines.
   */
  lemma LoadedLinesAreFileLines(contents: string)
    requires contents != []
    ensures JavaSplit(LinesText(ReaderLines(contents)), '\n') == DropTrailingEmpty(ReaderLines(contents))
  {
    SplitUndoesLinesText(ReaderLines(contents));
  }
}
