/**
 * PopupController: the "Fix" popup of an error block. Saving replaces the
 * block's lines by the edited text, split on newlines; removing deletes the
 * block's lines. Both work on a copy of the displayed lines and write it
 * back, then refresh the highlighting.
 */
module PopupController {
  import opened Text
  import opened Data
  import opened LoadVerifyController

  /** `lines[..from] + insert + lines[to..]`, described position by position. */
  function Splice(lines: seq<string>, from: nat, to: nat, insert: seq<string>): (r: seq<string>)
    requires from <= to <= |lines|
    ensures |r| == |lines| - (to - from) + |insert|
    ensures forall k :: 0 <= k < from ==> r[k] == lines[k]
    ensures forall t :: 0 <= t < |insert| ==> r[from + t] == insert[t]
    ensures forall k :: from + |insert| <= k < |r| ==> r[k] == lines[k - |insert| + to - from]
  {
    lines[..from] + insert + lines[to..]
  }

  /** Putting the removed lines back where the replacement went restores the list. */
  lemma SpliceUndo(lines: seq<string>, from: nat, to: nat, insert: seq<string>)
    requires from <= to <= |lines|
    ensures Splice(Splice(lines, from, to, insert), from, from + |insert|, lines[from..to]) == lines
  {
    var once := Splice(lines, from, to, insert);
    assert once[..from] == lines[..from];
    assert once[from + |insert|..] == lines[to..];
    assert lines[..from] + lines[from..to] + lines[to..] == lines;
  }

  /** Splicing in nothing removes the range. */
  lemma SpliceNothing(lines: seq<string>, from: nat, to: nat)
    requires from <= to <= |lines|
    ensures Splice(lines, from, to, []) == lines[..from] + lines[to..]
  {
    assert lines[..from] + [] == lines[..from];
  }

  /** Removing the range and then inserting at its start is splicing. */
  lemma SpliceByRemoveThenInsert(lines: seq<string>, from: nat, to: nat, insert: seq<string>)
    requires from <= to <= |lines|
    ensures var removed := lines[..from] + lines[to..];
      Splice(lines, from, to, insert) == removed[..from] + insert + removed[from..]
  {
    var removed := lines[..from] + lines[to..];
    assert removed[..from] == lines[..from];
    assert removed[from..] == lines[to..];
  }

  /**
   * The text the popup is opened with (`openDiffDialog`): the block's
   * lines that exist, joined with newlines; `subList` throws when the block
   * starts after its end, clipped to the list.
   */
  function PopupText(lines: seq<string>, startIndex: nat, endIndex: int): (r: Result<string>)
    ensures r.Fail? <==> startIndex > endIndex + 1 || startIndex > |lines|
    ensures r.Fail? ==> r.error.kind == IllegalArgument
    ensures r.Ok? && startIndex <= endIndex < |lines| ==> r.value == Join(lines[startIndex..endIndex + 1], "\n")
  {
    var stop := if endIndex + 1 < |lines| then endIndex + 1 else |lines|;
    if stop < startIndex then Fail(SubListError(startIndex, stop - 1, |lines|))
    else Ok(Join(lines[startIndex..stop], "\n"))
  }

  /** Splitting a block joined with newlines gives it back, unless it ends in an empty line. */
  lemma SplitJoinedBlock(block: seq<string>)
    requires block != []
    requires forall k :: 0 <= k < |block| ==> '\n' !in block[k]
    requires |block| == 1 || block[|block| - 1] != []
    ensures JavaSplit(Join(block, "\n"), '\n') == block
  {
    if |block| > 1 {
      SplitJoin(block, '\n');
      assert Join(block, "\n")[|block[0]|] == '\n';
    }
  }

  /**
   * Saving the popup's text unedited leaves the lines as they were, as long
   * as the block lies inside the list and does not end in an empty line
   * (Java's `split` would drop it).
   */
  lemma UneditedSaveKeepsLines(lines: seq<string>, startIndex: nat, endIndex: nat)
    requires startIndex <= endIndex < |lines|
    requires forall k :: startIndex <= k <= endIndex ==> '\n' !in lines[k]
    requires startIndex == endIndex || lines[endIndex] != []
    ensures PopupText(lines, startIndex, endIndex).Ok?
    ensures Splice(lines, startIndex, endIndex + 1, JavaSplit(PopupText(lines, startIndex, endIndex).value, '\n')) == lines
  {
    var block := lines[startIndex..endIndex + 1];
    assert PopupText(lines, startIndex, endIndex) == Ok(Join(block, "\n"));
    assert forall k :: 0 <= k < |block| ==> '\n' !in block[k] by {
      forall k | 0 <= k < |block| ensures '\n' !in block[k] {
        assert block[k] == lines[startIndex + k];
      }
    }
    assert block[|block| - 1] == lines[endIndex];
    SplitJoinedBlock(block);
    SpliceSame(lines, startIndex, endIndex + 1);
  }

  /** Putting a range's own lines back in its place changes nothing. */
  lemma SpliceSame(lines: seq<string>, from: nat, to: nat)
    requires from <= to <= |lines|
    ensures Splice(lines, from, to, lines[from..to]) == lines
  {
    var r := Splice(lines, from, to, lines[from..to]);
    forall k | 0 <= k < |r| ensures r[k] == lines[k] {
      if from <= k < to {
        assert r[from + (k - from)] == lines[from..to][k - from];
      }
    }
  }

  /** `subList(lineIndex, endIndex + 1)` on a list of `size` elements accepts the range. */
  predicate SubListOk(lineIndex: nat, endIndex: int, size: nat) {
    lineIndex <= endIndex + 1 <= size
  }

  /** The exception `subList` throws for a rejected range: an end past the list first, then a reversed range. */
  function SubListError(lineIndex: nat, endIndex: int, size: nat): (e: Error)
    requires !SubListOk(lineIndex, endIndex, size)
    ensures e.kind == IndexOutOfBounds <==> endIndex + 1 > size
  {
    if endIndex + 1 > size then Error(IndexOutOfBounds, "toIndex = " + IntToString(endIndex + 1))
    else Error(IllegalArgument, "fromIndex(" + NatToString(lineIndex) + ") > toIndex(" + IntToString(endIndex + 1) + ")")
  }

  /**
   * The insertion loop of `saveChanges`: `add(at + i, text[i])` for each
   * line in turn puts `text` between `list[..at]` and `list[at..]`.
   */
  method InsertLines(list: StringList, at: nat, text: seq<string>)
    requires at <= |list.items|
    modifies list
    ensures list.items == old(list.items)[..at] + text + old(list.items)[at..]
  {
    ghost var lines := list.items;
    var i := 0;
    while i < |text|
      invariant 0 <= i <= |text|
      invariant list.items == lines[..at] + text[..i] + lines[at..]
    {
      ghost var before := list.items;
      list.items := list.items[..at + i] + [text[i]] + list.items[at + i..];
      assert before[..at + i] == lines[..at] + text[..i];
      assert before[at + i..] == lines[at..];
      assert text[..i + 1] == text[..i] + [text[i]];
      i := i + 1;
    }
    assert text[..i] == text;
  }

  /** `PopupController`: the block being fixed, the edited text, and the controller that opened the popup. */
  class PopupController {
    var lineIndex: int
    var endIndex: int
    var editedText: string
    var parentController: LoadVerifyController

    /** `setPopupContext`: the block's range, the text shown for editing and the parent controller. */
    constructor (lineIndex: int, endIndex: int, errorText: string, parentController: LoadVerifyController)
      ensures this.lineIndex == lineIndex && this.endIndex == endIndex
      ensures editedText == errorText && this.parentController == parentController
    {
      this.lineIndex := lineIndex;
      this.endIndex := endIndex;
      this.editedText := errorText;
      this.parentController := parentController;
    }

    /**
     * `removeLine()`: with `lineIndex` outside the lines nothing happens;
     * otherwise the block's lines are deleted from a copy, which becomes the
     * displayed lines, and the highlighting is rebuilt with the controller's
     * errors. A range `subList` rejects throws before anything is written.
     */
    method RemoveLine() returns (thrown: Option<Error>)
      modifies parentController, parentController.ontologyLines
      ensures parentController == old(parentController)
      ensures parentController.ontologyLines == old(parentController.ontologyLines)
      ensures parentController.errors == old(parentController.errors)
      ensures parentController.ontologyBackup == old(parentController.ontologyBackup)
      ensures parentController.ontologyData == old(parentController.ontologyData)
      ensures var lines := old(parentController.ontologyLines.items);
        if lineIndex < 0 || lineIndex >= |lines| then
          thrown == None && unchanged(parentController, parentController.ontologyLines)
        else if !SubListOk(lineIndex, endIndex, |lines|) then
          thrown == Some(SubListError(lineIndex, endIndex, |lines|)) && unchanged(parentController, parentController.ontologyLines)
        else
          parentController.ontologyLines.items == Splice(lines, lineIndex, endIndex + 1, [])
          && parentController.listItems == Highlight(parentController.ontologyLines.items, old(parentController.errors)).blocks
          && thrown == Highlight(parentController.ontologyLines.items, old(parentController.errors)).thrown
    {
      var size := |parentController.ontologyLines.items|;
      if lineIndex < 0 || lineIndex >= size {
        return None;
      }
      var ontologyLines := parentController.GetOntologyLines();
      if !SubListOk(lineIndex, endIndex, |ontologyLines.items|) {
        return Some(SubListError(lineIndex, endIndex, size));
      }
      ontologyLines.items := ontologyLines.items[..lineIndex] + ontologyLines.items[endIndex + 1..];
      SpliceNothing(parentController.ontologyLines.items, lineIndex, endIndex + 1);
      parentController.SetOntologyLines(ontologyLines);
      thrown := parentController.HighlightErrors(parentController.errors);
    }

    /**
     * `saveChanges()`: as `removeLine`, but the edited text, split on
     * newlines, is inserted line by line where the block was.
     */
    method SaveChanges() returns (thrown: Option<Error>)
      modifies parentController, parentController.ontologyLines
      ensures parentController == old(parentController)
      ensures parentController.ontologyLines == old(parentController.ontologyLines)
      ensures parentController.errors == old(parentController.errors)
      ensures parentController.ontologyBackup == old(parentController.ontologyBackup)
      ensures parentController.ontologyData == old(parentController.ontologyData)
      ensures var lines := old(parentController.ontologyLines.items);
        if lineIndex < 0 || lineIndex >= |lines| then
          thrown == None && unchanged(parentController, parentController.ontologyLines)
        else if !SubListOk(lineIndex, endIndex, |lines|) then
          thrown == Some(SubListError(lineIndex, endIndex, |lines|)) && unchanged(parentController, parentController.ontologyLines)
        else
          parentController.ontologyLines.items == Splice(lines, lineIndex, endIndex + 1, JavaSplit(editedText, '\n'))
          && parentController.listItems == Highlight(parentController.ontologyLines.items, old(parentController.errors)).blocks
          && thrown == Highlight(parentController.ontologyLines.items, old(parentController.errors)).thrown
    {
      var size := |parentController.ontologyLines.items|;
      if lineIndex < 0 || lineIndex >= size {
        return None;
      }
      var ontologyLines := parentController.GetOntologyLines();
      var text := JavaSplit(editedText, '\n');
      if !SubListOk(lineIndex, endIndex, |ontologyLines.items|) {
        return Some(SubListError(lineIndex, endIndex, size));
      }
      SpliceByRemoveThenInsert(ontologyLines.items, lineIndex, endIndex + 1, text);
      ontologyLines.items := ontologyLines.items[..lineIndex] + ontologyLines.items[endIndex + 1..];
      InsertLines(ontologyLines, lineIndex, text);
      parentController.SetOntologyLines(ontologyLines);
      thrown := parentController.HighlightErrors(parentController.errors);
    }
  }
}
