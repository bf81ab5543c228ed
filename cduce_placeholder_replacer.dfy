/**
 * CDucePlaceholderReplacer: copies a CDuce source file line by line,
 * replacing placeholder keys by their values in each line. The input file is
 * given by its contents (`None` when it does not exist); the output file is
 * the text written, with the platform's line separator after every line.
 */
module CDucePlaceholderReplacer {
  import opened Text
  import opened Data

  /** The placeholder map's entries, in the order its iteration yields them. */
  type Placeholders = seq<Pair<string, string>>

  /** One line after every entry has been applied, one after another, as a replace-all. */
  function ApplyAll(line: string, placeholders: Placeholders): string
    decreases |placeholders|
  {
    if placeholders == [] then line
    else
      var last := placeholders[|placeholders| - 1];
      ReplaceAll(ApplyAll(line, placeholders[..|placeholders| - 1]), last.first, last.second)
  }

  /** The text written for a list of lines: each edited line followed by the separator. */
  function Written(lines: seq<string>, placeholders: Placeholders, lineSeparator: string): string
    decreases |lines|
  {
    if lines == [] then []
    else Written(lines[..|lines| - 1], placeholders, lineSeparator) + ApplyAll(lines[|lines| - 1], placeholders) + lineSeparator
  }

  /** The source files of one replacement: where to read and where the result goes. */
  class Replacer {
    const cduceCodeInputPath: string
    const cduceCodeOutputPath: string

    constructor (inputPath: string, outputPath: string)
      ensures cduceCodeInputPath == inputPath && cduceCodeOutputPath == outputPath
    {
      cduceCodeInputPath := inputPath;
      cduceCodeOutputPath := outputPath;
    }

    /**
     * `replacer`: a missing input file is an exception naming its path;
     * otherwise every line `readLine` yields is edited and written followed
     * by the line separator.
     */
    method Replace(placeholders: Placeholders, inputFile: Option<string>, lineSeparator: string) returns (r: Result<string>)
      ensures inputFile.None? ==> r == Fail(Error(Checked, "File not found: " + cduceCodeInputPath))
      ensures inputFile.Some? ==> r == Ok(Written(ReaderLines(inputFile.value), placeholders, lineSeparator))
    {
      if inputFile.None? {
        return Fail(Error(Checked, "File not found: " + cduceCodeInputPath));
      }
      var lines := ReaderLines(inputFile.value);
      var written := [];
      var i := 0;
      while i < |lines|
        invariant 0 <= i <= |lines|
        invariant written == Written(lines[..i], placeholders, lineSeparator)
      {
        var line := lines[i];
        var j := 0;
        while j < |placeholders|
          invariant 0 <= j <= |placeholders|
          invariant line == ApplyAll(lines[i], placeholders[..j])
        {
          assert placeholders[..j + 1][..j] == placeholders[..j];
          line := ReplaceAll(line, placeholders[j].first, placeholders[j].second);
          j := j + 1;
        }
        assert placeholders[..j] == placeholders;
        assert lines[..i + 1][..i] == lines[..i];
        written := written + line + lineSeparator;
        i := i + 1;
      }
      assert lines[..i] == lines;
      r := Ok(written);
    }
  }

  /** No key of the map occurs in the line. */
  predicate FreeOfKeys(line: string, placeholders: Placeholders) {
    forall k :: 0 <= k < |placeholders| ==> !Contains(line, placeholders[k].first)
  }

  /** A line holding none of the keys comes through unchanged. */
  lemma {:induction false} LineWithoutKeysUnchanged(line: string, placeholders: Placeholders)
    requires FreeOfKeys(line, placeholders)
    ensures ApplyAll(line, placeholders) == line
    decreases |placeholders|
  {
    if placeholders != [] {
      var init := placeholders[..|placeholders| - 1];
      assert FreeOfKeys(line, init) by {
        forall k | 0 <= k < |init| ensures !Contains(line, init[k].first) {
          assert init[k] == placeholders[k];
        }
      }
      LineWithoutKeysUnchanged(line, init);
      ReplaceAbsent(line, placeholders[|placeholders| - 1].first, placeholders[|placeholders| - 1].second);
    }
  }

  /** Writing the lines one after another is writing each part in turn. */
  lemma {:induction false} WrittenAppend(a: seq<string>, b: seq<string>, placeholders: Placeholders, lineSeparator: string)
    ensures Written(a + b, placeholders, lineSeparator)
      == Written(a, placeholders, lineSeparator) + Written(b, placeholders, lineSeparator)
    decreases |b|
  {
    if b == [] {
      assert a + b == a;
    } else {
      var init := b[..|b| - 1];
      assert (a + b)[..|a + b| - 1] == a + init;
      WrittenAppend(a, init, placeholders, lineSeparator);
    }
  }

  /** One line in, one line out: the output holds as many separators as the input has lines. */
  lemma {:induction false} OneOutputLinePerInputLine(lines: seq<string>, placeholders: Placeholders)
    requires forall k :: 0 <= k < |lines| ==> '\n' !in ApplyAll(lines[k], placeholders)
    ensures SplitAll(Written(lines, placeholders, "\n"), '\n') == seq(|lines|, k requires 0 <= k < |lines| => ApplyAll(lines[k], placeholders)) + [[]]
    decreases |lines|
  {
    var edited := seq(|lines|, k requires 0 <= k < |lines| => ApplyAll(lines[k], placeholders));
    WrittenIsLinesText(lines, placeholders);
    SplitLinesText(edited);
  }

  /** With `\n` as separator, the output is the edited lines as newline-terminated text. */
  lemma {:induction false} WrittenIsLinesText(lines: seq<string>, placeholders: Placeholders)
    ensures Written(lines, placeholders, "\n") == LinesText(seq(|lines|, k requires 0 <= k < |lines| => ApplyAll(lines[k], placeholders)))
    decreases |lines|
  {
    if lines != [] {
      var init := lines[..|lines| - 1];
      WrittenIsLinesText(init, placeholders);
      var edited := seq(|lines|, k requires 0 <= k < |lines| => ApplyAll(lines[k], placeholders));
      var editedInit := seq(|init|, k requires 0 <= k < |init| => ApplyAll(init[k], placeholders));
      assert edited == editedInit + [ApplyAll(lines[|lines| - 1], placeholders)];
      LinesTextAppend(editedInit, ApplyAll(lines[|lines| - 1], placeholders));
    }
  }

  /**
   * Substitution is per line: when no single line holds a key, the file is
   * copied line for line even if a key spans a line break.
   */
  lemma {:induction false} SplitKeysSurvive(lines: seq<string>, placeholders: Placeholders, lineSeparator: string)
    requires forall k :: 0 <= k < |lines| ==> FreeOfKeys(lines[k], placeholders)
    ensures Written(lines, placeholders, lineSeparator) == Written(lines, [], lineSeparator)
    decreases |lines|
  {
    if lines != [] {
      var init := lines[..|lines| - 1];
      SplitKeysSurvive(init, placeholders, lineSeparator);
      LineWithoutKeysUnchanged(lines[|lines| - 1], placeholders);
    }
  }

  /** The file `{A\nB}\n` reads as the two lines `{A` and `B}`. */
  lemma BrokenKeyLines()
    ensures ReaderLines("{A\nB}\n") == ["{A", "B}"]
  {
    var lines := ["{A", "B}"];
    ReadLinesText(lines);
    assert LinesText(lines) == "{A\nB}\n";
  }

  /** Neither half holds the key `{AB}`. */
  lemma BrokenKeyHalvesAreFree()
    ensures FreeOfKeys("{A", [Pair("{AB}", "x")]) && FreeOfKeys("B}", [Pair("{AB}", "x")])
  {
    MissingFirstChar("B}", "{AB}");
    assert !Contains("{A", "{AB}") by {
      assert !StartsWith("{A", "{AB}");
      assert !StartsWith("A", "{AB}") && !StartsWith("", "{AB}");
    }
  }

  /** Without keys the two lines are written back as they were read. */
  lemma BrokenKeyLinesWritten()
    ensures Written(["{A", "B}"], [], "\n") == "{A\nB}\n"
  {
    var lines := ["{A", "B}"];
    assert lines[..1] == ["{A"] && lines[..1][..0] == [];
  }

  /** A key broken by a newline is left in the output as it was. */
  lemma BrokenKeyIsKept()
    ensures Written(ReaderLines("{A\nB}\n"), [Pair("{AB}", "x")], "\n") == "{A\nB}\n"
  {
    var lines := ["{A", "B}"];
    BrokenKeyLines();
    BrokenKeyHalvesAreFree();
    SplitKeysSurvive(lines, [Pair("{AB}", "x")], "\n");
    BrokenKeyLinesWritten();
  }
}
