/**
 * CDuceCommandExecutor: runs the generated CDuce programs in a WSL shell and
 * classifies what they print. The shell is an oracle from the command list
 * to its output (Java's `null` for no output).
 */
module CDuceCommandExecutor {
  import opened Text
  import opened Data
  import opened PathUtility

  /** What the verification program prints for a valid ontology. */
  const ValidReport := "LOADED\nVALID ONTOLOGY\n"
  /** What it prints for an ontology that breaks the structure. */
  const InvalidReport := "LOADED\nINVALID ONTOLOGY\n"
  /** What it prints when the XML does not load. */
  const SyntaxErrorReport := "SYNTAX ERROR\nVALID ONTOLOGY\n"

  const VerifyScript := "verify_code.cd"
  const TransformScript := "transform_code.cd"

  /** The environment entries the executor reads (`ONTOLOGY_INPUT`, `..._ABSOLUTE`, `CDUCE_CODE_PATH_ABSOLUTE`). */
  datatype Environment = Environment(
    ontologyInput: string,
    ontologyInputAbsolute: string,
    ontologyOutputAbsolute: string,
    cduceCodePathAbsolute: string)

  /** The shell: the output of running a list of commands, `None` for Java's `null`. */
  type Shell = seq<string> -> Option<string>

  /** `prepareCommands`: change into the (WSL form of the) code directory, then run the script. */
  function PrepareCommands(cdPath: string, script: string): (commands: seq<string>)
    ensures |commands| == 2
    ensures StartsWith(commands[0], "cd ") && commands[0][3..] == ConvertToWslPath(cdPath)
    ensures StartsWith(commands[1], "cduce ") && commands[1][6..] == script
  {
    var cd := "cd " + ConvertToWslPath(cdPath);
    var run := "cduce " + script;
    assert cd[..3] == "cd " && run[..6] == "cduce ";
    [cd, run]
  }

  /** A Windows code directory is entered through its `/mnt/` mount; any other path is used as given. */
  lemma CommandsEnterWslDirectory(cdPath: string, script: string)
    ensures Contains(cdPath, DriveMarker) ==> StartsWith(PrepareCommands(cdPath, script)[0][3..], MountPrefix)
    ensures !Contains(cdPath, DriveMarker) ==> PrepareCommands(cdPath, script)[0] == "cd " + cdPath
  {
    if Contains(cdPath, DriveMarker) {
      ConvertedShape(cdPath);
    }
  }

  /** `executeShellCommands`: a `null` output is an exception, never a verdict. */
  function CheckShellOutput(output: Option<string>): (r: Result<string>)
    ensures r.Ok? <==> output.Some?
    ensures r.Ok? ==> r.value == output.value
    ensures r.Fail? ==> r.error == Error(Checked, "Unexpected output: null")
  {
    match output
    case None => Fail(Error(Checked, "Unexpected output: null"))
    case Some(text) => Ok(text)
  }

  /**
   * `parseVerificationOutput`: the valid report wins over everything else;
   * otherwise the invalid or the syntax-error report means "not valid", and
   * any other output is an exception that quotes it.
   */
  function ParseVerificationOutput(output: string): (r: Result<bool>)
    ensures r == Ok(true) <==> Contains(output, ValidReport)
    ensures r == Ok(false) <==>
      !Contains(output, ValidReport) && (Contains(output, InvalidReport) || Contains(output, SyntaxErrorReport))
    ensures r.Fail? ==> r.error == Error(Checked, "Unexpected output from CDuce verification: " + output)
  {
    if Contains(output, ValidReport) then Ok(true)
    else if Contains(output, InvalidReport) || Contains(output, SyntaxErrorReport) then Ok(false)
    else Fail(Error(Checked, "Unexpected output from CDuce verification: " + output))
  }

  /**
   * Once the output holds a report, more output around it never turns the
   * verdict into an exception, and a "valid" verdict stays "valid".
   */
  lemma VerdictSurvivesMoreOutput(before: string, output: string, after: string)
    requires ParseVerificationOutput(output).Ok?
    ensures ParseVerificationOutput(before + output + after).Ok?
    ensures ParseVerificationOutput(output) == Ok(true) ==> ParseVerificationOutput(before + output + after) == Ok(true)
  {
    if Contains(output, ValidReport) {
      ContainsInside(before, output, after, ValidReport);
    } else if Contains(output, InvalidReport) {
      ContainsInside(before, output, after, InvalidReport);
    } else {
      ContainsInside(before, output, after, SyntaxErrorReport);
    }
  }

  /** An output with no line starting a report (no `L`, no `S`) is always an exception. */
  lemma SilentOutputIsUnexpected(output: string)
    requires 'L' !in output && 'S' !in output
    ensures ParseVerificationOutput(output).Fail?
  {
    MissingFirstChar(output, ValidReport);
    MissingFirstChar(output, InvalidReport);
    MissingFirstChar(output, SyntaxErrorReport);
  }

  /**
   * `parseTransformationOutput`: `LOADED` with `FILE SAVED` gives the
   * ontology read back from the output file (`true`); `LOADED` with
   * `FAILED` and no `FILE SAVED` gives `null` (`false`); anything else is
   * an exception that quotes the output.
   */
  function ParseTransformationOutput(output: string): (r: Result<bool>)
    ensures r == Ok(true) <==> Contains(output, "LOADED") && Contains(output, "FILE SAVED")
    ensures r == Ok(false) <==>
      Contains(output, "LOADED") && !Contains(output, "FILE SAVED") && Contains(output, "FAILED")
    ensures r.Fail? ==> r.error == Error(Checked, "Unexpected output from CDuce transformation: " + output)
  {
    if Contains(output, "LOADED") && Contains(output, "FILE SAVED") then Ok(true)
    else if Contains(output, "LOADED") && Contains(output, "FAILED") then Ok(false)
    else Fail(Error(Checked, "Unexpected output from CDuce transformation: " + output))
  }

  /** Without `LOADED` the transformation output is never accepted, whatever else it says. */
  lemma TransformationNeedsLoaded(output: string)
    requires !Contains(output, "LOADED")
    ensures ParseTransformationOutput(output).Fail?
  {
  }

  /** A transformation verdict, too, survives more output around it, and success stays success. */
  lemma TransformationVerdictSurvivesMoreOutput(before: string, output: string, after: string)
    requires ParseTransformationOutput(output).Ok?
    ensures ParseTransformationOutput(before + output + after).Ok?
    ensures ParseTransformationOutput(output) == Ok(true) ==> ParseTransformationOutput(before + output + after) == Ok(true)
  {
    ContainsInside(before, output, after, "LOADED");
    if Contains(output, "FILE SAVED") {
      ContainsInside(before, output, after, "FILE SAVED");
    } else {
      ContainsInside(before, output, after, "FAILED");
    }
  }

  /** The verdict `verifyOntology` returns for a given shell output. */
  function VerificationOutcome(shellOutput: Option<string>): (r: Result<bool>)
    ensures shellOutput.None? ==> r == Fail(Error(Checked, "Unexpected output: null"))
    ensures shellOutput.Some? ==> r == ParseVerificationOutput(shellOutput.value)
  {
    match CheckShellOutput(shellOutput)
    case Fail(e) => Fail(e)
    case Ok(output) => ParseVerificationOutput(output)
  }

  /** The executor itself holds nothing but the environment. */
  class Executor {
    const env: Environment

    constructor (env: Environment)
      ensures this.env == env
    {
      this.env := env;
    }

    /**
     * `verifyOntology`: an ontology without XML cannot be saved for CDuce
     * (an `IOException`); otherwise the verification script is run in the
     * code directory and its output classified.
     */
    method VerifyOntology(ontology: Ontology, shell: Shell) returns (r: Result<bool>)
      ensures ontology.xmlData.None? || ontology.xmlData.value == [] ==>
        r == Fail(Error(IO, "XML data is empty or not set."))
      ensures ontology.xmlData.Some? && ontology.xmlData.value != [] ==>
        r == VerificationOutcome(shell(PrepareCommands(env.cduceCodePathAbsolute, VerifyScript)))
    {
      if ontology.xmlData.None? || ontology.xmlData.value == [] {
        return Fail(Error(IO, "XML data is empty or not set."));
      }
      var commands := PrepareCommands(env.cduceCodePathAbsolute, VerifyScript);
      var output := CheckShellOutput(shell(commands));
      if output.Fail? {
        return Fail(output.error);
      }
      r := ParseVerificationOutput(output.value);
    }

    /**
     * `transformOntology`: as `verifyOntology`, with the transformation
     * script; on success a new ontology holds the output file read line by
     * line, each line followed by `\n`; a missing output file is an
     * `IOException`. `None` stands for Java's `null` result.
     */
    method TransformOntology(ontology: Ontology, shell: Shell, outputFile: Option<string>) returns (r: Result<Option<Ontology>>)
      ensures ontology.xmlData.None? || ontology.xmlData.value == [] ==>
        r == Fail(Error(IO, "XML data is empty or not set."))
      ensures ontology.xmlData.Some? && ontology.xmlData.value != [] ==>
        var shellOutput := shell(PrepareCommands(env.cduceCodePathAbsolute, TransformScript));
        (shellOutput.None? ==> r == Fail(Error(Checked, "Unexpected output: null")))
        && (shellOutput.Some? ==>
          match ParseTransformationOutput(shellOutput.value)
          case Fail(e) => r == Fail(e)
          case Ok(false) => r == Ok(None)
          case Ok(true) =>
            (outputFile.None? ==> r == Fail(Error(IO, "File not found: " + env.ontologyOutputAbsolute)))
            && (outputFile.Some? ==>
              r.Ok? && r.value.Some? && fresh(r.value.value)
              && r.value.value.xmlData == Some(LinesText(ReaderLines(outputFile.value)))
              && r.value.value.ontologyName.None? && r.value.value.ontologyExtension.None?))
    {
      if ontology.xmlData.None? || ontology.xmlData.value == [] {
        return Fail(Error(IO, "XML data is empty or not set."));
      }
      var commands := PrepareCommands(env.cduceCodePathAbsolute, TransformScript);
      var output := CheckShellOutput(shell(commands));
      if output.Fail? {
        return Fail(output.error);
      }
      var verdict := ParseTransformationOutput(output.value);
      if verdict.Fail? {
        return Fail(verdict.error);
      }
      if !verdict.value {
        return Ok(None);
      }
      if outputFile.None? {
        return Fail(Error(IO, "File not found: " + env.ontologyOutputAbsolute));
      }
      var result := new Ontology.Empty();
      result.SetXmlData(Some(LinesText(ReaderLines(outputFile.value))));
      r := Ok(Some(result));
    }
  }
}
