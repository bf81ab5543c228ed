/**
 * Middleware: the tool's global state (one structure description, one input
 * and one output ontology, all static) and the operations the screens call
 * on it. The Java statics are the fields of the `Middleware` class below;
 * the singleton object `getInstance` hands out carries no state of its own.
 */
module Middleware {
  import opened Text
  import opened Data
  import opened CheckStructure
  import opened XMLFormatter
  import opened XMLDiffChecker
  import opened XPathCustomParser
  import opened XMLErrorReporter
  import opened CDuceCodeLoader
  import opened CDuceCommandExecutor

  /** The terminator every stored namespace declaration carries. */
  const Separator := ";;"

  /** A declaration `setNamespaces` keeps: not blank, and not a default once its terminators are removed. */
  predicate KeepsNamespace(namespace: string) {
    !IsBlank(namespace) && ReplaceAll(namespace, Separator, "") !in DefaultNamespaces()
  }

  /** The declaration with `;;` appended unless it already holds one. */
  function Terminated(namespace: string): (r: string)
    ensures Contains(r, Separator)
  {
    if Contains(namespace, Separator) then namespace
    else
      ContainsAt(namespace + Separator, Separator, |namespace|);
      namespace + Separator
  }

  /** The declarations `setNamespaces` keeps, terminated, in input order. */
  function CleanNamespaces(namespaces: seq<string>): seq<string>
    decreases |namespaces|
  {
    if namespaces == [] then []
    else
      var last := namespaces[|namespaces| - 1];
      CleanNamespaces(namespaces[..|namespaces| - 1]) + (if KeepsNamespace(last) then [Terminated(last)] else [])
  }

  /** Cleaning works declaration by declaration: the clean of a concatenation is the concatenation of the cleans. */
  lemma {:induction false} CleanAppend(a: seq<string>, b: seq<string>)
    ensures CleanNamespaces(a + b) == CleanNamespaces(a) + CleanNamespaces(b)
    decreases |b|
  {
    if b == [] {
      assert a + b == a;
    } else {
      var init := b[..|b| - 1];
      assert (a + b)[..|a + b| - 1] == a + init;
      CleanAppend(a, init);
    }
  }

  /** Cleaning never adds declarations. */
  lemma {:induction false} CleanLength(namespaces: seq<string>)
    ensures |CleanNamespaces(namespaces)| <= |namespaces|
    decreases |namespaces|
  {
    if namespaces != [] {
      CleanLength(namespaces[..|namespaces| - 1]);
    }
  }

  /** A declaration is kept exactly when some input declaration survives the filter and terminates to it. */
  lemma {:induction false} CleanedDeclarations(namespaces: seq<string>, d: string)
    ensures d in CleanNamespaces(namespaces) <==>
      exists k :: 0 <= k < |namespaces| && KeepsNamespace(namespaces[k]) && d == Terminated(namespaces[k])
    decreases |namespaces|
  {
    if namespaces != [] {
      var init := namespaces[..|namespaces| - 1];
      CleanedDeclarations(init, d);
      if exists k :: 0 <= k < |namespaces| && KeepsNamespace(namespaces[k]) && d == Terminated(namespaces[k]) {
        var k :| 0 <= k < |namespaces| && KeepsNamespace(namespaces[k]) && d == Terminated(namespaces[k]);
        if k < |init| {
          assert init[k] == namespaces[k];
        }
      }
      if exists k :: 0 <= k < |init| && KeepsNamespace(init[k]) && d == Terminated(init[k]) {
        var k :| 0 <= k < |init| && KeepsNamespace(init[k]) && d == Terminated(init[k]);
        assert namespaces[k] == init[k];
      }
    }
  }

  /** A string holding `;;` is not blank. */
  lemma TerminatedIsNotBlank(s: string)
    requires Contains(s, Separator)
    ensures !IsBlank(s)
  {
    var i := ContainsWitness(s, Separator);
    assert s[i] == s[i..i + 2][0] == ';';
  }

  /** A default declaration holds no `;;`, so no stored declaration is ever equal to one. */
  lemma DefaultsHaveNoSeparator(d: string)
    requires d in DefaultNamespaces()
    ensures !Contains(d, Separator)
  {
    MissingFirstChar(d, Separator);
  }

  /** Every kept declaration ends up terminated, not blank, and different from every default. */
  lemma CleanedAreTerminated(namespaces: seq<string>)
    ensures forall d :: d in CleanNamespaces(namespaces) ==>
      Contains(d, Separator) && !IsBlank(d) && d !in DefaultNamespaces()
  {
    forall d | d in CleanNamespaces(namespaces)
      ensures Contains(d, Separator) && !IsBlank(d) && d !in DefaultNamespaces()
    {
      CleanedDeclarations(namespaces, d);
      TerminatedIsNotBlank(d);
      if d in DefaultNamespaces() {
        DefaultsHaveNoSeparator(d);
      }
    }
  }

  /** Removing every `;;` from a `;;`-free string with `;;` appended gives the string back. */
  lemma {:induction false} AppendedSeparatorRemoved(s: string)
    requires !Contains(s, Separator)
    ensures ReplaceAll(s + Separator, Separator, "") == s
    decreases |s|
  {
    var t := s + Separator;
    if s == [] {
      assert t == Separator && t[2..] == [];
    } else if s == ";" {
      assert t == ";;;" && t[2..] == ";";
      assert ReplaceAll(";", Separator, "") == ";" by {
        assert !StartsWith(";", Separator);
        assert ";"[1..] == [];
      }
    } else {
      assert !StartsWith(t, Separator) by {
        if s[0] == ';' {
          assert !StartsWith(s, Separator);
          assert |s| >= 2 && s[1] != ';';
          assert t[1] == s[1];
        }
      }
      assert t[1..] == s[1..] + Separator;
      AppendedSeparatorRemoved(s[1..]);
    }
  }

  /** A kept declaration, once terminated, is kept again and left as it is. */
  lemma TerminatedStaysKept(namespace: string)
    requires KeepsNamespace(namespace)
    ensures KeepsNamespace(Terminated(namespace)) && Terminated(Terminated(namespace)) == Terminated(namespace)
  {
    var d := Terminated(namespace);
    TerminatedIsNotBlank(d);
    if !Contains(namespace, Separator) {
      AppendedSeparatorRemoved(namespace);
      ReplaceAbsent(namespace, Separator, "");
    }
  }

  /** Cleaning a cleaned list changes nothing. */
  lemma {:induction false} CleanIdempotent(namespaces: seq<string>)
    ensures CleanNamespaces(CleanNamespaces(namespaces)) == CleanNamespaces(namespaces)
    decreases |namespaces|
  {
    if namespaces != [] {
      var init := namespaces[..|namespaces| - 1];
      var last := namespaces[|namespaces| - 1];
      CleanIdempotent(init);
      var tail := if KeepsNamespace(last) then [Terminated(last)] else [];
      CleanAppend(CleanNamespaces(init), tail);
      if KeepsNamespace(last) {
        TerminatedStaysKept(last);
        assert [Terminated(last)][..0] == [];
      }
    }
  }

  /** The defaults themselves are all dropped. */
  lemma {:induction false} DefaultsAreDropped(defaults: seq<string>)
    requires forall k :: 0 <= k < |defaults| ==> defaults[k] in DefaultNamespaces()
    ensures CleanNamespaces(defaults) == []
    decreases |defaults|
  {
    if defaults != [] {
      var last := defaults[|defaults| - 1];
      DefaultsAreDropped(defaults[..|defaults| - 1]);
      DefaultsHaveNoSeparator(last);
      ReplaceAbsent(last, Separator, "");
    }
  }

  /**
   * Feeding the stored namespace list (defaults first) back into
   * `setNamespaces` stores the same list again.
   */
  lemma StoredNamespacesRoundTrip(namespaces: seq<string>)
    ensures DefaultNamespaces() + CleanNamespaces(DefaultNamespaces() + CleanNamespaces(namespaces))
      == DefaultNamespaces() + CleanNamespaces(namespaces)
  {
    var defaults := DefaultNamespaces();
    var cleaned := CleanNamespaces(namespaces);
    CleanAppend(defaults, cleaned);
    DefaultsAreDropped(defaults);
    CleanIdempotent(namespaces);
    assert CleanNamespaces(defaults + cleaned) == cleaned;
  }

  /** The formatted XML `formatOntology` puts in the new ontology, or the exception it throws. */
  function FormattedXml(xmlData: Option<string>, formatNamespacesOnNewLine: bool, dom: Dom): Result<string> {
    if xmlData.None? || xmlData.value == [] then Fail(Error(IllegalArgument, "Ontology is either null or empty."))
    else FormatXmlFromString(xmlData, formatNamespacesOnNewLine, dom)
  }

  /** Elements without an XPath yield no error records, whatever the document. */
  lemma UnsetPathsReportNothing(lines: map<string, LineData>, es: seq<EditedElement>)
    requires forall e :: e in es ==> e.xPath.None?
    ensures Project(lines, es) == []
  {
    forall r | r in Project(lines, es) ensures false {
      RecordsComeFromElements(lines, es, r);
    }
  }

  /** The object `getInstance` hands out. */
  class MiddlewareInstance {
    constructor () {
    }
  }

  /** The static state of the Java class. */
  class Middleware {
    var instance: MiddlewareInstance?
    var checkStructure: CheckStructure?
    var ontologyInput: Ontology?
    var ontologyOutput: Ontology?

    /** Before the first `getInstance` every static is `null`. */
    constructor ()
      ensures instance == null && checkStructure == null && ontologyInput == null && ontologyOutput == null
    {
      instance := null;
      checkStructure := null;
      ontologyInput := null;
      ontologyOutput := null;
    }

    /** Freshly installed state: an empty structure and two ontologies with nothing set. */
    predicate Pristine()
      reads this, checkStructure, ontologyInput, ontologyOutput
      reads if checkStructure == null then {} else {checkStructure.attributes, checkStructure.classes, checkStructure.namespaces, checkStructure.structure}
    {
      checkStructure != null && ontologyInput != null && ontologyOutput != null
      && checkStructure.attributes.items == [] && checkStructure.classes.items == []
      && checkStructure.namespaces.items == [] && checkStructure.structure.items == []
      && ontologyInput.xmlData.None? && ontologyInput.ontologyName.None? && ontologyInput.ontologyExtension.None?
      && ontologyOutput.xmlData.None? && ontologyOutput.ontologyName.None? && ontologyOutput.ontologyExtension.None?
    }

    /**
     * `getInstance`: the existing instance, with nothing changed; the first
     * call (or the first after a reset) creates it, and the private
     * constructor installs a fresh structure and fresh ontologies.
     */
    method GetInstance() returns (m: MiddlewareInstance)
      modifies this
      ensures instance == m
      ensures old(instance) != null ==> m == old(instance) && unchanged(this)
      ensures old(instance) == null ==>
        fresh(m) && fresh(checkStructure) && fresh(ontologyInput) && fresh(ontologyOutput) && Pristine()
    {
      if instance == null {
        checkStructure := new CheckStructure();
        ontologyInput := new Ontology.Empty();
        ontologyOutput := new Ontology.Empty();
        instance := new MiddlewareInstance();
      }
      m := instance;
    }

    /** `resetInstance`: forgets the instance and installs a fresh structure and fresh ontologies. */
    method ResetInstance()
      modifies this
      ensures instance == null
      ensures fresh(checkStructure) && fresh(ontologyInput) && fresh(ontologyOutput) && Pristine()
    {
      instance := null;
      checkStructure := new CheckStructure();
      ontologyInput := new Ontology.Empty();
      ontologyOutput := new Ontology.Empty();
    }

    /** `setOntologyInput`: the given ontology itself (possibly `null`) becomes the input. */
    method SetOntologyInput(ontology: Ontology?)
      modifies this
      ensures ontologyInput == ontology
      ensures instance == old(instance) && checkStructure == old(checkStructure) && ontologyOutput == old(ontologyOutput)
    {
      ontologyInput := ontology;
    }

    /** `setOntologyOutput`: the given ontology itself (possibly `null`) becomes the output. */
    method SetOntologyOutput(ontology: Ontology?)
      modifies this
      ensures ontologyOutput == ontology
      ensures instance == old(instance) && checkStructure == old(checkStructure) && ontologyInput == old(ontologyInput)
    {
      ontologyOutput := ontology;
    }

    /**
     * `setNamespaces`: the declarations are cleaned (blank ones and defaults
     * dropped, `;;` appended where missing) and stored after the defaults.
     */
    method SetNamespaces(namespaces: StringList)
      requires checkStructure != null
      modifies checkStructure
      ensures fresh(checkStructure.namespaces)
      ensures checkStructure.namespaces.items == DefaultNamespaces() + CleanNamespaces(old(namespaces.items))
      ensures checkStructure.attributes == old(checkStructure.attributes) && checkStructure.classes == old(checkStructure.classes)
      ensures checkStructure.structure == old(checkStructure.structure)
    {
      var items := namespaces.items;
      var cleanedNamespaces := [];
      var defaultNamespaces := DefaultNamespaces();
      var i := 0;
      while i < |items|
        invariant 0 <= i <= |items|
        invariant cleanedNamespaces == CleanNamespaces(items[..i])
      {
        assert items[..i + 1][..i] == items[..i];
        var namespace := items[i];
        if !IsBlank(namespace) && ReplaceAll(namespace, Separator, "") !in defaultNamespaces {
          if !Contains(namespace, Separator) {
            namespace := namespace + Separator;
          }
          cleanedNamespaces := cleanedNamespaces + [namespace];
        }
        i := i + 1;
      }
      assert items[..i] == items;
      var cleaned := new StringList(cleanedNamespaces);
      checkStructure.SetNamespaces(cleaned);
    }

    /** `setStructure` */
    method SetStructure(structure: StringList)
      requires checkStructure != null
      modifies checkStructure
      ensures checkStructure.structure == structure
      ensures checkStructure.attributes == old(checkStructure.attributes) && checkStructure.classes == old(checkStructure.classes)
      ensures checkStructure.namespaces == old(checkStructure.namespaces)
    {
      checkStructure.SetStructure(structure);
    }

    /** `setClasses` */
    method SetClasses(classes: StringList)
      requires checkStructure != null
      modifies checkStructure
      ensures checkStructure.classes == classes
      ensures checkStructure.attributes == old(checkStructure.attributes) && checkStructure.structure == old(checkStructure.structure)
      ensures checkStructure.namespaces == old(checkStructure.namespaces)
    {
      checkStructure.SetClasses(classes);
    }

    /** `setAttributes` */
    method SetAttributes(attributes: StringList)
      requires checkStructure != null
      modifies checkStructure
      ensures checkStructure.attributes == attributes
      ensures checkStructure.classes == old(checkStructure.classes) && checkStructure.structure == old(checkStructure.structure)
      ensures checkStructure.namespaces == old(checkStructure.namespaces)
    {
      checkStructure.SetAttributes(attributes);
    }

    /**
     * `setNamespacesAndStructure`: all four lists at once. Unlike
     * `setNamespaces`, the declarations are stored after the defaults
     * without cleaning.
     */
    method SetNamespacesAndStructure(namespaces: StringList, structure: StringList, classes: StringList, attributes: StringList)
      requires checkStructure != null
      modifies checkStructure
      ensures fresh(checkStructure.namespaces)
      ensures checkStructure.namespaces.items == DefaultNamespaces() + old(namespaces.items)
      ensures checkStructure.structure == structure && checkStructure.classes == classes
      ensures checkStructure.attributes == attributes
    {
      checkStructure.SetNamespaces(namespaces);
      checkStructure.SetStructure(structure);
      checkStructure.SetClasses(classes);
      checkStructure.SetAttributes(attributes);
    }

    /**
     * `loadStructure`: refuses (`false`, nothing loaded) when the structure,
     * the attributes or the classes are empty; otherwise builds the
     * structure-check placeholders from the four lists and returns `true`
     * whatever that build does. `request` is what the build produced.
     */
    method LoadStructure(file: TemplateFile) returns (loaded: bool, request: Option<Result<PlaceholderMap>>)
      requires checkStructure != null
      ensures loaded <==>
        checkStructure.structure.items != [] && checkStructure.attributes.items != [] && checkStructure.classes.items != []
      ensures !loaded ==> request.None?
      ensures loaded ==> request.Some? && (request.value.Ok? <==> !file.NotJson?)
      ensures loaded && request.value.Ok? ==>
        request.value.value.Keys == {NamespaceKey, StructureKey, FilterAttributesKey, FilterClassesKey}
        && request.value.value[NamespaceKey] == Some(Join(checkStructure.namespaces.items, "\n"))
        && request.value.value[StructureKey] == Some(Join(checkStructure.structure.items, "\n"))
        && request.value.value[FilterAttributesKey] == Filter("FILTER_ATTRIBUTES", checkStructure.attributes.items, file)
        && request.value.value[FilterClassesKey] == Filter("FILTER_CLASSES", checkStructure.classes.items, file)
    {
      if checkStructure.structure.items == [] || checkStructure.attributes.items == [] || checkStructure.classes.items == [] {
        return false, None;
      }
      var built := LoadCheckStructure(checkStructure.namespaces.items, checkStructure.structure.items,
                                      checkStructure.attributes.items, checkStructure.classes.items, file);
      return true, Some(built);
    }

    /**
     * `getErrors`: with a missing or empty ontology (`isEmpty` is given as
     * its two verdicts) there is nothing to report. Otherwise both ontologies
     * are formatted and compared, and the differences are projected onto the
     * input document. Since the diff never sets an XPath, a run that does
     * not throw reports nothing.
     */
    method GetErrors(inputIsEmpty: bool, outputIsEmpty: bool, formatter: Formatter, dom: Dom,
                     compare: Comparator, sax: Option<string> -> SaxInput)
      returns (r: Result<seq<ErrorInfo>>)
      ensures r.Ok? ==> r.value == []
      ensures ontologyInput == null || ontologyOutput == null || inputIsEmpty || outputIsEmpty ==> r == Ok([])
      ensures ontologyInput != null && ontologyOutput != null && !inputIsEmpty && !outputIsEmpty ==>
        var flag := formatter.formatNamespacesOnNewLine;
        match (FormattedXml(ontologyInput.xmlData, flag, dom), FormattedXml(ontologyOutput.xmlData, flag, dom))
        case (Fail(e), _) => r == Fail(e)
        case (Ok(_), Fail(e)) => r == Fail(e)
        case (Ok(a), Ok(b)) =>
          match compare(Some(a), Some(b))
          case NotWellFormed => r == Fail(Error(NullPointer, ""))
          case ComparisonFailure => r == Fail(Error(Checked, "Error during XML comparison"))
          case Differences(_) => r == Ok([])
    {
      if ontologyInput == null || ontologyOutput == null || inputIsEmpty || outputIsEmpty {
        return Ok([]);
      }
      var formattedInput := formatter.FormatOntology(ontologyInput, dom);
      if formattedInput.Fail? {
        return Fail(formattedInput.error);
      }
      var formattedOutput := formatter.FormatOntology(ontologyOutput, dom);
      if formattedOutput.Fail? {
        return Fail(formattedOutput.error);
      }
      var differences := DiffOntologies(formattedInput.value, formattedOutput.value, compare);
      if differences.Fail? {
        return Fail(differences.error);
      }
      if differences.value.None? {
        return Fail(Error(NullPointer, ""));
      }
      if differences.value.value == [] {
        return Ok([]);
      }
      var outcome := compare(formattedInput.value.xmlData, formattedOutput.value.xmlData);
      DiffLeavesPathsUnset(outcome.diffs);
      var reporter := new ErrorReporter(sax(ontologyInput.xmlData));
      var errorInfos := reporter.GenerateErrorInfo(differences.value.value);
      UnsetPathsReportNothing(reporter.parser.lines, differences.value.value);
      r := Ok(errorInfos);
    }

    /**
     * `verifyOntology`: an empty input (by `isEmpty`'s verdict) is not
     * valid; otherwise the executor's verdict. A `null` input throws.
     */
    method VerifyOntology(inputIsEmpty: bool, executor: Executor, shell: Shell) returns (r: Result<bool>)
      ensures ontologyInput == null ==> r == Fail(Error(NullPointer, ""))
      ensures ontologyInput != null && inputIsEmpty ==> r == Ok(false)
      ensures ontologyInput != null && !inputIsEmpty ==>
        (ontologyInput.xmlData.None? || ontologyInput.xmlData.value == [] ==> r == Fail(Error(IO, "XML data is empty or not set.")))
        && (ontologyInput.xmlData.Some? && ontologyInput.xmlData.value != [] ==>
          r == VerificationOutcome(shell(PrepareCommands(executor.env.cduceCodePathAbsolute, VerifyScript))))
    {
      if ontologyInput == null {
        return Fail(Error(NullPointer, ""));
      }
      if inputIsEmpty {
        return Ok(false);
      }
      r := executor.VerifyOntology(ontologyInput, shell);
    }

    /**
     * `transformOntology`: `false` with the output untouched when the
     * executor yields `null`; otherwise the output ontology takes the
     * transformed XML, and the input's name and extension, and the result is
     * `true`. Exceptions from the executor pass through.
     */
    method TransformOntology(executor: Executor, shell: Shell, outputFile: Option<string>) returns (r: Result<bool>)
      requires ontologyOutput != null
      modifies ontologyOutput
      ensures ontologyInput == null ==> r == Fail(Error(NullPointer, ""))
      ensures r != Ok(true) ==> unchanged(ontologyOutput)
      ensures ontologyInput != null ==>
        var shellOutput := shell(PrepareCommands(executor.env.cduceCodePathAbsolute, TransformScript));
        var saved := old(ontologyInput.xmlData).Some? && old(ontologyInput.xmlData).value != [];
        (r == Ok(false) <==>
          saved && shellOutput.Some? && ParseTransformationOutput(shellOutput.value) == Ok(false))
        && (r == Ok(true) <==>
          saved && shellOutput.Some? && ParseTransformationOutput(shellOutput.value) == Ok(true) && outputFile.Some?)
        && (r == Ok(true) ==>
          ontologyOutput.xmlData == Some(LinesText(ReaderLines(outputFile.value)))
          && ontologyOutput.ontologyName == old(ontologyInput.ontologyName)
          && ontologyOutput.ontologyExtension == old(ontologyInput.ontologyExtension))
    {
      if ontologyInput == null {
        return Fail(Error(NullPointer, ""));
      }
      var content := executor.TransformOntology(ontologyInput, shell, outputFile);
      if content.Fail? {
        return Fail(content.error);
      }
      if content.value.None? {
        return Ok(false);
      }
      var name := ontologyInput.ontologyName;
      var extension := ontologyInput.ontologyExtension;
      ontologyOutput.SetXmlData(content.value.value.xmlData);
      ontologyOutput.SetOntologyName(name);
      ontologyOutput.SetOntologyExtension(extension);
      r := Ok(true);
    }
  }
}
