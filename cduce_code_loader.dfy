/**
 * CDuceCodeLoader: builds the placeholder maps for the three generated CDuce
 * programs, filling the attribute and class filters from templates stored in
 * a JSON file.
 */
module CDuceCodeLoader {
  import opened Text
  import opened Data

  /**
   * The template file as `loadTemplate` finds it: unreadable (an
   * `IOException`), not a JSON object (the parser's exception and its
   * message), or an object from template names to templates.
   */
  datatype TemplateFile = Unreadable | NotJson(message: string) | Json(templates: map<string, string>)

  /** The placeholder the filter templates carry for one element. */
  const ElementPlaceholder := "{PLACEHOLDER}"

  /**
   * `loadTemplate`: `None` (Java's `null`) when the file cannot be read or
   * the name maps to nothing or to an empty template (`optString` yields
   * `""` for a missing name); a file that is not JSON throws.
   */
  function LoadTemplate(templateName: string, file: TemplateFile): (r: Result<Option<string>>)
    ensures r.Fail? <==> file.NotJson?
    ensures r.Ok? && r.value.Some? <==>
      file.Json? && templateName in file.templates && file.templates[templateName] != []
    ensures r.Ok? && r.value.Some? ==> r.value.value == file.templates[templateName]
  {
    match file
    case Unreadable => Ok(None)
    case NotJson(message) => Fail(Error(Runtime, message))
    case Json(templates) =>
      var template := if templateName in templates then templates[templateName] else [];
      if template == [] then Ok(None) else Ok(Some(template))
  }

  /** The template filled in for each element, in order. */
  function Instances(template: string, elements: seq<string>): (r: seq<string>)
    ensures |r| == |elements|
    ensures forall k :: 0 <= k < |r| ==> r[k] == ReplaceAll(template, ElementPlaceholder, elements[k])
  {
    seq(|elements|, k requires 0 <= k < |elements| => ReplaceAll(template, ElementPlaceholder, elements[k]))
  }

  /**
   * `loadTemplateAndSubstitute`: for each element the template is loaded
   * again and, filled in with the element, appended with a newline. The
   * template is only loaded inside the loop, so an empty list gives `""` even
   * when it cannot be loaded; otherwise a missing template gives `None`.
   */
  method LoadTemplateAndSubstitute(templateName: string, elements: seq<string>, file: TemplateFile)
    returns (r: Result<Option<string>>)
    ensures elements == [] ==> r == Ok(Some([]))
    ensures elements != [] ==>
      match LoadTemplate(templateName, file)
      case Fail(e) => r == Fail(e)
      case Ok(None) => r == Ok(None)
      case Ok(Some(template)) => r == Ok(Some(LinesText(Instances(template, elements))))
  {
    var elementsBlock := [];
    var i := 0;
    while i < |elements|
      invariant 0 <= i <= |elements|
      invariant i > 0 ==> LoadTemplate(templateName, file).Ok? && LoadTemplate(templateName, file).value.Some?
      invariant i > 0 ==> elementsBlock == LinesText(Instances(LoadTemplate(templateName, file).value.value, elements[..i]))
      invariant i == 0 ==> elementsBlock == []
    {
      var template := LoadTemplate(templateName, file);
      if template.Fail? {
        return Fail(template.error);
      }
      if template.value.None? {
        return Ok(None);
      }
      var t := template.value.value;
      assert Instances(t, elements[..i + 1]) == Instances(t, elements[..i]) + [ReplaceAll(t, ElementPlaceholder, elements[i])];
      LinesTextAppend(Instances(t, elements[..i]), ReplaceAll(t, ElementPlaceholder, elements[i]));
      elementsBlock := elementsBlock + ReplaceAll(t, ElementPlaceholder, elements[i]) + "\n";
      i := i + 1;
    }
    if i > 0 {
      assert elements[..i] == elements;
    }
    r := Ok(Some(elementsBlock));
  }

  /**
   * The block read back line by line gives one filled-in template per
   * element, in element order, when the filled-in templates are single lines.
   */
  lemma BlockReadsBackAsInstances(template: string, elements: seq<string>)
    requires forall k :: 0 <= k < |elements| ==>
      '\n' !in ReplaceAll(template, ElementPlaceholder, elements[k]) && '\r' !in ReplaceAll(template, ElementPlaceholder, elements[k])
    ensures ReaderLines(LinesText(Instances(template, elements))) == Instances(template, elements)
  {
    ReadLinesText(Instances(template, elements));
  }

  /** A template without the placeholder is repeated once per element, whatever the elements are. */
  lemma {:induction false} TemplateWithoutPlaceholder(template: string, elements: seq<string>)
    requires !Contains(template, ElementPlaceholder)
    ensures Instances(template, elements) == seq(|elements|, k => template)
  {
    forall k | 0 <= k < |elements| ensures Instances(template, elements)[k] == template {
      ReplaceAbsent(template, ElementPlaceholder, elements[k]);
    }
  }

  const NamespaceKey := "{NAMESPACE_PLACEHOLDER}"
  const StructureKey := "{STRUCTURE_PLACEHOLDER}"
  const FilterAttributesKey := "{FILTER_ATTRIBUTES_PLACEHOLDER}"
  const FilterClassesKey := "{FILTER_CLASSES_PLACEHOLDER}"
  const InputFileKey := "{INPUT_FILE_PLACEHOLDER}"
  const EntrypointKey := "{ENTRYPOINT_PLACEHOLDER}"
  const OutputFileKey := "{OUTPUT_FILE_PLACEHOLDER}"

  /** A placeholder map: values may be Java's `null` when a template could not be loaded. */
  type PlaceholderMap = map<string, Option<string>>

  /**
   * `loadCheckStructure`: the namespace and structure lists joined with
   * newlines, and the attribute and class filters built from their
   * templates. An exception while building (from a template file that is not
   * JSON) is the `Fail` the method catches and logs; `Ok` holds the map handed
   * to the replacement.
   */
  method LoadCheckStructure(namespaces: seq<string>, structure: seq<string>, attributes: seq<string>,
                            classes: seq<string>, file: TemplateFile)
    returns (r: Result<PlaceholderMap>)
    ensures r.Ok? <==> !(file.NotJson? && (attributes != [] || classes != []))
    ensures r.Ok? ==>
      r.value.Keys == {NamespaceKey, StructureKey, FilterAttributesKey, FilterClassesKey}
      && r.value[NamespaceKey] == Some(Join(namespaces, "\n"))
      && r.value[StructureKey] == Some(Join(structure, "\n"))
      && r.value[FilterAttributesKey] == Filter("FILTER_ATTRIBUTES", attributes, file)
      && r.value[FilterClassesKey] == Filter("FILTER_CLASSES", classes, file)
  {
    var namespaceString := Join(namespaces, "\n");
    var structureString := Join(structure, "\n");
    var attributesBlock := LoadTemplateAndSubstitute("FILTER_ATTRIBUTES", attributes, file);
    if attributesBlock.Fail? {
      return Fail(attributesBlock.error);
    }
    var classesBlock := LoadTemplateAndSubstitute("FILTER_CLASSES", classes, file);
    if classesBlock.Fail? {
      return Fail(classesBlock.error);
    }
    r := Ok(map[NamespaceKey := Some(namespaceString), StructureKey := Some(structureString),
                FilterAttributesKey := attributesBlock.value, FilterClassesKey := classesBlock.value]);
  }

  /** The value a filter placeholder receives when building succeeds. */
  function Filter(templateName: string, elements: seq<string>, file: TemplateFile): (r: Option<string>)
    requires elements == [] || !file.NotJson?
    ensures elements == [] ==> r == Some([])
    ensures r.None? <==> elements != [] && LoadTemplate(templateName, file).Ok? && LoadTemplate(templateName, file).value.None?
  {
    if elements == [] then Some([])
    else
      match LoadTemplate(templateName, file)
      case Fail(_) => assert false; None
      case Ok(None) => None
      case Ok(Some(template)) => Some(LinesText(Instances(template, elements)))
  }

  /** The namespace value splits back into the namespaces when none holds a newline and the last is not empty. */
  lemma NamespaceValueSplitsBack(namespaces: seq<string>)
    requires namespaces != []
    requires forall k :: 0 <= k < |namespaces| ==> '\n' !in namespaces[k]
    requires |namespaces| == 1 || namespaces[|namespaces| - 1] != []
    ensures JavaSplit(Join(namespaces, "\n"), '\n') == namespaces
  {
    if |namespaces| > 1 {
      SplitJoin(namespaces, '\n');
      assert Join(namespaces, "\n")[|namespaces[0]|] == '\n';
    } else {
      SplitNoSeparatorWhole(namespaces[0]);
    }
  }

  lemma SplitNoSeparatorWhole(s: string)
    requires '\n' !in s
    ensures JavaSplit(Join([s], "\n"), '\n') == [s]
  {
  }

  /** `loadVerifyMain`: the input file and the verification entry point (`None` when its template is missing). */
  function VerifyMainPlaceholders(ontologyInput: string, file: TemplateFile): (r: Result<PlaceholderMap>)
    ensures r.Ok? <==> !file.NotJson?
    ensures r.Ok? ==>
      r.value.Keys == {InputFileKey, EntrypointKey}
      && r.value[InputFileKey] == Some(ontologyInput)
      && r.value[EntrypointKey] == LoadTemplate("ENTRYPOINT_VERIFY", file).value
  {
    match LoadTemplate("ENTRYPOINT_VERIFY", file)
    case Fail(e) => Fail(e)
    case Ok(entrypoint) => Ok(map[InputFileKey := Some(ontologyInput), EntrypointKey := entrypoint])
  }

  /** `loadTransformMain`: as `loadVerifyMain`, with the transformation entry point and the output file. */
  function TransformMainPlaceholders(ontologyInput: string, ontologyOutput: string, file: TemplateFile): (r: Result<PlaceholderMap>)
    ensures r.Ok? <==> !file.NotJson?
    ensures r.Ok? ==>
      r.value.Keys == {InputFileKey, EntrypointKey, OutputFileKey}
      && r.value[InputFileKey] == Some(ontologyInput)
      && r.value[EntrypointKey] == LoadTemplate("ENTRYPOINT_TRANSFORM", file).value
      && r.value[OutputFileKey] == Some(ontologyOutput)
  {
    match LoadTemplate("ENTRYPOINT_TRANSFORM", file)
    case Fail(e) => Fail(e)
    case Ok(entrypoint) => Ok(map[InputFileKey := Some(ontologyInput), EntrypointKey := entrypoint, OutputFileKey := Some(ontologyOutput)])
  }

  /** The transformation map extends the verification map by the output file alone. */
  lemma TransformExtendsVerify(ontologyInput: string, ontologyOutput: string, file: TemplateFile)
    requires !file.NotJson?
    ensures TransformMainPlaceholders(ontologyInput, ontologyOutput, file).value.Keys
      == VerifyMainPlaceholders(ontologyInput, file).value.Keys + {OutputFileKey}
    ensures VerifyMainPlaceholders(ontologyInput, file).value[InputFileKey]
      == TransformMainPlaceholders(ontologyInput, ontologyOutput, file).value[InputFileKey]
  {
  }
}
