# JavaXmlTransformer core, modelled in Dafny

JavaXmlTransformer is a desktop tool for RDF/OWL ontologies. Each step below is
modelled by one Dafny module named after the Java class it models:

- **Load.** The user loads an ontology file. `LoadVerifyController` splits it into lines and shows them in a list view.
- **Verify.** The tool writes a CDuce program from templates (`CDuceCodeLoader`, `CDucePlaceholderReplacer`). It runs the program through WSL (`CDuceCommandExecutor`, `PathUtility`) and reads the verdict from the program's output.
- **Transform and diff.** When the ontology is invalid, the tool transforms it, formats both versions (`XMLFormatter`) and diffs them (`XMLDiffChecker`). It maps each difference to a line range through an XPath index built by a SAX handler (`XPathCustomParser`, `XMLErrorReporter`). All of this is driven through the `Middleware` singleton.
- **Highlight and fix.** The controller groups the lines into highlighted error blocks. In a popup (`PopupController`) the user replaces or removes a block of lines.

Shared modules:

- `Data` holds the value types and mutable holders: `Ontology`, `EditedElement`, `ErrorInfo`, `MyPair` and a shared `List<String>`.
- `Text` gives the Java string operations the code relies on: `replace`, `contains`, `trim`, ASCII `toLowerCase`, `split` with trailing empty strings dropped, `String.join`, `BufferedReader.readLine`, and `append(line).append("\n")`.

How Java constructs map to Dafny:

- Java `null` is `None` and a thrown exception is `Fail(Error(kind, message))`.
- Foreign components are parameters whose behaviour is left open:
  - the XMLUnit comparison;
  - the SAX event stream;
  - the DOM parser and serialiser;
  - the shell;
  - file contents and the template JSON file.
- Classes whose fields the Java code updates are Dafny classes with `modifies` clauses.
- Loops are methods with loop invariants, proved against a specification function.

Where the code and its tests disagree, the model follows the code:

- **XPath index counter.** The counter in `startElement` is keyed by the stripped tag name over the whole document (`src/main/java/com/jataxmltransformer/logic/xml/XPathCustomParser.java:107-108`).
  - So the label inside the first `Class` of the test document is `/RDF[1]/Class[1]/label[2]`, not `label[1]` as `src/test/java/XPathCustomParserTests.java:104-107` expects.
  - `XPathCustomParser.NestedLabelIndexIsDocumentWide` proves the code's behaviour.
- **XPath never set.** `XMLDiffChecker` never sets an element's XPath, and `XMLErrorReporter` skips elements without one. So `Middleware.getErrors` returns an empty list whenever it returns normally (`Middleware.Middleware.GetErrors`).
  - The end-to-end tests expecting highlighted errors do not hold for the code as written.

## Model

| member | source | states |
|---|---|---|
| PathUtility.ConvertToWslPath | src/main/java/com/jataxmltransformer/logic/utilities/PathUtility.java:32-40 | a path without `:\` comes back unchanged; otherwise the result is four chars longer, starts with `/mnt/`, then the lowered first char |
| PathUtility.ConvertedShape | src/main/java/com/jataxmltransformer/logic/utilities/PathUtility.java:35-37 | a converted path starts with `/mnt/` and holds no backslash after the drive char |
| PathUtility.ConvertedHasNoMarker | src/main/java/com/jataxmltransformer/logic/utilities/PathUtility.java:33-37 | a converted path never contains `:\` |
| PathUtility.ConversionIdempotent | src/main/java/com/jataxmltransformer/logic/utilities/PathUtility.java:33-39 | converting twice equals converting once, for every input |
| PathUtility.DrivePath | src/main/java/com/jataxmltransformer/logic/utilities/PathUtility.java:35-37 | `d:` plus a backslash-led tail becomes `/mnt/`, the lowered drive, then the tail with every backslash turned into a slash |
| XPathCustomParser.StripNamespace | src/main/java/com/jataxmltransformer/logic/xml/XPathCustomParser.java:134-136 | a name without `:` is unchanged; otherwise the result is what follows the first `:` |
| XPathCustomParser.Lookup | src/main/java/com/jataxmltransformer/logic/xml/XPathCustomParser.java:57-63 | a path in the map yields its begin and end lines, any other path `(-1, -1)` |
| XPathCustomParser.SAXHandler.constructor | src/main/java/com/jataxmltransformer/logic/xml/XPathCustomParser.java:90-93 | a new handler has an empty stack and empty maps |
| XPathCustomParser.SAXHandler.StartElement | src/main/java/com/jataxmltransformer/logic/xml/XPathCustomParser.java:102-116 | raises the tag's counter, pushes `parent/tag[index]` and records its start line |
| XPathCustomParser.SAXHandler.EndElement | src/main/java/com/jataxmltransformer/logic/xml/XPathCustomParser.java:119-126 | fails, changing nothing, exactly when the stack is empty; otherwise pops and records the element's start (or -1) and end line |
| XPathCustomParser.Feed | src/main/java/com/jataxmltransformer/logic/xml/XPathCustomParser.java:102-126 | delivering one event succeeds exactly when the handler step is defined, and leaves the handler in the stepped state |
| XPathCustomParser.Parse | src/main/java/com/jataxmltransformer/logic/xml/XPathCustomParser.java:37-48 | the loop over the events yields the handler's element map, or the empty map when the input is malformed or a handler call throws |
| XPathCustomParser.RunFailureSticks | src/main/java/com/jataxmltransformer/logic/xml/XPathCustomParser.java:44-47 | once an event has thrown, the whole parse has failed |
| XPathCustomParser.XPathCustomParser.constructor | src/main/java/com/jataxmltransformer/logic/xml/XPathCustomParser.java:27-29 | the parser's map is the parse of the given XML |
| XPathCustomParser.XPathCustomParser.GetInfoFromXPath | src/main/java/com/jataxmltransformer/logic/xml/XPathCustomParser.java:57-63 | the recorded line pair of the path, `(-1, -1)` on a miss |
| XPathCustomParser.RunDefinedAndDepth | src/main/java/com/jataxmltransformer/logic/xml/XPathCustomParser.java:102-126 | the handler never throws exactly when every end event has an open element; then the stack depth is starts minus ends |
| XPathCustomParser.StackEmptiesAtEnd | src/main/java/com/jataxmltransformer/logic/xml/XPathCustomParser.java:114-121 | a balanced, fully closed event sequence leaves an empty stack |
| XPathCustomParser.CounterIsGlobal | src/main/java/com/jataxmltransformer/logic/xml/XPathCustomParser.java:107-108 | each tag's counter equals the number of start events with that stripped tag in the whole document |
| XPathCustomParser.StepPathInjective | src/main/java/com/jataxmltransformer/logic/xml/XPathCustomParser.java:111-112 | a path determines the tag and the index of its last step |
| XPathCustomParser.NewPathIsFresh | src/main/java/com/jataxmltransformer/logic/xml/XPathCustomParser.java:107-112 | the path a start event builds has never been used before |
| XPathCustomParser.StartKeepsStack | src/main/java/com/jataxmltransformer/logic/xml/XPathCustomParser.java:102-116 | after a start event the open paths are still distinct, have start lines and are not yet closed |
| XPathCustomParser.StartKeepsIndexed | src/main/java/com/jataxmltransformer/logic/xml/XPathCustomParser.java:107-115 | after a start event every path with a start line carries an index already handed out for its tag |
| XPathCustomParser.StartKeepsInv | src/main/java/com/jataxmltransformer/logic/xml/XPathCustomParser.java:102-116 | a start event keeps the handler's uniqueness invariant |
| XPathCustomParser.EndKeepsInv | src/main/java/com/jataxmltransformer/logic/xml/XPathCustomParser.java:119-126 | an end event closes an element not closed before and keeps the invariant |
| XPathCustomParser.RunKeepsInv | src/main/java/com/jataxmltransformer/logic/xml/XPathCustomParser.java:102-126 | every reachable handler state satisfies the invariant |
| XPathCustomParser.OneEntryPerClosedElement | src/main/java/com/jataxmltransformer/logic/xml/XPathCustomParser.java:119-126 | the map holds exactly one entry per end event |
| XPathCustomParser.EntriesNeverOverwritten | src/main/java/com/jataxmltransformer/logic/xml/XPathCustomParser.java:107-125 | an entry recorded after some prefix of the events is still in the final map, with the same lines |
| XPathCustomParser.RunLinesBounded | src/main/java/com/jataxmltransformer/logic/xml/XPathCustomParser.java:115-125 | with positive, non-decreasing event lines, every recorded line lies between 1 and the last event's line |
| XPathCustomParser.ChildRangeInsideParent | src/main/java/com/jataxmltransformer/logic/xml/XPathCustomParser.java:102-126 | with positive, non-decreasing event lines, the element whose path is `p/tag[n]` starts no earlier and ends no later than the element `p` |
| XPathCustomParser.EntryLinesOrdered | src/main/java/com/jataxmltransformer/logic/xml/XPathCustomParser.java:115-125 | with positive, non-decreasing event lines, every entry has `1 <= begin <= end`, so the -1 default is never used |
| XPathCustomParser.FailedParseFindsNothing | src/main/java/com/jataxmltransformer/logic/xml/XPathCustomParser.java:37-63 | after a failed parse every lookup yields `(-1, -1)` |
| XPathCustomParser.NestedLabelIndexIsDocumentWide | src/main/java/com/jataxmltransformer/logic/xml/XPathCustomParser.java:107-112 | a label after a top-level label, inside the first `Class`, is found under `/RDF[1]/Class[1]/label[2]` with its own lines |
| XMLErrorReporter.Record | src/main/java/com/jataxmltransformer/logic/xml/XMLErrorReporter.java:46-56 | an element yields a record exactly when its XPath is set, is not `/RDF[1]` and resolves to two lines other than -1; the record is `(begin, end, data, id)` |
| XMLErrorReporter.ErrorReporter.constructor | src/main/java/com/jataxmltransformer/logic/xml/XMLErrorReporter.java:25-27 | the reporter's parser holds the parse of the given XML |
| XMLErrorReporter.ErrorReporter.GenerateErrorInfo | src/main/java/com/jataxmltransformer/logic/xml/XMLErrorReporter.java:41-60 | the loop yields the records of the surviving elements, in input order |
| XMLErrorReporter.ProjectAppend | src/main/java/com/jataxmltransformer/logic/xml/XMLErrorReporter.java:44-58 | the records of a concatenation are the concatenated records (order preserved) |
| XMLErrorReporter.OneRecordPerSurvivor | src/main/java/com/jataxmltransformer/logic/xml/XMLErrorReporter.java:42-59 | one record per surviving element, no deduplication, never more records than elements |
| XMLErrorReporter.RecordsComeFromElements | src/main/java/com/jataxmltransformer/logic/xml/XMLErrorReporter.java:44-58 | a record is in the output exactly when some input element yields it |
| XMLErrorReporter.RecordsAreResolved | src/main/java/com/jataxmltransformer/logic/xml/XMLErrorReporter.java:46-55 | no record has a -1 line; each carries the data and id of an element whose XPath is set and is not `/RDF[1]` |
| XMLErrorReporter.FailedParseReportsNothing | src/main/java/com/jataxmltransformer/logic/xml/XMLErrorReporter.java:49-50 | when the XML cannot be parsed, no record is produced |
| XMLErrorReporter.RecordsSpanRealLines | src/main/java/com/jataxmltransformer/logic/xml/XMLErrorReporter.java:49-56 | with positive, non-decreasing event lines, each record spans `1 <= start <= end` |
| XMLDiffChecker.RenderValue | src/main/java/com/jataxmltransformer/logic/xml/XMLDiffChecker.java:162-163 | a null value renders as `null`, any other value trimmed |
| XMLDiffChecker.RenderedValueIsTrimmed | src/main/java/com/jataxmltransformer/logic/xml/XMLDiffChecker.java:162-163 | a rendered value neither starts nor ends with whitespace |
| XMLDiffChecker.IdentityHead | src/main/java/com/jataxmltransformer/logic/xml/XMLDiffChecker.java:167-169 | the id starts with `Control: <control> => Test: ` |
| XMLDiffChecker.IdentityTail | src/main/java/com/jataxmltransformer/logic/xml/XMLDiffChecker.java:167-169 | the id ends with `, Property: <node name>` |
| XMLDiffChecker.EditedElementOf | src/main/java/com/jataxmltransformer/logic/xml/XMLDiffChecker.java:145-169 | a null difference gives no element; missing details give an element with null data and id; otherwise data is the rendered test value and id the composed identity; the XPath is never set |
| XMLDiffChecker.DetermineLineNumber | src/main/java/com/jataxmltransformer/logic/xml/XMLDiffChecker.java:217-233 | the 1-based number of the first line containing either value, or -1 exactly when no line does |
| XMLDiffChecker.FindEndLine | src/main/java/com/jataxmltransformer/logic/xml/XMLDiffChecker.java:245-261 | the last matching line at or after the start line, or the start line itself; never below the start line |
| XMLDiffChecker.GetEditedElement | src/main/java/com/jataxmltransformer/logic/xml/XMLDiffChecker.java:145-182 | the element as above; a line range exactly for complete differences, with the end line equal to the start line unless a value spans several lines |
| XMLDiffChecker.MultiLineValueNotOnOneLine | src/main/java/com/jataxmltransformer/logic/xml/XMLDiffChecker.java:172-174 | a value holding a newline is never found on a single line |
| XMLDiffChecker.Candidates | src/main/java/com/jataxmltransformer/logic/xml/XMLDiffChecker.java:112-113 | one candidate element per difference, in order |
| XMLDiffChecker.KeepFirstKeepsEveryId | src/main/java/com/jataxmltransformer/logic/xml/XMLDiffChecker.java:112-116 | every id among the candidates appears in the result, and no other id does |
| XMLDiffChecker.KeptIdsDistinct | src/main/java/com/jataxmltransformer/logic/xml/XMLDiffChecker.java:112-116 | the kept elements have pairwise distinct ids |
| XMLDiffChecker.FirstOccurrenceWins | src/main/java/com/jataxmltransformer/logic/xml/XMLDiffChecker.java:112-116 | an element is kept exactly when it is the first candidate with its id |
| XMLDiffChecker.KeepFirstGrowsByAppending | src/main/java/com/jataxmltransformer/logic/xml/XMLDiffChecker.java:114-115 | the result for a prefix of the differences is a prefix of the full result |
| XMLDiffChecker.Diff | src/main/java/com/jataxmltransformer/logic/xml/XMLDiffChecker.java:74-119 | a malformed document gives null, another comparison failure the checked exception, otherwise the deduplicated elements |
| XMLDiffChecker.DiffOntologies | src/main/java/com/jataxmltransformer/logic/xml/XMLDiffChecker.java:57-63 | a null ontology is rejected with `IllegalArgumentException`; otherwise the diff of their XML data |
| XMLDiffChecker.DiffLeavesPathsUnset | src/main/java/com/jataxmltransformer/logic/xml/XMLDiffChecker.java:151-181 | no element produced by the diff has its XPath set |
| XMLFormatter.RemoveEmptyTextNodes | src/main/java/com/jataxmltransformer/logic/xml/XMLFormatter.java:241-250 | the backward loop over the children yields the pruned tree |
| XMLFormatter.PruneCleans | src/main/java/com/jataxmltransformer/logic/xml/XMLFormatter.java:241-250 | no blank text node remains anywhere in the pruned subtree |
| XMLFormatter.CleanIsUntouched | src/main/java/com/jataxmltransformer/logic/xml/XMLFormatter.java:245-248 | a tree without blank text nodes is left as it is |
| XMLFormatter.PruneFixpoints | src/main/java/com/jataxmltransformer/logic/xml/XMLFormatter.java:241-250 | pruning leaves a tree unchanged exactly when it is clean, and pruning twice is pruning once |
| XMLFormatter.KeptInOrder | src/main/java/com/jataxmltransformer/logic/xml/XMLFormatter.java:243-248 | every non-blank child survives, pruned, at the position given by the kept children before it; none is skipped |
| XMLFormatter.DeclarationAt | src/main/java/com/jataxmltransformer/logic/xml/XMLFormatter.java:226 | a match of the namespace regex starts with `xmlns:`, is at least ten chars long and ends with a quote |
| XMLFormatter.BreakOnlyAddsNewlines | src/main/java/com/jataxmltransformer/logic/xml/XMLFormatter.java:226-230 | breaking after namespace declarations only inserts newlines |
| XMLFormatter.BreakWithoutNamespaces | src/main/java/com/jataxmltransformer/logic/xml/XMLFormatter.java:229-230 | a text without `xmlns:` is not changed by the break |
| XMLFormatter.NormaliseOnlyDropsReturns | src/main/java/com/jataxmltransformer/logic/xml/XMLFormatter.java:231 | turning CRLF into LF only removes carriage returns |
| XMLFormatter.FinalFormattingKeepsText | src/main/java/com/jataxmltransformer/logic/xml/XMLFormatter.java:224-234 | apart from line breaks, the final formatting leaves the text as it was |
| XMLFormatter.FlagOffOnlyNormalises | src/main/java/com/jataxmltransformer/logic/xml/XMLFormatter.java:229-231 | with the flag off, or no declaration present, the only change is CRLF to LF |
| XMLFormatter.FinalFormattingIdentity | src/main/java/com/jataxmltransformer/logic/xml/XMLFormatter.java:224-234 | text without CRLF pairs and declarations comes out unchanged |
| XMLFormatter.FormatXmlFromString | src/main/java/com/jataxmltransformer/logic/xml/XMLFormatter.java:161-185 | null or empty data is rejected with `IllegalArgumentException`; there is a result exactly when the data parses and its pruned document serialises, and it is the final formatting of that text; other failures are checked exceptions, prefixed `XML syntax error: ` exactly for parse errors |
| XMLFormatter.Formatter.constructor | src/main/java/com/jataxmltransformer/logic/xml/XMLFormatter.java:31 | the static flag starts off |
| XMLFormatter.Formatter.FormatOntologyInner | src/main/java/com/jataxmltransformer/logic/xml/XMLFormatter.java:139-151 | a null ontology or null/empty XML is rejected; otherwise a new ontology with the formatted XML and the input's name and extension |
| XMLFormatter.Formatter.FormatOntologyWithFlag | src/main/java/com/jataxmltransformer/logic/xml/XMLFormatter.java:114-117 | stores the flag for later calls, then formats with it |
| XMLFormatter.Formatter.FormatOntology | src/main/java/com/jataxmltransformer/logic/xml/XMLFormatter.java:127-129 | formats with the flag left by earlier calls |
| LoadVerifyController.FirstMatch | src/main/java/com/jataxmltransformer/GUI/LoadVerifyController.java:158-166 | the index of the first error covering line `i`, or the list length when none does |
| LoadVerifyController.FindCoveringError | src/main/java/com/jataxmltransformer/GUI/LoadVerifyController.java:158-167 | the search loop with its `break` finds that first covering error |
| LoadVerifyController.CollectBlock | src/main/java/com/jataxmltransformer/GUI/LoadVerifyController.java:170-175 | the block holds the lines from its start up to its end clipped to the list size, and marks exactly those indices processed |
| LoadVerifyController.HighlightLine | src/main/java/com/jataxmltransformer/GUI/LoadVerifyController.java:143-192 | one outer iteration takes the state after `i` lines to the state after `i + 1` |
| LoadVerifyController.HighlightLines | src/main/java/com/jataxmltransformer/GUI/LoadVerifyController.java:142-193 | the outer loop yields the highlighting of all lines |
| LoadVerifyController.ThrownSticks | src/main/java/com/jataxmltransformer/GUI/LoadVerifyController.java:170-175 | once `get` has thrown, later lines change nothing |
| LoadVerifyController.StepFacts | src/main/java/com/jataxmltransformer/GUI/LoadVerifyController.java:155-175 | a line is skipped, or throws, or adds one block that contains it and marks its range processed |
| LoadVerifyController.BlocksFit | src/main/java/com/jataxmltransformer/GUI/LoadVerifyController.java:142-193 | at most one block per line, and each block holds exactly the existing lines of its range, flagged as error or plain |
| LoadVerifyController.StepGrowsProcessed | src/main/java/com/jataxmltransformer/GUI/LoadVerifyController.java:142-175 | a step that does not throw keeps every processed line and marks the current one |
| LoadVerifyController.StepKeepsShown | src/main/java/com/jataxmltransformer/GUI/LoadVerifyController.java:170-175 | every processed line stays inside some block |
| LoadVerifyController.ProcessedAreShown | src/main/java/com/jataxmltransformer/GUI/LoadVerifyController.java:142-175 | processed lines lie in blocks, and without a throw every line so far is processed |
| LoadVerifyController.EveryLineIsShown | src/main/java/com/jataxmltransformer/GUI/LoadVerifyController.java:142-193 | without a throw, every line index lies in some block and every block fits its range |
| LoadVerifyController.PositiveStartsNeverThrow | src/main/java/com/jataxmltransformer/GUI/LoadVerifyController.java:163-172 | when every error starts at line 1 or later, highlighting never throws |
| LoadVerifyController.NoErrorsPlainBlocks | src/main/java/com/jataxmltransformer/GUI/LoadVerifyController.java:142-193 | with no errors the result is one plain single-line block per line, in line order |
| LoadVerifyController.LoadVerifyController.constructor | src/main/java/com/jataxmltransformer/GUI/LoadVerifyController.java:48-53 | fresh, distinct, empty line lists and an empty ontology |
| LoadVerifyController.LoadVerifyController.HighlightErrors | src/main/java/com/jataxmltransformer/GUI/LoadVerifyController.java:137-194 | the list view holds the blocks of the highlighting, and the exception is reported when one is thrown |
| LoadVerifyController.LoadVerifyController.SerializeLines | src/main/java/com/jataxmltransformer/GUI/LoadVerifyController.java:95-99 | the XML data becomes each line followed by a newline |
| LoadVerifyController.LoadVerifyController.GetOntologyLines | src/main/java/com/jataxmltransformer/GUI/LoadVerifyController.java:254-256 | a fresh copy of the lines |
| LoadVerifyController.LoadVerifyController.SetOntologyLines | src/main/java/com/jataxmltransformer/GUI/LoadVerifyController.java:263-266 | the stored lines become the given ones, or empty when the list given is the stored list itself |
| LoadVerifyController.LoadVerifyController.LoadOntologyFile | src/main/java/com/jataxmltransformer/GUI/LoadVerifyController.java:60-86 | reads the file, sets name and extension, and shows one plain block per line when the data is non-empty |
| LoadVerifyController.LoadVerifyController.ReadOntologyFile | src/main/java/com/jataxmltransformer/GUI/LoadVerifyController.java:67-73 | the data becomes the file's lines each followed by a newline; name and extension come from the file name |
| LoadVerifyController.LoadVerifyController.DisplayXmlData | src/main/java/com/jataxmltransformer/GUI/LoadVerifyController.java:75-80 | non-empty data is split into lines and shown as plain blocks; otherwise nothing changes |
| LoadVerifyController.FilteredFileName | src/main/java/com/jataxmltransformer/GUI/LoadVerifyController.java:62-73 | a dot-free name followed by `.xml`, `.rdf` or `.owl` is named without that extension, and the extension is what follows the dot; a dot-free name is both name and extension |
| LoadVerifyController.ExtensionOf | src/main/java/com/jataxmltransformer/GUI/LoadVerifyController.java:73 | the text after the last dot (the whole name without one), which holds no dot |
| LoadVerifyController.DisplayRoundTrip | src/main/java/com/jataxmltransformer/GUI/LoadVerifyController.java:95-99 | splitting the serialised lines gives the lines back, trailing empty lines dropped |
| LoadVerifyController.LoadedLinesAreFileLines | src/main/java/com/jataxmltransformer/GUI/LoadVerifyController.java:67-76 | the lines shown after loading are the file's lines, trailing empty lines dropped |
| PopupController.Splice | src/main/java/com/jataxmltransformer/GUI/PopupController.java:103-107 | the lines before the range are kept, the new lines follow, then the lines after the range, shifted |
| PopupController.SpliceUndo | src/main/java/com/jataxmltransformer/GUI/PopupController.java:103-107 | splicing the replaced lines back restores the original list |
| PopupController.SpliceNothing | src/main/java/com/jataxmltransformer/GUI/PopupController.java:133-138 | removing a range keeps the lines before and after it |
| PopupController.SpliceByRemoveThenInsert | src/main/java/com/jataxmltransformer/GUI/PopupController.java:103-107 | clearing the range and then inserting at its start is the splice |
| PopupController.InsertLines | src/main/java/com/jataxmltransformer/GUI/PopupController.java:106-107 | the insertion loop puts the new lines in order at the index |
| PopupController.SplitJoinedBlock | src/main/java/com/jataxmltransformer/GUI/LoadVerifyController.java:218 | splitting the joined block gives the block back when its last line is not empty |
| PopupController.PopupText | src/main/java/com/jataxmltransformer/GUI/LoadVerifyController.java:218 | `subList` throws `IllegalArgumentException` exactly when the block starts after its end, clipped to the list; otherwise the block's lines joined with newlines |
| PopupController.UneditedSaveKeepsLines | src/main/java/com/jataxmltransformer/GUI/PopupController.java:98-110 | for a block inside the list, the popup text exists, and saving it unedited leaves the lines as they were |
| PopupController.SubListError | src/main/java/com/jataxmltransformer/GUI/PopupController.java:103 | an invalid range throws `IndexOutOfBoundsException` exactly when its end passes the list size |
| PopupController.PopupController.constructor | src/main/java/com/jataxmltransformer/GUI/PopupController.java:72-80 | stores the range, the text and the parent controller |
| PopupController.PopupController.RemoveLine | src/main/java/com/jataxmltransformer/GUI/PopupController.java:128-144 | an out-of-range start changes nothing; a bad range throws; otherwise the range is removed and the view re-highlighted; the parent's errors, backup and ontology stay the same |
| PopupController.PopupController.SaveChanges | src/main/java/com/jataxmltransformer/GUI/PopupController.java:94-116 | as for removal, but the range is replaced by the split edited text; the parent's errors, backup and ontology stay the same |
| Middleware.Terminated | src/main/java/com/jataxmltransformer/middleware/Middleware.java:141-142 | the result always contains `;;` |
| Middleware.CleanAppend | src/main/java/com/jataxmltransformer/middleware/Middleware.java:139-145 | cleaning a concatenation is concatenating the cleaned parts |
| Middleware.CleanLength | src/main/java/com/jataxmltransformer/middleware/Middleware.java:139-145 | cleaning never adds entries |
| Middleware.CleanedDeclarations | src/main/java/com/jataxmltransformer/middleware/Middleware.java:139-145 | an entry is kept exactly when it comes, terminated, from a non-blank non-default input |
| Middleware.CleanedAreTerminated | src/main/java/com/jataxmltransformer/middleware/Middleware.java:139-145 | every kept entry contains `;;`, is not blank and is not a default declaration |
| Middleware.TerminatedStaysKept | src/main/java/com/jataxmltransformer/middleware/Middleware.java:140-142 | terminating a kept entry keeps it kept, and terminating twice is terminating once |
| Middleware.CleanIdempotent | src/main/java/com/jataxmltransformer/middleware/Middleware.java:134-148 | cleaning twice is cleaning once |
| Middleware.DefaultsAreDropped | src/main/java/com/jataxmltransformer/middleware/Middleware.java:140 | default declarations are all dropped |
| Middleware.StoredNamespacesRoundTrip | src/main/java/com/jataxmltransformer/middleware/Middleware.java:134-148 | storing the stored namespaces again changes nothing |
| Middleware.UnsetPathsReportNothing | src/main/java/com/jataxmltransformer/middleware/Middleware.java:89-91 | elements without an XPath yield no error records |
| Middleware.Middleware.GetInstance | src/main/java/com/jataxmltransformer/middleware/Middleware.java:43-48 | returns the existing instance unchanged, or creates one with fresh empty state |
| Middleware.Middleware.ResetInstance | src/main/java/com/jataxmltransformer/middleware/Middleware.java:53-58 | clears the instance and installs fresh empty state |
| Middleware.Middleware.SetOntologyInput | src/main/java/com/jataxmltransformer/middleware/Middleware.java:116-118 | replaces only the input ontology |
| Middleware.Middleware.SetOntologyOutput | src/main/java/com/jataxmltransformer/middleware/Middleware.java:98-100 | replaces only the output ontology |
| Middleware.Middleware.SetNamespaces | src/main/java/com/jataxmltransformer/middleware/Middleware.java:134-148 | the stored namespaces become the defaults followed by the cleaned entries |
| Middleware.Middleware.SetStructure | src/main/java/com/jataxmltransformer/middleware/Middleware.java:164-166 | stores the structure list by reference |
| Middleware.Middleware.SetClasses | src/main/java/com/jataxmltransformer/middleware/Middleware.java:182-184 | stores the class list by reference |
| Middleware.Middleware.SetAttributes | src/main/java/com/jataxmltransformer/middleware/Middleware.java:200-202 | stores the attribute list by reference |
| Middleware.Middleware.SetNamespacesAndStructure | src/main/java/com/jataxmltransformer/middleware/Middleware.java:212-218 | stores the four lists, the namespaces after the defaults without cleaning |
| Middleware.Middleware.LoadStructure | src/main/java/com/jataxmltransformer/middleware/Middleware.java:225-237 | loads only when structure, attributes and classes are all non-empty, with the placeholder map of the stored lists |
| Middleware.Middleware.GetErrors | src/main/java/com/jataxmltransformer/middleware/Middleware.java:71-92 | an empty list for a missing or empty ontology; otherwise the formatting and diff outcomes; a normal return is always empty |
| Middleware.Middleware.VerifyOntology | src/main/java/com/jataxmltransformer/middleware/Middleware.java:245-252 | false for an empty input; otherwise the executor's verdict |
| Middleware.Middleware.TransformOntology | src/main/java/com/jataxmltransformer/middleware/Middleware.java:267-277 | true exactly when the transformation saved a file; then the output holds its XML and the input's name and extension; otherwise the output is untouched |
| CheckStructure.DeclarationShape | src/main/java/com/jataxmltransformer/logic/data/CheckStructure.java:33-38 | a declaration starts with `namespace ` and holds `;` only if its prefix or URI does |
| CheckStructure.DefaultsHaveNoSemicolon | src/main/java/com/jataxmltransformer/logic/data/CheckStructure.java:32-39 | no default prefix or URI holds `;` |
| CheckStructure.DefaultNamespaces | src/main/java/com/jataxmltransformer/logic/data/CheckStructure.java:31-40 | six declarations in fixed order, each `namespace prefix = "uri"` and free of `;` |
| CheckStructure.CheckStructure.constructor | src/main/java/com/jataxmltransformer/logic/data/CheckStructure.java:19-24 | four fresh, distinct, empty lists |
| CheckStructure.CheckStructure.SetNamespaces | src/main/java/com/jataxmltransformer/logic/data/CheckStructure.java:92-95 | a new list holding the defaults followed by the given entries, not aliased with the argument |
| CheckStructure.CheckStructure.SetAttributes | src/main/java/com/jataxmltransformer/logic/data/CheckStructure.java:56-58 | stores the given list itself |
| CheckStructure.CheckStructure.SetClasses | src/main/java/com/jataxmltransformer/logic/data/CheckStructure.java:74-76 | stores the given list itself |
| CheckStructure.CheckStructure.SetStructure | src/main/java/com/jataxmltransformer/logic/data/CheckStructure.java:111-113 | stores the given list itself |
| CDuceCommandExecutor.PrepareCommands | src/main/java/com/jataxmltransformer/logic/cducecompiler/CDuceCommandExecutor.java:77-79 | exactly two commands: `cd` to the converted path, then `cduce` on the script |
| CDuceCommandExecutor.CommandsEnterWslDirectory | src/main/java/com/jataxmltransformer/logic/cducecompiler/CDuceCommandExecutor.java:77-79 | a Windows path is entered under `/mnt/`; any other path is used as it is |
| CDuceCommandExecutor.CheckShellOutput | src/main/java/com/jataxmltransformer/logic/cducecompiler/CDuceCommandExecutor.java:88-94 | a null output throws `Unexpected output: null`; any other is passed on |
| CDuceCommandExecutor.ParseVerificationOutput | src/main/java/com/jataxmltransformer/logic/cducecompiler/CDuceCommandExecutor.java:103-108 | true exactly when the valid report appears; false exactly when it does not but an invalid or syntax-error report does; otherwise an exception naming the output |
| CDuceCommandExecutor.VerdictSurvivesMoreOutput | src/main/java/com/jataxmltransformer/logic/cducecompiler/CDuceCommandExecutor.java:103-108 | surrounding output never turns a verdict into an exception, nor a valid verdict into another |
| CDuceCommandExecutor.SilentOutputIsUnexpected | src/main/java/com/jataxmltransformer/logic/cducecompiler/CDuceCommandExecutor.java:103-108 | output holding neither `L` nor `S` is unexpected |
| CDuceCommandExecutor.ParseTransformationOutput | src/main/java/com/jataxmltransformer/logic/cducecompiler/CDuceCommandExecutor.java:117-125 | success exactly with `LOADED` and `FILE SAVED`; null exactly with `LOADED` and `FAILED` but no `FILE SAVED`; otherwise an exception |
| CDuceCommandExecutor.TransformationNeedsLoaded | src/main/java/com/jataxmltransformer/logic/cducecompiler/CDuceCommandExecutor.java:117-125 | without `LOADED` the output is unexpected |
| CDuceCommandExecutor.TransformationVerdictSurvivesMoreOutput | src/main/java/com/jataxmltransformer/logic/cducecompiler/CDuceCommandExecutor.java:117-125 | surrounding output never turns a verdict into an exception, nor success into another verdict |
| CDuceCommandExecutor.VerificationOutcome | src/main/java/com/jataxmltransformer/logic/cducecompiler/CDuceCommandExecutor.java:37-41 | a null shell output throws; otherwise the parsed verdict |
| CDuceCommandExecutor.Executor.constructor | src/main/java/com/jataxmltransformer/logic/cducecompiler/CDuceCommandExecutor.java:17 | the executor keeps the given environment |
| CDuceCommandExecutor.Executor.VerifyOntology | src/main/java/com/jataxmltransformer/logic/cducecompiler/CDuceCommandExecutor.java:26-42 | empty XML throws the save error; otherwise the verdict of the shell's output for the verification commands |
| CDuceCommandExecutor.Executor.TransformOntology | src/main/java/com/jataxmltransformer/logic/cducecompiler/CDuceCommandExecutor.java:51-68 | empty XML throws; a failed transformation gives null; a saved one gives a new ontology holding the output file's lines |
| CDuceCodeLoader.LoadTemplate | src/main/java/com/jataxmltransformer/logic/cducecompiler/CDuceCodeLoader.java:126-150 | an unreadable JSON file throws; a missing or empty key gives null; otherwise the template |
| CDuceCodeLoader.Instances | src/main/java/com/jataxmltransformer/logic/cducecompiler/CDuceCodeLoader.java:109-116 | one copy of the template per element, with the placeholder replaced by that element |
| CDuceCodeLoader.LoadTemplateAndSubstitute | src/main/java/com/jataxmltransformer/logic/cducecompiler/CDuceCodeLoader.java:106-118 | no elements give `""` even without a template; otherwise null for a missing template, else the instances each followed by a newline |
| CDuceCodeLoader.BlockReadsBackAsInstances | src/main/java/com/jataxmltransformer/logic/cducecompiler/CDuceCodeLoader.java:115 | reading the block line by line gives the instances back when they hold no line breaks |
| CDuceCodeLoader.TemplateWithoutPlaceholder | src/main/java/com/jataxmltransformer/logic/cducecompiler/CDuceCodeLoader.java:115 | a template without the placeholder is repeated unchanged |
| CDuceCodeLoader.LoadCheckStructure | src/main/java/com/jataxmltransformer/logic/cducecompiler/CDuceCodeLoader.java:28-53 | the four placeholders map to the joined namespaces and structure and to the two filter blocks |
| CDuceCodeLoader.Filter | src/main/java/com/jataxmltransformer/logic/cducecompiler/CDuceCodeLoader.java:43-46 | an empty list gives `""`, and null exactly when a non-empty list meets a missing template |
| CDuceCodeLoader.NamespaceValueSplitsBack | src/main/java/com/jataxmltransformer/logic/cducecompiler/CDuceCodeLoader.java:32 | the joined namespaces split back into the list |
| CDuceCodeLoader.VerifyMainPlaceholders | src/main/java/com/jataxmltransformer/logic/cducecompiler/CDuceCodeLoader.java:60-74 | maps the input file and the verify entry point |
| CDuceCodeLoader.TransformMainPlaceholders | src/main/java/com/jataxmltransformer/logic/cducecompiler/CDuceCodeLoader.java:82-97 | maps the input file, the transform entry point and the output file |
| CDuceCodeLoader.TransformExtendsVerify | src/main/java/com/jataxmltransformer/logic/cducecompiler/CDuceCodeLoader.java:60-97 | the transform map adds only the output key and agrees on the input file |
| CDucePlaceholderReplacer.Replacer.constructor | src/main/java/com/jataxmltransformer/logic/cducecompiler/CDucePlaceholderReplacer.java:31-35 | keeps the input and output paths |
| CDucePlaceholderReplacer.Replacer.Replace | src/main/java/com/jataxmltransformer/logic/cducecompiler/CDucePlaceholderReplacer.java:47-67 | a missing input file throws `File not found: <path>`; otherwise each read line with every entry applied, followed by the separator |
| CDucePlaceholderReplacer.LineWithoutKeysUnchanged | src/main/java/com/jataxmltransformer/logic/cducecompiler/CDucePlaceholderReplacer.java:54-56 | a line holding none of the keys comes through unchanged |
| CDucePlaceholderReplacer.WrittenAppend | src/main/java/com/jataxmltransformer/logic/cducecompiler/CDucePlaceholderReplacer.java:53-61 | the text written for two runs of lines is the two texts concatenated |
| CDucePlaceholderReplacer.OneOutputLinePerInputLine | src/main/java/com/jataxmltransformer/logic/cducecompiler/CDucePlaceholderReplacer.java:53-61 | with newline separators, the output splits into exactly one edited line per input line |
| CDucePlaceholderReplacer.WrittenIsLinesText | src/main/java/com/jataxmltransformer/logic/cducecompiler/CDucePlaceholderReplacer.java:53-61 | the output is the edited lines, each followed by a newline |
| CDucePlaceholderReplacer.SplitKeysSurvive | src/main/java/com/jataxmltransformer/logic/cducecompiler/CDucePlaceholderReplacer.java:53-56 | lines holding no key are written unchanged |
| CDucePlaceholderReplacer.BrokenKeyIsKept | src/main/java/com/jataxmltransformer/logic/cducecompiler/CDucePlaceholderReplacer.java:53-56 | a key split across a line break is not replaced |
| Data.Ontology.Empty | src/main/java/com/jataxmltransformer/logic/data/Ontology.java:29-30 | all three fields start null |
| Data.Ontology.constructor | src/main/java/com/jataxmltransformer/logic/data/Ontology.java:38-41 | name and extension as given, XML data null |
| Data.Ontology.SetXmlData | src/main/java/com/jataxmltransformer/logic/data/Ontology.java:57-59 | replaces only the XML data |
| Data.Ontology.SetOntologyName | src/main/java/com/jataxmltransformer/logic/data/Ontology.java:75-77 | replaces only the name |
| Data.Ontology.SetOntologyExtension | src/main/java/com/jataxmltransformer/logic/data/Ontology.java:93-95 | replaces only the extension |

## Left out

- File I/O is not modelled: file contents arrive as parameters (`Option<string>`, `None` for a missing file). This covers `Ontology.saveXmlToFile` and `loadXmlFromFile`, `FileHandler`, `diffXmlFiles`, `readAllLines`, and the writer of `CDucePlaceholderReplacer`. `Executor.VerifyOntology` keeps only the empty-data guard of `saveXmlToFile`.
- Environment variables read through Dotenv are fields of an `Environment` value. `AppLogger` calls are dropped, because logging does not affect results.
- Running CDuce in a subprocess (`ProcessExecutor`, `CommandExecutor`, `executeShellCommands`) is a `Shell` function parameter. Only its null check is modelled.
- The template JSON file is a value that either parses to a key-value map or does not. `optString`'s empty string for a missing key is kept. JSON parsing itself is left out.
- The XMLUnit comparison is an oracle that reports one of three outcomes: malformed, comparison failure, or a list of differences. SAX parsing is an event sequence with line numbers, or a malformed input. DOM parsing and serialisation are the `Dom` parameter. These are foreign libraries whose rules the core does not define.
- `removeEmptyTextNodes` mutates the DOM in place. The model works on tree values, so the sharing of nodes between the document and its callers is not modelled.
- `Middleware.KeepsNamespace` decides blankness with ASCII whitespace only, through `Text.IsBlank`. Java's `String.isBlank` uses `Character.isWhitespace`, so an entry made only of Unicode spaces such as U+2003 is dropped by Java but kept by the model.
- `XMLDiffChecker.GetEditedElement` returns the line range beside the element instead of storing it. `XMLDiffChecker.java:175-176` calls `setStartLine` and `setEndLine`, which `EditedElement.java` does not declare, so the source as given does not compile there.
- `toLowerCase` is modelled for ASCII letters only. Unicode case mapping and locale rules are left out. `String.trim` is modelled exactly: it drops leading and trailing chars at or below U+0020.
- `XMLFormatter.formatOntologyNamespaces`, the two-argument `CDucePlaceholderReplacer` constructor and `replacePlaceholders` are not defined in the repository. So `loadCheckStructure`, `loadVerifyMain` and `loadTransformMain` are modelled up to the placeholder map they build. The replacer is modelled by its `replacer` loop, with the paths as constructor arguments.
- `Ontology.isEmpty` is not defined in the repository either. `Middleware.GetErrors` and `Middleware.VerifyOntology` take its results as boolean parameters.
- `HashMap` iteration order for the placeholders is a parameter: a sequence of key-value pairs, applied in order.
- `newLine()` writes the platform's line separator, which is a parameter.
- Java `int` overflow of line counters and indices is not modelled. Line counts are unbounded.
- A `null` value put into a placeholder map would make `line.replace` throw. The model keeps `Option` values in the map and does not model that exception.
- `verifyFile` is only partly modelled: its serialisation step (`SerializeLines`) is. The controller's calls into the singleton, the status label, and `PopupController`'s closing call to `verifyFile` are not.
- The controller's `errors` field is never assigned in the repository, so re-highlighting after an edit always uses the empty list the field starts with. The model keeps the field as it is.
- JavaFX widgets, popup positioning and the other GUI controllers (`MainController`, `SaveController`, `StructureHandlerController`, `NamespacesHandlerController`, `CustomAlert`) are UI glue and are left out. The list view is modelled as a sequence of blocks.
- `Middleware.Middleware.GetErrors` models a `null` diff (a malformed document) as the `NullPointerException` that `differences.isEmpty()` raises.
- The per-parent indices some tests expect for nested elements are not stated; see the note on the XPath counter above.
