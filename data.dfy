/**
 * The value types shared by the tool (logic/data and logic/utilities):
 * Java's `null` is `None`, a thrown exception is `Fail` with its kind and message.
 */
module Data {

  datatype Option<T> = None | Some(value: T)

  /** The exception classes the core throws (`Checked` is a plain `java.lang.Exception`). */
  datatype ErrorKind = IllegalArgument | IO | Runtime | Checked | NullPointer | IndexOutOfBounds

  datatype Error = Error(kind: ErrorKind, message: string)

  datatype Result<T> = Ok(value: T) | Fail(error: Error)
  {
    predicate IsFailure() { Fail? }
  }

  /** `MyPair<F, S>` */
  datatype Pair<F, S> = Pair(first: F, second: S)

  /** `EditedElement`: the changed data, an identifier, and the XPath (null unless set). */
  datatype EditedElement = EditedElement(data: Option<string>, id: Option<string>, xPath: Option<string>)

  /** `ErrorInfo`: the 1-based line range of an error, its message and details. */
  datatype ErrorInfo = ErrorInfo(startLine: int, endLine: int, errorMessage: Option<string>, elementDetails: Option<string>)

  /** `Ontology`: XML content plus the file's name and extension, each possibly null. */
  class Ontology {
    var xmlData: Option<string>
    var ontologyName: Option<string>
    var ontologyExtension: Option<string>

    /** `new Ontology()` */
    constructor Empty()
      ensures xmlData == None && ontologyName == None && ontologyExtension == None
    {
      xmlData := None;
      ontologyName := None;
      ontologyExtension := None;
    }

    /** `new Ontology(name, extension)`: the XML data stays null until set. */
    constructor (name: Option<string>, extension: Option<string>)
      ensures xmlData == None && ontologyName == name && ontologyExtension == extension
    {
      xmlData := None;
      ontologyName := name;
      ontologyExtension := extension;
    }

    method SetXmlData(xml: Option<string>)
      modifies this
      ensures xmlData == xml
      ensures ontologyName == old(ontologyName) && ontologyExtension == old(ontologyExtension)
    {
      xmlData := xml;
    }

    method SetOntologyName(name: Option<string>)
      modifies this
      ensures ontologyName == name
      ensures xmlData == old(xmlData) && ontologyExtension == old(ontologyExtension)
    {
      ontologyName := name;
    }

    method SetOntologyExtension(extension: Option<string>)
      modifies this
      ensures ontologyExtension == extension
      ensures xmlData == old(xmlData) && ontologyName == old(ontologyName)
    {
      ontologyExtension := extension;
    }
  }

  /** A mutable `List<String>` that several owners may share by reference. */
  class StringList {
    var items: seq<string>

    constructor (xs: seq<string>)
      ensures items == xs
    {
      items := xs;
    }
  }
}
