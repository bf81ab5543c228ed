/**
 * CheckStructure: the four lists that describe what a valid ontology looks
 * like (namespace declarations, CDuce type definitions, attribute filters,
 * class filters). Lists are objects here, so a setter that stores the list
 * it is given shares it with the caller.
 */
module CheckStructure {
  import opened Text
  import opened Data

  /** A CDuce namespace declaration: `namespace prefix = "uri"`. */
  function Declaration(prefix: string, uri: string): string {
    "namespace " + prefix + " = \"" + uri + "\""
  }

  /** A declaration starts with `namespace ` and holds a `;` only if its prefix or URI does. */
  lemma DeclarationShape(prefix: string, uri: string)
    ensures StartsWith(Declaration(prefix, uri), "namespace ")
    ensures ';' in Declaration(prefix, uri) <==> ';' in prefix || ';' in uri
  {
    var d := Declaration(prefix, uri);
    assert d == "namespace " + (prefix + " = \"" + uri + "\"");
    assert ';' !in "namespace " && ';' !in " = \"" && ';' !in "\"";
  }

  /** The prefixes of the default declarations, in order. */
  const DefaultPrefixes: seq<string> := ["skos", "owl", "rdf", "xml", "xsd", "rdfs"]

  /** The host every default URI starts with. */
  const W3: string := "http://www.w3.org/"

  /** The URIs of the default declarations, in order. */
  const DefaultUris: seq<string> := [
    W3 + "2004/02/skos/core#",
    W3 + "2002/07/owl#",
    W3 + "1999/02/22-rdf-syntax-ns#",
    W3 + "XML/1998/namespace",
    W3 + "2001/XMLSchema#",
    W3 + "2000/01/rdf-schema#"
  ]

  /** No default prefix or URI holds a `;`. */
  lemma DefaultsHaveNoSemicolon()
    ensures forall k :: 0 <= k < |DefaultPrefixes| ==> ';' !in DefaultPrefixes[k]
    ensures forall k :: 0 <= k < |DefaultUris| ==> ';' !in DefaultUris[k]
  {
    var paths := ["2004/02/skos/core#", "2002/07/owl#", "1999/02/22-rdf-syntax-ns#",
                  "XML/1998/namespace", "2001/XMLSchema#", "2000/01/rdf-schema#"];
    forall k | 0 <= k < 6 ensures ';' !in DefaultUris[k] {
      assert DefaultUris[k] == W3 + paths[k];
      assert ';' !in paths[k];
    }
  }

  /**
   * `getDefaultNamespaces`: the six declarations every generated program
   * carries, in a fixed order; none of them holds a `;`.
   */
  function DefaultNamespaces(): (ns: seq<string>)
    ensures |ns| == |DefaultPrefixes| == |DefaultUris| == 6
    ensures forall k :: 0 <= k < |ns| ==> ns[k] == Declaration(DefaultPrefixes[k], DefaultUris[k])
    ensures forall k :: 0 <= k < |ns| ==> StartsWith(ns[k], "namespace ") && ';' !in ns[k]
  {
    DefaultsHaveNoSemicolon();
    var ns := seq(6, k requires 0 <= k < 6 => Declaration(DefaultPrefixes[k], DefaultUris[k]));
    forall k | 0 <= k < 6 ensures StartsWith(ns[k], "namespace ") && ';' !in ns[k] {
      DeclarationShape(DefaultPrefixes[k], DefaultUris[k]);
    }
    ns
  }

  /** `CheckStructure`: the four lists, each an object of its own. */
  class CheckStructure {
    var attributes: StringList
    var classes: StringList
    var namespaces: StringList
    var structure: StringList

    /** A new structure holds four distinct empty lists. */
    constructor ()
      ensures fresh(attributes) && fresh(classes) && fresh(namespaces) && fresh(structure)
      ensures attributes.items == [] && classes.items == [] && namespaces.items == [] && structure.items == []
      ensures attributes != classes && attributes != namespaces && attributes != structure
      ensures classes != namespaces && classes != structure && namespaces != structure
    {
      namespaces := new StringList([]);
      structure := new StringList([]);
      classes := new StringList([]);
      attributes := new StringList([]);
    }

    /**
     * `setNamespaces(ns)`: a new list of the defaults followed by `ns`; the
     * previous list is dropped, and `ns` itself is not kept, so later
     * changes to it do not reach the structure.
     */
    method SetNamespaces(ns: StringList)
      modifies this
      ensures fresh(namespaces) && namespaces != ns
      ensures namespaces.items == DefaultNamespaces() + ns.items
      ensures attributes == old(attributes) && classes == old(classes) && structure == old(structure)
    {
      namespaces := new StringList(DefaultNamespaces() + ns.items);
    }

    /** `setAttributes`: the given list itself is stored. */
    method SetAttributes(l: StringList)
      modifies this
      ensures attributes == l
      ensures classes == old(classes) && namespaces == old(namespaces) && structure == old(structure)
    {
      attributes := l;
    }

    /** `setClasses`: the given list itself is stored. */
    method SetClasses(l: StringList)
      modifies this
      ensures classes == l
      ensures attributes == old(attributes) && namespaces == old(namespaces) && structure == old(structure)
    {
      classes := l;
    }

    /** `setStructure`: the given list itself is stored. */
    method SetStructure(l: StringList)
      modifies this
      ensures structure == l
      ensures attributes == old(attributes) && classes == old(classes) && namespaces == old(namespaces)
    {
      structure := l;
    }
  }
}
