/**
 * The fixed document around the transcribed fragment: the XML declaration, a
 * `<config>` element in the NETCONF base namespace, and inside it a `<native>`
 * element in the IOS native model's namespace. The line breaks and leading
 * spaces are those of the module's triple-quoted template.
 */
module Envelope {
  import opened Wrappers

  const DeclarationText := "?xml version=\"1.0\" encoding=\"UTF-8\"?"
  /** The NETCONF base namespace, bound to the prefix `xc`. */
  const ConfigAttributes := " " + "xmlns:xc=\"urn:ietf:params:" + "xml:ns:netconf:base:1.0\""
  /** The default namespace of the IOS native YANG model. */
  const NativeAttributes := " " + "xmlns=\"http://cisco.com/" + "ns/yang/ned/ios\""
  const ConfigStartText := "config" + ConfigAttributes
  const NativeStartText := "native" + NativeAttributes

  /** A line break and the indentation of the `<config>` lines. */
  const OuterLine := "\n            "
  /** A line break and the indentation of the `<native>` lines. */
  const InnerLine := "\n              "

  /** Everything in front of the fragment. */
  const Prefix := "<" + DeclarationText + ">" + OuterLine + "<" + ConfigStartText + ">" + InnerLine + "<" + NativeStartText + ">" + "\n"

  /** Everything after the fragment. */
  const Suffix := InnerLine + "</native>" + OuterLine + "</config>" + OuterLine

  /** The document sent to the device for a given fragment. */
  function Wrap(fragment: string): (doc: string)
    ensures |doc| == |Prefix| + |fragment| + |Suffix|
  {
    Prefix + fragment + Suffix
  }

  /** The fragment inside a document, when the document has the envelope. */
  function Unwrap(doc: string): Option<string> {
    if |doc| >= |Prefix| + |Suffix| && doc[..|Prefix|] == Prefix && doc[|doc| - |Suffix|..] == Suffix
    then Some(doc[|Prefix|..|doc| - |Suffix|])
    else None
  }

  /** Stripping the envelope gives back the fragment. */
  lemma UnwrapWrap(fragment: string)
    ensures Unwrap(Wrap(fragment)) == Some(fragment)
  {
    var doc := Wrap(fragment);
    assert doc[..|Prefix|] == Prefix;
    assert doc[|doc| - |Suffix|..] == Suffix;
    assert doc[|Prefix|..|doc| - |Suffix|] == fragment;
  }

  /** A document that unwraps is the envelope around what it unwraps to. */
  lemma WrapUnwrap(doc: string, fragment: string)
    requires Unwrap(doc) == Some(fragment)
    ensures Wrap(fragment) == doc
  {
    assert doc == doc[..|Prefix|] + doc[|Prefix|..|doc| - |Suffix|] + doc[|doc| - |Suffix|..];
  }

  /** Different fragments give different documents: the envelope adds nothing that depends on them. */
  lemma WrapInjective(f: string, g: string)
    requires Wrap(f) == Wrap(g)
    ensures f == g
  {
    UnwrapWrap(f);
    UnwrapWrap(g);
  }
}
