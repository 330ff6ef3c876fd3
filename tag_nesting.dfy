/**
 * The tag structure of a document, read the way an XML parser reads tags: a
 * start tag pushes its element name, an end tag must close the innermost open
 * element, an empty-element tag does both, the XML declaration is skipped,
 * and text between tags is ignored. Markup starting `<!` is not read.
 * A document is well nested when the reading succeeds and leaves no element
 * open.
 */
module TagNesting {
  import opened Wrappers

  predicate IsSpace(c: char) {
    c == ' ' || c == '\t' || c == '\n' || c == '\r'
  }

  /** The position of the first `>` at or after `i`, or `|s|` when there is none. */
  function FindGt(s: string, i: nat): (j: nat)
    requires i <= |s|
    ensures i <= j <= |s|
    ensures j < |s| ==> s[j] == '>'
    ensures forall k :: i <= k < j ==> s[k] != '>'
    decreases |s| - i
  {
    if i == |s| || s[i] == '>' then i else FindGt(s, i + 1)
  }

  /** The element name at the start of a tag's text; attributes follow the first white space. */
  function TagName(t: string): (name: string)
    ensures |name| <= |t| && name == t[..|name|]
    ensures |name| < |t| ==> IsSpace(t[|name|])
  {
    if t == [] || IsSpace(t[0]) then [] else [t[0]] + TagName(t[1..])
  }

  /**
   * Reads `s` with `open` the names of the elements still open, innermost
   * last. Gives the elements open at the end, or `None` when a tag is not
   * closed, holds a `<`, has no element name, or ends an element other than
   * the innermost one. An empty-element tag `<name/>` opens and closes its
   * element at once. Other `<!...>` markup (comments, CDATA sections, document
   * type declarations) is rejected rather than read.
   */
  function Scan(s: string, open: seq<string>): Option<seq<string>>
    decreases |s|
  {
    if s == [] then Some(open)
    else if s[0] != '<' then Scan(s[1..], open)
    else
      var j := FindGt(s, 1);
      if j == |s| then None
      else
        var t := s[1..j];
        if '<' in t then None
        else if |t| > 0 && t[0] == '?' then
          if |t| >= 2 && t[|t| - 1] == '?' then Scan(s[j + 1..], open) else None
        else if |t| > 0 && t[0] == '/' then
          if |open| > 0 && open[|open| - 1] == t[1..] then Scan(s[j + 1..], open[..|open| - 1]) else None
        else if |t| > 0 && t[0] == '!' then None
        else if |t| > 0 && t[|t| - 1] == '/' then
          if TagName(t[..|t| - 1]) != [] then Scan(s[j + 1..], open) else None
        else if TagName(t) != [] then Scan(s[j + 1..], open + [TagName(t)])
        else None
  }

  predicate WellNested(s: string) {
    Scan(s, []) == Some([])
  }

  /** Text with no `<` in it is skipped over. */
  lemma {:induction false} ScanText(text: string, rest: string, open: seq<string>)
    requires '<' !in text
    ensures Scan(text + rest, open) == Scan(rest, open)
    decreases |text|
  {
    if text != [] {
      assert text[0] in text;
      var s := text + rest;
      assert s[0] == text[0] && s[0] != '<';
      assert s[1..] == text[1..] + rest;
      ScanText(text[1..], rest, open);
    } else {
      assert text + rest == rest;
    }
  }

  /** Where the reading of a tag `<t>` in front of `rest` ends. */
  lemma TagBounds(t: string, rest: string)
    requires '>' !in t
    ensures var s := "<" + t + ">" + rest;
      FindGt(s, 1) == |t| + 1 && s[1..|t| + 1] == t && s[|t| + 2..] == rest
  {
    var s := "<" + t + ">" + rest;
    assert s[|t| + 1] == '>';
    assert forall k :: 1 <= k < |t| + 1 ==> s[k] == t[k - 1];
    assert s[1..|t| + 1] == t;
    assert s[|t| + 2..] == rest;
  }

  /** A start tag opens the element its text names. */
  lemma ScanStartTag(t: string, rest: string, open: seq<string>)
    requires '<' !in t && '>' !in t
    requires |t| > 0 && !IsSpace(t[0]) && t[0] != '/' && t[0] != '?' && t[0] != '!' && t[|t| - 1] != '/'
    ensures Scan("<" + t + ">" + rest, open) == Scan(rest, open + [TagName(t)])
  {
    TagBounds(t, rest);
    assert TagName(t) == [t[0]] + TagName(t[1..]);
  }

  /** An empty-element tag `<name/>` leaves the open elements as they are. */
  lemma ScanEmptyElementTag(t: string, rest: string, open: seq<string>)
    requires '<' !in t && '>' !in t
    requires |t| >= 2 && !IsSpace(t[0]) && t[0] != '/' && t[0] != '?' && t[0] != '!' && t[|t| - 1] == '/'
    ensures Scan("<" + t + ">" + rest, open) == Scan(rest, open)
  {
    TagBounds(t, rest);
    var u := t[..|t| - 1];
    assert u[0] == t[0];
    assert TagName(u) == [u[0]] + TagName(u[1..]);
  }

  /** Markup starting `<!` is rejected. */
  lemma ScanBangMarkup(t: string, rest: string, open: seq<string>)
    requires '<' !in t && '>' !in t
    requires |t| > 0 && t[0] == '!'
    ensures Scan("<" + t + ">" + rest, open) == None
  {
    TagBounds(t, rest);
  }

  /** A tag with no element name is rejected. */
  lemma ScanNamelessTag(rest: string, open: seq<string>)
    ensures Scan("<" + "" + ">" + rest, open) == None
  {
    TagBounds("", rest);
  }

  /** An end tag closes the innermost open element when it has that name. */
  lemma ScanEndTag(name: string, rest: string, open: seq<string>)
    requires '<' !in name && '>' !in name
    ensures Scan("</" + name + ">" + rest, open + [name]) == Scan(rest, open)
  {
    var t := "/" + name;
    assert "</" + name + ">" + rest == "<" + t + ">" + rest;
    TagBounds(t, rest);
    assert t[1..] == name;
    assert (open + [name])[..|open|] == open;
  }

  /** The XML declaration `<?...?>` leaves the open elements as they are. */
  lemma ScanDeclaration(t: string, rest: string, open: seq<string>)
    requires '<' !in t && '>' !in t
    requires |t| >= 2 && t[0] == '?' && t[|t| - 1] == '?'
    ensures Scan("<" + t + ">" + rest, open) == Scan(rest, open)
  {
    TagBounds(t, rest);
  }

  /** A tag name is read up to the first white space and no further. */
  lemma {:induction false} TagNameOfPlainName(name: string)
    requires forall i :: 0 <= i < |name| ==> !IsSpace(name[i])
    ensures TagName(name) == name
    decreases |name|
  {
    if name != [] {
      TagNameOfPlainName(name[1..]);
    }
  }

  /** Attributes after the first white space are not part of the name. */
  lemma {:induction false} TagNameBeforeSpace(name: string, attributes: string)
    requires forall i :: 0 <= i < |name| ==> !IsSpace(name[i])
    requires |attributes| > 0 && IsSpace(attributes[0])
    ensures TagName(name + attributes) == name
    decreases |name|
  {
    if name == [] {
      assert name + attributes == attributes;
    } else {
      assert (name + attributes)[1..] == name[1..] + attributes;
      TagNameBeforeSpace(name[1..], attributes);
    }
  }

  /** A start tag with attributes opens the element named before them. */
  lemma ScanStartTagWithAttributes(name: string, attributes: string, rest: string, open: seq<string>)
    requires forall i :: 0 <= i < |name| ==> name[i] != '<' && name[i] != '>' && !IsSpace(name[i])
    requires |name| > 0 && name[0] != '/' && name[0] != '?' && name[0] != '!'
    requires '<' !in attributes && '>' !in attributes && |attributes| > 0 && IsSpace(attributes[0])
    requires attributes[|attributes| - 1] != '/'
    ensures Scan("<" + (name + attributes) + ">" + rest, open) == Scan(rest, open + [name])
  {
    var t := name + attributes;
    assert t[0] == name[0] && t[|t| - 1] == attributes[|attributes| - 1];
    assert '<' !in name && '>' !in name by {
      assert forall i :: 0 <= i < |name| ==> name[i] != '<' && name[i] != '>';
    }
    TagNameBeforeSpace(name, attributes);
    ScanStartTag(t, rest, open);
  }

  /** An end tag that does not match the innermost open element is rejected. */
  lemma ScanMismatchedEndTag(name: string, rest: string, open: seq<string>)
    requires '<' !in name && '>' !in name
    requires |open| == 0 || open[|open| - 1] != name
    ensures Scan("</" + name + ">" + rest, open) == None
  {
    var t := "/" + name;
    assert "</" + name + ">" + rest == "<" + t + ">" + rest;
    TagBounds(t, rest);
    assert t[1..] == name;
  }
}
