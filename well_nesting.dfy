/**
 * The transcriber's output is well nested by construction: each mapping entry
 * is one start tag, the value's own (well nested) XML, and the matching end
 * tag. That holds as long as no key or string leaf smuggles in markup of its
 * own.
 */
module WellNesting {
  import opened ConfigTree
  import opened PyStr
  import opened Transcriber
  import opened TagNesting
  import opened Wrappers
  import Envelope

  /**
   * A key that reads back, as a tag name, as itself: not empty, no `<`, `>`
   * or white space, not starting like an end tag, a declaration or other
   * `<!` markup, and not ending like an empty-element tag.
   */
  predicate PlainKey(key: string) {
    && |key| > 0
    && (forall i :: 0 <= i < |key| ==> key[i] != '<' && key[i] != '>' && !IsSpace(key[i]))
    && key[0] != '/' && key[0] != '?' && key[0] != '!'
    && key[|key| - 1] != '/'
  }

  /** Every key in the tree is plain and no string leaf holds a `<`. */
  predicate PlainTree(obj: Node)
    decreases obj
  {
    match obj
    case Map(entries) => forall i :: 0 <= i < |entries| ==> PlainKey(entries[i].0) && PlainTree(entries[i].1)
    case Str(s) => '<' !in s
    case _ => true
  }

  /**
   * Reading the transcription of a plain tree, from any state and followed by
   * anything, ends in the state it started from: every element it opens it
   * closes again, innermost first, and it never closes one it did not open.
   */
  lemma {:induction false} ScanObj(obj: Node, indent: int, rest: string, open: seq<string>)
    requires PlainTree(obj)
    ensures Scan(ObjToXml(obj, indent) + rest, open) == Scan(rest, open)
    decreases obj, 1
  {
    match obj
    case Map(entries) =>
      ScanEntries(obj, |entries|, indent, rest, open);
    case Str(s) =>
      ScanText(s, rest, open);
    case Int(i) =>
      ScanText(IntToDecimal(i), rest, open);
    case Bool(b) =>
      ScanText(BoolToStr(b), rest, open);
    case Null =>
      ScanText(NoneStr, rest, open);
  }

  lemma {:induction false} ScanEntries(obj: Node, n: nat, indent: int, rest: string, open: seq<string>)
    requires obj.Map? && n <= |obj.entries| && PlainTree(obj)
    ensures Scan(EntriesToXml(obj, n, indent) + rest, open) == Scan(rest, open)
    decreases obj, 0, n
  {
    if n == 0 {
      assert EntriesToXml(obj, n, indent) + rest == rest;
    } else {
      var (key, value) := obj.entries[n - 1];
      assert PlainKey(key) && PlainTree(value);
      var content := ObjToXml(value, indent + 1);
      var element := Element(key, content);
      assert EntriesToXml(obj, n, indent) + rest == EntriesToXml(obj, n - 1, indent) + (element + rest);
      ScanEntries(obj, n - 1, indent, element + rest, open);
      ScanObj(value, indent + 1, CloseTag(key) + rest, open + [key]);
      ScanElement(key, content, rest, open);
    }
  }

  /** An element whose content leaves the open elements alone leaves them alone too. */
  lemma ScanElement(key: string, content: string, rest: string, open: seq<string>)
    requires PlainKey(key)
    requires Scan(content + (CloseTag(key) + rest), open + [key]) == Scan(CloseTag(key) + rest, open + [key])
    ensures Scan(Element(key, content) + rest, open) == Scan(rest, open)
  {
    assert '<' !in key && '>' !in key by {
      assert forall i :: 0 <= i < |key| ==> key[i] != '<' && key[i] != '>';
    }
    assert Element(key, content) + rest == "<" + key + ">" + (content + (CloseTag(key) + rest));
    ScanStartTag(key, content + (CloseTag(key) + rest), open);
    TagNameOfPlainName(key);
    ScanEndTag(key, rest, open);
  }

  /** The transcription of a plain tree is well nested on its own. */
  lemma FragmentWellNested(obj: Node, indent: int)
    requires PlainTree(obj)
    ensures WellNested(ObjToXml(obj, indent))
  {
    ScanObj(obj, indent, "", []);
    assert ObjToXml(obj, indent) + "" == ObjToXml(obj, indent);
  }

  /**
   * Reading a declaration, two nested start tags, a fragment that leaves the
   * open elements alone, and the two end tags, in the layout of the envelope.
   */
  lemma {:induction false} ScanEnvelopeShape(decl: string, configName: string, configAttributes: string,
                                             nativeName: string, nativeAttributes: string,
                                             outer: string, inner: string, obj: Node, indent: int, doc: string)
    requires '<' !in decl && '>' !in decl && |decl| >= 2 && decl[0] == '?' && decl[|decl| - 1] == '?'
    requires PlainKey(configName) && PlainKey(nativeName)
    requires '<' !in configAttributes && '>' !in configAttributes && |configAttributes| > 0 && IsSpace(configAttributes[0])
    requires configAttributes[|configAttributes| - 1] != '/'
    requires '<' !in nativeAttributes && '>' !in nativeAttributes && |nativeAttributes| > 0 && IsSpace(nativeAttributes[0])
    requires nativeAttributes[|nativeAttributes| - 1] != '/'
    requires '<' !in outer && '<' !in inner
    requires PlainTree(obj)
    requires var f := ObjToXml(obj, indent);
      doc == "<" + decl + ">" + (outer + ("<" + (configName + configAttributes) + ">" +
              (inner + ("<" + (nativeName + nativeAttributes) + ">" +
              ("\n" + (f + (inner + ("</" + nativeName + ">" + (outer + ("</" + configName + ">" + outer))))))))))
    ensures Scan(doc, []) == Some([])
  {
    var f := ObjToXml(obj, indent);
    var endConfig := "</" + configName + ">" + outer;
    var endNative := "</" + nativeName + ">" + (outer + endConfig);
    var afterNative := "\n" + (f + (inner + endNative));
    var afterConfig := inner + ("<" + (nativeName + nativeAttributes) + ">" + afterNative);
    var afterDecl := outer + ("<" + (configName + configAttributes) + ">" + afterConfig);
    assert '<' !in configName && '>' !in configName && '<' !in nativeName && '>' !in nativeName by {
      assert forall i :: 0 <= i < |configName| ==> configName[i] != '<' && configName[i] != '>';
      assert forall i :: 0 <= i < |nativeName| ==> nativeName[i] != '<' && nativeName[i] != '>';
    }
    ScanDeclaration(decl, afterDecl, []);
    ScanText(outer, "<" + (configName + configAttributes) + ">" + afterConfig, []);
    ScanStartTagWithAttributes(configName, configAttributes, afterConfig, []);
    ScanText(inner, "<" + (nativeName + nativeAttributes) + ">" + afterNative, [configName]);
    ScanStartTagWithAttributes(nativeName, nativeAttributes, afterNative, [configName]);
    assert [configName] + [nativeName] == [configName, nativeName];
    ScanText("\n", f + (inner + endNative), [configName, nativeName]);
    ScanObj(obj, indent, inner + endNative, [configName, nativeName]);
    ScanText(inner, endNative, [configName, nativeName]);
    assert [configName, nativeName] == [configName] + [nativeName];
    ScanEndTag(nativeName, outer + endConfig, [configName]);
    ScanText(outer, endConfig, [configName]);
    assert [configName] == [] + [configName];
    ScanEndTag(configName, outer, []);
    ScanText(outer, "", []);
    assert outer + "" == outer;
  }

  lemma Regroup(d: string, o: string, c: string, i: string, n: string, f: string, endN: string, endC: string)
    ensures ("<" + d + ">" + o + "<" + c + ">" + i + "<" + n + ">" + "\n") + f + (i + endN + o + endC + o)
         == "<" + d + ">" + (o + ("<" + c + ">" + (i + ("<" + n + ">" + ("\n" + (f + (i + (endN + (o + (endC + o))))))))))
  {
  }

  /** The document, regrouped the way the reading takes it apart. */
  lemma WrapLayout(f: string)
    ensures Envelope.Wrap(f)
         == "<" + Envelope.DeclarationText + ">" + (Envelope.OuterLine + ("<" + ("config" + Envelope.ConfigAttributes) + ">" +
              (Envelope.InnerLine + ("<" + ("native" + Envelope.NativeAttributes) + ">" + ("\n" + (f +
              (Envelope.InnerLine + ("</" + "native" + ">" + (Envelope.OuterLine + ("</" + "config" + ">" + Envelope.OuterLine))))))))))
  {
    assert "</native>" == "</" + "native" + ">" && "</config>" == "</" + "config" + ">";
    Regroup(Envelope.DeclarationText, Envelope.OuterLine, "config" + Envelope.ConfigAttributes, Envelope.InnerLine,
            "native" + Envelope.NativeAttributes, f, "</" + "native" + ">", "</" + "config" + ">");
  }

  /** The declaration is read as one, and the line breaks between tags are plain text. */
  lemma EnvelopeDeclarationPlain()
    ensures var decl := Envelope.DeclarationText;
      '<' !in decl && '>' !in decl && |decl| >= 2 && decl[0] == '?' && decl[|decl| - 1] == '?'
    ensures '<' !in Envelope.OuterLine && '<' !in Envelope.InnerLine
  {
  }

  /** The two envelope elements have plain names. */
  lemma EnvelopeNamesPlain()
    ensures PlainKey("config") && PlainKey("native")
  {
  }

  /** The attributes of `<config>` are set off by white space, hold no markup and do not end the tag early. */
  lemma ConfigAttributesPlain()
    ensures var attributes := Envelope.ConfigAttributes;
      '<' !in attributes && '>' !in attributes && |attributes| > 0 && IsSpace(attributes[0])
      && attributes[|attributes| - 1] != '/'
  {
  }

  /** Nor do those of `<native>`. */
  lemma NativeAttributesPlain()
    ensures var attributes := Envelope.NativeAttributes;
      '<' !in attributes && '>' !in attributes && |attributes| > 0 && IsSpace(attributes[0])
      && attributes[|attributes| - 1] != '/'
  {
  }

  /** So is the whole document once the envelope is around it. */
  lemma DocumentWellNested(obj: Node, indent: int)
    requires PlainTree(obj)
    ensures WellNested(Envelope.Wrap(ObjToXml(obj, indent)))
  {
    var f := ObjToXml(obj, indent);
    WrapLayout(f);
    EnvelopeDeclarationPlain();
    EnvelopeNamesPlain();
    ConfigAttributesPlain();
    NativeAttributesPlain();
    ScanEnvelopeShape(Envelope.DeclarationText, "config", Envelope.ConfigAttributes, "native", Envelope.NativeAttributes,
                      Envelope.OuterLine, Envelope.InnerLine, obj, indent, Envelope.Wrap(f));
  }

  /**
   * Keeping `<` and `>` out of keys is not enough: a key that starts with `/`
   * is read as an end tag.
   */
  lemma SlashKeyNotWellNested()
    ensures !WellNested(ObjToXml(Map([("/a", Str("x"))]), 0))
  {
    MapSingleton("/a", Str("x"), 0);
    assert ObjToXml(Map([("/a", Str("x"))]), 0) == "</" + "a" + ">" + ("x" + "<//a>");
    ScanMismatchedEndTag("a", "x" + "<//a>", []);
  }

  /** Nor is a key with a space in it: its start tag names a different element than its end tag. */
  lemma SpacedKeyNotWellNested()
    ensures !WellNested(ObjToXml(Map([("a b", Str("x"))]), 0))
  {
    MapSingleton("a b", Str("x"), 0);
    assert ObjToXml(Map([("a b", Str("x"))]), 0) == "<" + "a b" + ">" + ("x" + "</a b>");
    ScanStartTag("a b", "x" + "</a b>", []);
    assert TagName("a b") == "a";
    ScanText("x", "</a b>", ["a"]);
    assert "</a b>" == "</" + "a b" + ">" + "";
    ScanMismatchedEndTag("a b", "", ["a"]);
  }

  /** Nor is a key that ends with `/`: its start tag is an empty-element tag, and its end tag closes nothing. */
  lemma TrailingSlashKeyNotWellNested()
    ensures !WellNested(ObjToXml(Map([("a/", Str("x"))]), 0))
  {
    MapSingleton("a/", Str("x"), 0);
    assert ObjToXml(Map([("a/", Str("x"))]), 0) == "<" + "a/" + ">" + ("x" + "</a/>");
    ScanEmptyElementTag("a/", "x" + "</a/>", []);
    ScanText("x", "</a/>", []);
    assert "</a/>" == "</" + "a/" + ">" + "";
    ScanMismatchedEndTag("a/", "", []);
  }

  /** Nor is a key that starts with `!`: `<!-->` begins a comment, not an element. */
  lemma BangKeyNotWellNested()
    ensures !WellNested(ObjToXml(Map([("!--", Str("x"))]), 0))
  {
    MapSingleton("!--", Str("x"), 0);
    assert ObjToXml(Map([("!--", Str("x"))]), 0) == "<" + "!--" + ">" + ("x" + "</!-->");
    ScanBangMarkup("!--", "x" + "</!-->", []);
  }

  /** Nor is the empty key: `<>` names no element. */
  lemma EmptyKeyNotWellNested()
    ensures !WellNested(ObjToXml(Map([("", Str("x"))]), 0))
  {
    MapSingleton("", Str("x"), 0);
    assert ObjToXml(Map([("", Str("x"))]), 0) == "<" + "" + ">" + ("x" + "</>");
    ScanNamelessTag("x" + "</>", []);
  }
}
