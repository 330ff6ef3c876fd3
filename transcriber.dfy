/**
 * `convert_obj_to_xml(obj, indent)`: writes a configuration tree as an XML
 * fragment. Each mapping entry becomes one element named after its key; a
 * string leaf is copied as it is, with no escaping; any other leaf is written
 * as Python's `str()` of it. `indent` is handed down one larger at each level
 * and never used otherwise.
 */
module Transcriber {
  import opened ConfigTree
  import opened PyStr

  function OpenTag(key: string): string {
    "<" + key + ">"
  }

  function CloseTag(key: string): string {
    "</" + key + ">"
  }

  /** The element one mapping entry produces. */
  function Element(key: string, content: string): string {
    OpenTag(key) + content + CloseTag(key)
  }

  /** The fragment `convert_obj_to_xml(obj, indent)` returns. */
  function ObjToXml(obj: Node, indent: int): string
    decreases obj, 1
  {
    match obj
    case Map(entries) => EntriesToXml(obj, |entries|, indent)
    case Str(s) => s
    case Int(i) => IntToDecimal(i)
    case Bool(b) => BoolToStr(b)
    case Null => NoneStr
  }

  /**
   * What the key loop has accumulated after the first `n` entries of the
   * mapping `obj`, whose values sit one level deeper than `obj`.
   */
  function EntriesToXml(obj: Node, n: nat, indent: int): string
    requires obj.Map? && n <= |obj.entries|
    decreases obj, 0, n
  {
    if n == 0 then ""
    else
      var (key, value) := obj.entries[n - 1];
      EntriesToXml(obj, n - 1, indent) + Element(key, ObjToXml(value, indent + 1))
  }

  /**
   * The transcriber as the source runs it: a loop over the keys that appends
   * each element to an accumulator while recursing into the value.
   */
  method ConvertObjToXml(obj: Node, indent: int) returns (out: string)
    ensures out == ObjToXml(obj, indent)
    decreases obj
  {
    out := "";
    match obj {
      case Map(entries) =>
        var i := 0;
        while i < |entries|
          invariant 0 <= i <= |entries|
          invariant out == EntriesToXml(obj, i, indent)
        {
          var (key, value) := entries[i];
          out := out + "<" + key + ">";
          var inner := ConvertObjToXml(value, indent + 1);
          out := out + inner;
          out := out + "</" + key + ">";
          i := i + 1;
        }
      case Str(s) =>
        out := out + s;
      case Int(n) =>
        out := out + IntToDecimal(n);
      case Bool(b) =>
        out := out + BoolToStr(b);
      case Null =>
        out := out + NoneStr;
    }
  }

  /** The loop's partial result depends only on the entries it has visited. */
  lemma {:induction false} EntriesToXmlPrefix(a: Node, b: Node, n: nat, indent: int)
    requires a.Map? && b.Map? && n <= |a.entries| && n <= |b.entries|
    requires a.entries[..n] == b.entries[..n]
    ensures EntriesToXml(a, n, indent) == EntriesToXml(b, n, indent)
    decreases n
  {
    if n > 0 {
      assert a.entries[n - 1] == a.entries[..n][n - 1] == b.entries[n - 1];
      assert a.entries[..n - 1] == a.entries[..n][..n - 1];
      assert b.entries[..n - 1] == b.entries[..n][..n - 1];
      EntriesToXmlPrefix(a, b, n - 1, indent);
    }
  }

  lemma {:induction false} EntriesToXmlAppend(xs: seq<(string, Node)>, ys: seq<(string, Node)>, n: nat, indent: int)
    requires n <= |ys|
    ensures EntriesToXml(Map(xs + ys), |xs| + n, indent)
         == ObjToXml(Map(xs), indent) + EntriesToXml(Map(ys), n, indent)
    decreases n
  {
    if n == 0 {
      assert (xs + ys)[..|xs|] == xs == xs[..|xs|];
      EntriesToXmlPrefix(Map(xs + ys), Map(xs), |xs|, indent);
    } else {
      EntriesToXmlAppend(xs, ys, n - 1, indent);
      assert (xs + ys)[|xs| + n - 1] == ys[n - 1];
    }
  }

  /** Transcribing a mapping whose entries are `xs` then `ys` is transcribing `xs`, then `ys`. */
  lemma MapAppend(xs: seq<(string, Node)>, ys: seq<(string, Node)>, indent: int)
    ensures ObjToXml(Map(xs + ys), indent) == ObjToXml(Map(xs), indent) + ObjToXml(Map(ys), indent)
  {
    EntriesToXmlAppend(xs, ys, |ys|, indent);
  }

  /** An empty mapping transcribes to the empty string. */
  lemma EmptyMap(indent: int)
    ensures ObjToXml(Map([]), indent) == ""
  {
  }

  /**
   * The first key of a mapping yields exactly one element, in front of the
   * elements of the remaining keys, with nothing in between.
   */
  lemma MapCons(key: string, value: Node, rest: seq<(string, Node)>, indent: int)
    ensures ObjToXml(Map([(key, value)] + rest), indent)
         == "<" + key + ">" + ObjToXml(value, indent + 1) + "</" + key + ">" + ObjToXml(Map(rest), indent)
  {
    MapAppend([(key, value)], rest, indent);
    MapSingleton(key, value, indent);
  }

  /** A one-key mapping is a single element. */
  lemma MapSingleton(key: string, value: Node, indent: int)
    ensures ObjToXml(Map([(key, value)]), indent) == "<" + key + ">" + ObjToXml(value, indent + 1) + "</" + key + ">"
  {
    assert ObjToXml(Map([(key, value)]), indent) == EntriesToXml(Map([(key, value)]), 0, indent) + Element(key, ObjToXml(value, indent + 1));
  }

  /** A string leaf is copied verbatim, markup characters included. */
  lemma StringVerbatim(s: string, indent: int)
    ensures ObjToXml(Str(s), indent) == s
  {
  }

  /** A leaf that is neither a mapping nor a string is written as its `str()`. */
  lemma ScalarsAsPythonStr(i: int, indent: int)
    ensures ObjToXml(Int(i), indent) == IntToDecimal(i)
    ensures ParseCanonicalInt(ObjToXml(Int(i), indent)) == Wrappers.Some(i)
    ensures ObjToXml(Bool(true), indent) == "True" && ObjToXml(Bool(false), indent) == "False"
    ensures ObjToXml(Null, indent) == "None"
  {
    IntToDecimalRoundTrip(i);
  }

  /** `indent` changes nothing in the result. */
  lemma {:induction false} IndentIrrelevant(obj: Node, i: int, j: int)
    ensures ObjToXml(obj, i) == ObjToXml(obj, j)
    decreases obj, 1
  {
    if obj.Map? {
      EntriesIndentIrrelevant(obj, |obj.entries|, i, j);
    }
  }

  lemma {:induction false} EntriesIndentIrrelevant(obj: Node, n: nat, i: int, j: int)
    requires obj.Map? && n <= |obj.entries|
    ensures EntriesToXml(obj, n, i) == EntriesToXml(obj, n, j)
    decreases obj, 0, n
  {
    if n > 0 {
      EntriesIndentIrrelevant(obj, n - 1, i, j);
      IndentIrrelevant(obj.entries[n - 1].1, i + 1, j + 1);
    }
  }

  /**
   * Because strings are not escaped, a string leaf that holds markup is
   * indistinguishable from the mapping that markup describes.
   */
  lemma NoEscapingCollision()
    ensures ObjToXml(Str("<a>x</a>"), 0) == ObjToXml(Map([("a", Str("x"))]), 0)
  {
    MapSingleton("a", Str("x"), 0);
  }

  /**
   * A mapping nested in a mapping, with a string and an integer leaf: the
   * inner keys come out in input order, inside the outer element.
   */
  lemma ExampleNested(a: string, b: string, c: string, x: string)
    ensures ObjToXml(Map([(a, Map([(b, Str(x)), (c, Int(1))]))]), 0)
         == "<" + a + ">" + "<" + b + ">" + x + "</" + b + ">" + "<" + c + ">" + "1" + "</" + c + ">" + "</" + a + ">"
  {
    var inner := Map([(b, Str(x)), (c, Int(1))]);
    assert inner.entries == [(b, Str(x))] + [(c, Int(1))];
    MapCons(b, Str(x), [(c, Int(1))], 1);
    var first := "<" + b + ">" + x + "</" + b + ">";
    assert ObjToXml(Str(x), 2) == x;
    assert ObjToXml(inner, 1) == first + ObjToXml(Map([(c, Int(1))]), 1);
    MapSingleton(c, Int(1), 1);
    assert ObjToXml(Int(1), 2) == "1";
    var second := "<" + c + ">" + "1" + "</" + c + ">";
    assert ObjToXml(inner, 1) == first + second;
    MapSingleton(a, inner, 0);
    assert ObjToXml(Map([(a, inner)]), 0) == "<" + a + ">" + (first + second) + "</" + a + ">";
  }
}
