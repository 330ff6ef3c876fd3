# IOS-XE NETCONF YAML module, modelled in Dafny

This project models the core of the Ansible module `iosxe_netconf_yml`. The module takes a configuration tree (a YAML mapping), writes it out as an XML fragment, and puts that fragment inside a fixed NETCONF `<config>`/`<native>` envelope. It then checks that the document parses, sends it to an IOS-XE device with `edit-config`, and reports back to Ansible.

- `ConfigTree.Node` is the tree: a mapping whose entries are kept in the order `keys()` yields them, or a string, integer, boolean or `None` leaf.
- `Transcriber` is `convert_obj_to_xml`. `ConvertObjToXml` is the source's loop, which appends to an accumulator and recurses into each value. It is proved equal to the recursive reference definition `ObjToXml`/`EntriesToXml`, and the lemmas about the transcription are stated on that definition.
- `PyStr` is Python's `str()` of the non-string leaves. The partner `ParseCanonicalInt` reads the decimal numeral back.
- `Envelope` holds the fixed text before and after the fragment, exactly as in the module's triple-quoted template (line breaks and indentation included). `Unwrap` strips it off again.
- `TagNesting` reads a document's tags and checks that they nest. A start tag pushes its element name, which is the text up to the first white space. A tag with no name is rejected. An end tag must close the innermost open element. An empty-element tag `<name/>` opens and closes at once. The `<?xml ...?>` declaration is skipped. Other markup starting `<!` (comments, CDATA sections, document type declarations) is rejected rather than read, since a plain tree's document never contains any. This checks nesting only, not all of XML's well-formedness rules (see "## Left out").
- `WellNesting` proves that the transcription of a *plain* tree is well nested, on its own and inside the envelope. In a plain tree, every key is non-empty, contains no `<`, `>` or white space, does not start with `/`, `?` or `!`, and does not end with `/`. No string leaf contains `<`. Keeping `<` and `>` out of keys is not enough, and one lemma shows each of these cases:
  - a key `/a` makes the transcriber write `</a>` as its start tag (`SlashKeyNotWellNested`);
  - a key `a b` opens `a` but closes `a b` (`SpacedKeyNotWellNested`);
  - a key `a/` gives the empty-element tag `<a/>`, whose end tag then closes nothing (`TrailingSlashKeyNotWellNested`);
  - a key `!--` gives `<!-->`, which begins a comment (`BangKeyNotWellNested`);
  - the empty key gives `<>`, which names nothing (`EmptyKeyNotWellNested`).

  The proof of `DocumentWellNested` uses two proof steps, `Regroup` and `WrapLayout`. They only regroup the envelope's text into the order in which the reader takes it apart.
- `NetconfModule` is the outcome logic of `main`. The foreign steps are an `Environment` of oracles: whether ncclient imported, what minidom's `parseString` does with the document, and what the device does with `edit-config`.

Three behaviours of the code are easy to misread:

- The transcriber takes an `indent` argument that it never uses. It is modelled, and `IndentIrrelevant` proves it has no effect.
- `changed` is set only on success. A failure's `fail_json` call carries a message and no `changed` flag.
- `stdout_lines` is the document as one string, not a list of lines.

## Model

| member | source | states |
|---|---|---|
| `Transcriber.ConvertObjToXml` | network/iosxe/iosxe_netconf_yml.py:15-28 | The key loop, which appends `<key>`, the value's transcription and `</key>` for each entry in order, computes exactly the recursive transcription `ObjToXml`. A string leaf is appended as it is, and other leaves as their `str()`. |
| `Transcriber.ObjToXml` | network/iosxe/iosxe_netconf_yml.py:15-28 | The recursive reference definition of the transcription. A mapping is its entries' elements in key order. A string leaf is itself. An integer, boolean or `None` leaf is its `str()`. It has no contract of its own: the lemmas below state its properties. |
| `Transcriber.EntriesToXml` | network/iosxe/iosxe_netconf_yml.py:18-22 | What the key loop has accumulated after the first `n` keys: the previous accumulation followed by `<k>`, the value's transcription one level deeper, and `</k>`. It has no contract of its own. |
| `Transcriber.EmptyMap` | network/iosxe/iosxe_netconf_yml.py:16-22 | An empty mapping transcribes to the empty string, because the loop never runs and `out` stays `""`. |
| `Transcriber.EntriesToXmlPrefix` | network/iosxe/iosxe_netconf_yml.py:18-22 | What the loop has produced after `n` keys depends only on the first `n` entries. |
| `Transcriber.EntriesToXmlAppend` | network/iosxe/iosxe_netconf_yml.py:18-22 | After all of `xs` and `n` keys of `ys`, the loop has produced the transcription of `xs` followed by the first `n` elements of `ys`. |
| `Transcriber.MapAppend` | network/iosxe/iosxe_netconf_yml.py:18-22 | A mapping whose entries are `xs` then `ys` transcribes to the transcription of `xs` followed by that of `ys`, with no separator. |
| `Transcriber.MapCons` | network/iosxe/iosxe_netconf_yml.py:18-22 | The first key yields exactly one segment `"<" + k + ">" + convert(v) + "</" + k + ">"`, placed in front of the segments of the other keys. |
| `Transcriber.MapSingleton` | network/iosxe/iosxe_netconf_yml.py:18-22 | A one-key mapping transcribes to a single element wrapping its value's transcription. |
| `Transcriber.StringVerbatim` | network/iosxe/iosxe_netconf_yml.py:24-25 | A string leaf is returned verbatim. |
| `Transcriber.NoEscapingCollision` | network/iosxe/iosxe_netconf_yml.py:20-25 | Nothing is escaped: the string leaf `<a>x</a>` and the mapping `{a: x}` give the same output. |
| `Transcriber.ScalarsAsPythonStr` | network/iosxe/iosxe_netconf_yml.py:26-27 | An integer leaf is written in decimal and reads back as the same integer. Booleans are written `True`/`False` and `None` as `None`. |
| `Transcriber.IndentIrrelevant` | network/iosxe/iosxe_netconf_yml.py:15-21 | `convert(obj, i) == convert(obj, j)` for all `i` and `j`: `indent` is only passed down, never read. |
| `Transcriber.EntriesIndentIrrelevant` | network/iosxe/iosxe_netconf_yml.py:18-21 | The same for the loop's partial results, at every depth. |
| `Transcriber.ExampleNested` | network/iosxe/iosxe_netconf_yml.py:17-27 | `{a: {b: x, c: 1}}` transcribes to `<a><b>x</b><c>1</c></a>`, with the inner keys in input order. |
| `PyStr.NatToDecimal` | network/iosxe/iosxe_netconf_yml.py:26-27 | `str(n)` of a non-negative integer is a canonical numeral: non-empty, only digits, no leading zero. Its decimal value is `n`. |
| `PyStr.IntToDecimal` | network/iosxe/iosxe_netconf_yml.py:26-27 | `str(i)` is non-empty and made of digits and a minus sign. It starts with `-` exactly when `i` is negative. |
| `PyStr.BoolToStr` | network/iosxe/iosxe_netconf_yml.py:26-27 | `str()` of a boolean: `True` or `False`. `ScalarsAsPythonStr` states this for the transcription. |
| `PyStr.CanonicalIsNatToDecimal` | network/iosxe/iosxe_netconf_yml.py:26-27 | Every canonical numeral is what `str` writes for its value. |
| `PyStr.IntToDecimalRoundTrip` | network/iosxe/iosxe_netconf_yml.py:26-27 | The numeral written for an integer reads back as that integer. |
| `PyStr.ParseCanonicalIntSound` | network/iosxe/iosxe_netconf_yml.py:26-27 | Any string that reads as an integer is exactly what `str` writes for it. |
| `PyStr.IntToDecimalInjective` | network/iosxe/iosxe_netconf_yml.py:26-27 | Distinct integers are written differently. |
| `WellNesting.ScanObj` | network/iosxe/iosxe_netconf_yml.py:17-27 | Reading a plain tree's transcription, from any open elements and followed by anything, ends with the same elements open. It closes every element it opens, innermost first, and never closes one it did not open. |
| `WellNesting.ScanEntries` | network/iosxe/iosxe_netconf_yml.py:18-22 | The same for the loop's partial result after `n` keys. |
| `WellNesting.ScanElement` | network/iosxe/iosxe_netconf_yml.py:20-22 | The start tag, content and end tag written for a plain key match up when the content is balanced. |
| `WellNesting.FragmentWellNested` | network/iosxe/iosxe_netconf_yml.py:17-27 | The transcription of a plain tree is well nested: every `<k>` is closed by a later `</k>`, with no interleaving. |
| `WellNesting.SlashKeyNotWellNested` | network/iosxe/iosxe_netconf_yml.py:20-22 | With the key `/a`, the output is not well nested, although the key has no angle brackets. |
| `WellNesting.SpacedKeyNotWellNested` | network/iosxe/iosxe_netconf_yml.py:20-22 | With the key `a b`, the output is not well nested either. |
| `WellNesting.TrailingSlashKeyNotWellNested` | network/iosxe/iosxe_netconf_yml.py:20-22 | With the key `a/`, the start tag `<a/>` is an empty element and the end tag `</a/>` closes nothing, so the output is not well nested. |
| `WellNesting.BangKeyNotWellNested` | network/iosxe/iosxe_netconf_yml.py:20-22 | With the key `!--`, the start tag `<!-->` is comment markup, not an element, so the output is not well nested. |
| `WellNesting.EmptyKeyNotWellNested` | network/iosxe/iosxe_netconf_yml.py:20-22 | With the empty key, the start tag `<>` names no element, so the output is not well nested. |
| `WellNesting.ScanEnvelopeShape` | network/iosxe/iosxe_netconf_yml.py:49-55 | A declaration, two nested start tags with attributes and a balanced fragment, followed by the matching end tags, read as well nested. |
| `WellNesting.DocumentWellNested` | network/iosxe/iosxe_netconf_yml.py:47-55 | The whole document sent to the device is well nested when the tree is plain. |
| `Envelope.Wrap` | network/iosxe/iosxe_netconf_yml.py:49-55 | The document is exactly as long as the fixed prefix, the fragment and the fixed suffix together. |
| `Envelope.Unwrap` | network/iosxe/iosxe_netconf_yml.py:49-55 | The partner of `Wrap`. It checks for the template's fixed prefix and suffix and returns the text between them, or nothing. `UnwrapWrap` and `WrapUnwrap` connect the two. |
| `Envelope.UnwrapWrap` | network/iosxe/iosxe_netconf_yml.py:49-55 | Stripping the constant prefix and suffix from the document recovers the fragment. |
| `Envelope.WrapUnwrap` | network/iosxe/iosxe_netconf_yml.py:49-55 | Any document that unwraps is the envelope around what it unwraps to. |
| `Envelope.WrapInjective` | network/iosxe/iosxe_netconf_yml.py:49-55 | Different fragments give different documents. |
| `NetconfModule.Report` | network/iosxe/iosxe_netconf_yml.py:61-92 | The outcome of `main` for a given document. Without ncclient, the fixed import error. When the parser raises, `'error parsing XML: ' + e + xml`. When the connection or the edit raises, `'error netconf ' + e + ' XML request:' + xml`. Otherwise `changed = True` with `stdout_lines = xml`. The lemmas below state its properties. |
| `NetconfModule.Document` | network/iosxe/iosxe_netconf_yml.py:47-55 | The document sent for the tree: its transcription at depth 0 inside the envelope. `RunModuleSuccess` states what can be recovered from it. |
| `NetconfModule.RunModule` | network/iosxe/iosxe_netconf_yml.py:47-92 | The module from the loaded tree to the outcome: `Report` on `Document(commands)`. |
| `NetconfModule.Classify` | network/iosxe/iosxe_netconf_yml.py:61-85 | The partner of `Report`'s failures. It reads the kind of failure back from a message by the fixed text it begins with. `ClassifyReport` connects the two. |
| `NetconfModule.SuccessIff` | network/iosxe/iosxe_netconf_yml.py:61-92 | The module succeeds exactly when ncclient is available, the document parses and the edit is accepted. It then reports `changed = True` with `stdout_lines` equal to the document. |
| `NetconfModule.FailureEndsWithDocument` | network/iosxe/iosxe_netconf_yml.py:65-86 | Both the parse failure and the NETCONF failure end with the whole document. |
| `NetconfModule.ClassifyReport` | network/iosxe/iosxe_netconf_yml.py:61-86 | The kind of a failure can be read back from its message alone: the missing-ncclient text, `error parsing XML: `, or `error netconf `. Each holds exactly in its own case. |
| `NetconfModule.NetconfFailureMessage` | network/iosxe/iosxe_netconf_yml.py:75-86 | When the document parses and the connection or the edit raises `e`, the message is exactly `'error netconf ' + e + ' XML request:' + xml`. `e` appears right after the head, so the cause reaches the user. |
| `NetconfModule.MissingDependencyFirst` | network/iosxe/iosxe_netconf_yml.py:61-63 | Without ncclient the message is the fixed import error, whatever the document, parser or device. |
| `NetconfModule.ParseFailureSkipsDevice` | network/iosxe/iosxe_netconf_yml.py:65-74 | When parsing raises `e`, the message is `'error parsing XML: ' + e + xml`, and what the device would have done makes no difference. |
| `NetconfModule.RunModuleSuccess` | network/iosxe/iosxe_netconf_yml.py:47-92 | On success, `changed` is true and `stdout_lines` unwraps to the transcription of the tree at depth 0. It is also well nested when the tree is plain. |

## Left out

- `yaml.safe_load(str(commands))` (line 46) is a foreign library call. Its result is taken as a `Node` value.
- Lists, floats and other Python values as leaves are not modelled. Their `str()` is Python's repr and float formatting. Leaves are strings, integers, booleans and `None`.
- `dict.keys()` order is not modelled. The source is Python 2, where this order comes from hashing. The model takes the order as given by the entry sequence. The tree's keys are not required to be distinct, because no property depends on it.
- Non-string keys are not modelled: keys are typed `string`. In the source, a YAML key such as `1`, `true` or `~` makes `"<" + key` (line 20) raise `TypeError`. Line 47 is outside every `try`, so `main` crashes before the ncclient check and before the debug file is written.
- Strings are sequences of characters. The split between `str` and `unicode` that `basestring` covers, and their encodings, are not modelled.
- Writing the document to `/tmp/iosxe.txt` (lines 56-59) is file system I/O and is left out.
- `xml.dom.minidom.parseString` (line 66) is a foreign parser. It is the oracle `Environment.parseString`. `TagNesting` models only tag nesting, not the rest of XML well-formedness: character and name rules, `&` and entity references, attribute syntax, and `<!...>` markup (comments, CDATA, document type declarations), which it rejects rather than reads. So the model does not prove that any tree's document parses. `WellNested` is a property for this reader, and `PlainKey` keeps keys out of the shapes where this reader and XML's would differ (empty-element tags, `<!` markup, nameless tags).
- `ncclient.manager.connect_ssh` and `edit_config` (lines 77-79) are network I/O. They are the single oracle `Environment.editConfig`. The connection parameters and `hostkey_verify=False` are not modelled. Whether the session is released is not modelled either, because the source does nothing about it.
- Argument parsing, `get_module`, `get_exception`, `fail_json` and `exit_json` (lines 31-44, 95-98) come from files that are not part of this model. `fail_json` is taken to end the module, which is why nothing runs after the ncclient check fails (lines 61-63 have no `return`).
- Datastore locking and retries are not in the source and are not modelled.
