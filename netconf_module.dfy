/**
 * What `main()` does once the document is built: it fails when ncclient is
 * missing, fails when the document does not parse, fails when the device
 * rejects the edit, and otherwise reports a change and echoes the document.
 * The import of ncclient, minidom's parser and the NETCONF session are
 * foreign; the model receives what they did as an `Environment`.
 */
module NetconfModule {
  import opened ConfigTree
  import opened Transcriber
  import Envelope
  import TagNesting
  import WellNesting
  import opened Wrappers

  /** How a foreign call ended: it returned, or it raised an exception whose `str()` is `cause`. */
  datatype Attempt = Returned | Raised(cause: string)

  /**
   * What the module cannot see: whether `import ncclient.manager` succeeded,
   * what `xml.dom.minidom.parseString` does with a document, and what
   * connecting and sending `edit-config` to the running datastore does with it.
   */
  datatype Environment = Environment(
    hasNcclient: bool,
    parseString: string -> Attempt,
    editConfig: string -> Attempt)

  /** The two ways the module hands its result to Ansible. */
  datatype Outcome =
    | FailJson(msg: string)
    | ExitJson(changed: bool, stdoutLines: string)

  /** The three kinds of failure, told apart by how their messages begin. */
  datatype FailureKind = MissingDependency | MalformedDocument | TransportOrProtocol | Unrecognised

  const MissingNcclientMessage := "could not import the python library " + "ncclient required by this module"
  const ParseErrorHead := "error parsing XML: "
  const NetconfErrorHead := "error netconf "
  const RequestMarker := " XML request:"

  function ParseErrorMessage(cause: string, xml: string): string {
    ParseErrorHead + cause + xml
  }

  function NetconfErrorMessage(cause: string, xml: string): string {
    NetconfErrorHead + cause + RequestMarker + xml
  }

  /** The outcome for the document `xml`, each step running only if the ones before it succeeded. */
  function Report(env: Environment, xml: string): Outcome {
    if !env.hasNcclient then FailJson(MissingNcclientMessage)
    else match env.parseString(xml)
      case Raised(e) => FailJson(ParseErrorMessage(e, xml))
      case Returned =>
        match env.editConfig(xml)
        case Raised(e) => FailJson(NetconfErrorMessage(e, xml))
        case Returned => ExitJson(true, xml)
  }

  /** The document sent for `commands`: the transcription at depth 0 inside the envelope. */
  function Document(commands: Node): string {
    Envelope.Wrap(ObjToXml(commands, 0))
  }

  function RunModule(commands: Node, env: Environment): Outcome {
    Report(env, Document(commands))
  }

  /** Reads the kind of failure back from a message. */
  function Classify(msg: string): FailureKind {
    if msg == MissingNcclientMessage then MissingDependency
    else if |msg| >= |ParseErrorHead| && msg[..|ParseErrorHead|] == ParseErrorHead then MalformedDocument
    else if |msg| >= |NetconfErrorHead| && msg[..|NetconfErrorHead|] == NetconfErrorHead then TransportOrProtocol
    else Unrecognised
  }

  /** The module succeeds exactly when all three steps do, and then it reports a change and echoes the document. */
  lemma SuccessIff(env: Environment, xml: string)
    ensures Report(env, xml).ExitJson?
        <==> env.hasNcclient && env.parseString(xml).Returned? && env.editConfig(xml).Returned?
    ensures Report(env, xml).ExitJson? ==> Report(env, xml) == ExitJson(true, xml)
  {
  }

  /** Both failures after the dependency check end with the whole document. */
  lemma FailureEndsWithDocument(env: Environment, xml: string)
    requires env.hasNcclient && Report(env, xml).FailJson?
    ensures var msg := Report(env, xml).msg;
      |xml| <= |msg| && msg[|msg| - |xml|..] == xml
  {
    var msg := Report(env, xml).msg;
    match env.parseString(xml)
    case Raised(e) =>
      assert msg == (ParseErrorHead + e) + xml;
    case Returned =>
      var e := env.editConfig(xml).cause;
      assert msg == (NetconfErrorHead + e + RequestMarker) + xml;
  }

  /** Every message names its failure: the kind can be read back from the message alone. */
  lemma ClassifyReport(env: Environment, xml: string)
    requires Report(env, xml).FailJson?
    ensures var kind := Classify(Report(env, xml).msg);
      && (kind == MissingDependency <==> !env.hasNcclient)
      && (kind == MalformedDocument <==> env.hasNcclient && env.parseString(xml).Raised?)
      && (kind == TransportOrProtocol <==> env.hasNcclient && env.parseString(xml).Returned? && env.editConfig(xml).Raised?)
  {
    var msg := Report(env, xml).msg;
    assert MissingNcclientMessage[0] == 'c';
    if env.hasNcclient {
      match env.parseString(xml)
      case Raised(e) =>
        assert msg[..|ParseErrorHead|] == ParseErrorHead;
        assert msg != MissingNcclientMessage by {
          assert msg[0] == ParseErrorHead[0] == 'e';
        }
      case Returned =>
        assert msg[..|NetconfErrorHead|] == NetconfErrorHead;
        assert msg != MissingNcclientMessage by {
          assert msg[0] == NetconfErrorHead[0] == 'e';
        }
        assert msg[..|ParseErrorHead|] != ParseErrorHead by {
          assert msg[6] == NetconfErrorHead[6] == 'n';
          assert ParseErrorHead[6] == 'p';
        }
    }
  }

  /** Without ncclient nothing else is attempted: the inputs, the parser and the device do not matter. */
  lemma MissingDependencyFirst(env: Environment, other: Environment, xml: string, otherXml: string)
    requires !env.hasNcclient && !other.hasNcclient
    ensures Report(env, xml) == Report(other, otherXml) == FailJson(MissingNcclientMessage)
  {
  }

  /** A document that does not parse is never sent: what the device would do does not matter. */
  lemma ParseFailureSkipsDevice(env: Environment, editConfig: string -> Attempt, xml: string)
    requires env.hasNcclient && env.parseString(xml).Raised?
    ensures Report(env, xml) == Report(env.(editConfig := editConfig), xml)
    ensures Report(env, xml) == FailJson(ParseErrorMessage(env.parseString(xml).cause, xml))
  {
  }

  /**
   * A document the device rejects gives `'error netconf ' + e + ' XML request:' + xml`,
   * so the exception's text and the whole document both reach the user.
   */
  lemma NetconfFailureMessage(env: Environment, xml: string)
    requires env.hasNcclient && env.parseString(xml).Returned? && env.editConfig(xml).Raised?
    ensures Report(env, xml) == FailJson(NetconfErrorMessage(env.editConfig(xml).cause, xml))
    ensures var msg := Report(env, xml).msg; var e := env.editConfig(xml).cause;
      msg[|NetconfErrorHead|..|NetconfErrorHead| + |e|] == e
  {
    var e := env.editConfig(xml).cause;
    var msg := Report(env, xml).msg;
    assert msg == NetconfErrorHead + e + (RequestMarker + xml);
  }

  /**
   * On success the module echoes the document; stripping the envelope gives
   * back the transcription, and for a plain tree the document is well nested.
   */
  lemma RunModuleSuccess(commands: Node, env: Environment)
    requires RunModule(commands, env).ExitJson?
    ensures RunModule(commands, env).changed
    ensures Envelope.Unwrap(RunModule(commands, env).stdoutLines) == Some(ObjToXml(commands, 0))
    ensures WellNesting.PlainTree(commands) ==> TagNesting.WellNested(RunModule(commands, env).stdoutLines)
  {
    Envelope.UnwrapWrap(ObjToXml(commands, 0));
    if WellNesting.PlainTree(commands) {
      WellNesting.DocumentWellNested(commands, 0);
    }
  }
}
