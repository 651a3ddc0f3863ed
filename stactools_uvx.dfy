/**
 * The stactools-uvx item service: a request names a stactools package and
 * its `create-item` arguments; the service builds a `uvx` command line,
 * runs it with a temporary output file appended, optionally overrides the
 * item's collection and validates the result as a STAC item.
 *
 * Running the command and reading the output file are the oracle `run`;
 * STAC validation is the oracle `validate`.
 */
module StactoolsUvx {
  import opened Common
  import opened JsonValues

  /** The request body; `createItemOptions` lists the options dictionary's entries in iteration order. */
  datatype StactoolsRequest = StactoolsRequest(
    packageName: string,
    groupName: string,
    createItemArgs: seq<string>,
    createItemOptions: seq<(string, string)>,
    collectionId: Option<string>)

  /** The `detail` of an HTTP error: a message, or the failed command's report. */
  datatype Detail =
    | Message(text: string)
    | CommandFailed(error: string, stderr: string, stdout: string)

  datatype HttpError = HttpError(statusCode: int, detail: Detail)

  /** How the subprocess ended: it exited with a code, or it could not be started. */
  datatype ProcessRun =
    | Exited(returnCode: int, stdout: string, stderr: string)
    | LaunchFailed(reason: string)

  /** One run of the command: how the process ended and what the output file then holds as JSON. */
  datatype Execution = Execution(process: ProcessRun, output: Result<Json, string>)

  const MissingPackage: string := "Missing required parameter: package_name"
  const CommandFailedText: string := "Command execution failed"
  const UnexpectedPrefix: string := "Unexpected error: "
  const NotAnObject: string := "item document is not a JSON object"
  const CollectionKey: string := "collection"

  /** The fixed head of the command line, up to and including the sub-command. */
  function CommandPrefix(req: StactoolsRequest): (r: seq<string>)
    ensures |r| == 8
  {
    ["uvx", "--with", "requests," + req.packageName, "--from", "stactools", "stac", req.groupName, "create-item"]
  }

  /** The command-line form of the options: `--key value` for each entry, in order. */
  function OptionArgs(options: seq<(string, string)>): (r: seq<string>)
    ensures |r| == 2 * |options|
  {
    if options == [] then []
    else
      var (k, v) := options[|options| - 1];
      OptionArgs(options[..|options| - 1]) + ["--" + k, v]
  }

  /** Each option occupies exactly two consecutive places: its flag, then its value. */
  lemma {:induction false} OptionArgsAt(options: seq<(string, string)>)
    ensures |OptionArgs(options)| == 2 * |options|
    ensures forall k :: 0 <= k < |options| ==>
              OptionArgs(options)[2 * k] == "--" + options[k].0 && OptionArgs(options)[2 * k + 1] == options[k].1
  {
    if options != [] {
      OptionArgsAt(options[..|options| - 1]);
    }
  }

  /** Reads an option list back from its command-line form: flag/value pairs, each flag starting with "--". */
  function ReadOptions(s: seq<string>): Option<seq<(string, string)>>
    decreases |s|
  {
    if s == [] then Some([])
    else if |s| < 2 then None
    else
      var flag := s[|s| - 2];
      var rest := ReadOptions(s[..|s| - 2]);
      if |flag| < 2 || flag[..2] != "--" || rest.None? then None
      else Some(rest.value + [(flag[2..], s[|s| - 1])])
  }

  /** The options survive the trip through the command line unchanged, whatever their keys and values. */
  lemma {:induction false} OptionArgsRoundTrip(options: seq<(string, string)>)
    ensures ReadOptions(OptionArgs(options)) == Some(options)
  {
    if options != [] {
      var init := options[..|options| - 1];
      var (k, v) := options[|options| - 1];
      OptionArgsRoundTrip(init);
      var s := OptionArgs(options);
      assert s == OptionArgs(init) + ["--" + k, v];
      assert s[..|s| - 2] == OptionArgs(init);
      assert ("--" + k)[..2] == "--" && ("--" + k)[2..] == k;
      assert init + [(k, v)] == options;
    }
  }

  /**
   * The command list of `create_stac_item` before the output path: the
   * fixed head, the positional arguments, then each option as a flag and a
   * value.
   */
  method BuildCommand(req: StactoolsRequest) returns (command: seq<string>)
    ensures |command| == 8 + |req.createItemArgs| + 2 * |req.createItemOptions|
    ensures command == CommandPrefix(req) + req.createItemArgs + OptionArgs(req.createItemOptions)
    ensures forall k :: 0 <= k < |req.createItemOptions| ==>
              command[8 + |req.createItemArgs| + 2 * k] == "--" + req.createItemOptions[k].0 &&
              command[8 + |req.createItemArgs| + 2 * k + 1] == req.createItemOptions[k].1
  {
    var options := req.createItemOptions;
    command := CommandPrefix(req) + req.createItemArgs;
    var i := 0;
    while i < |options|
      invariant 0 <= i <= |options|
      invariant command == CommandPrefix(req) + req.createItemArgs + OptionArgs(options[..i])
    {
      var (option, value) := options[i];
      assert options[..i + 1] == options[..i] + [(option, value)];
      command := command + ["--" + option, value];
      i := i + 1;
    }
    assert options[..i] == options;
    OptionArgsAt(options);
  }

  /**
   * The collection override: with a non-empty collection id the item
   * document's "collection" is set to it, which needs the document to be an
   * object; otherwise the document is kept as produced.
   */
  function OverrideCollection(doc: Json, collectionId: Option<string>): (r: Result<Json, string>)
    ensures !Truthy(collectionId) ==> r == Success(doc)
    ensures Truthy(collectionId) ==> (r.Success? <==> doc.Object?)
    ensures Truthy(collectionId) && r.Success? ==>
              r.value.Object? &&
              r.value.fields.Keys == doc.fields.Keys + {CollectionKey} &&
              r.value.fields[CollectionKey] == Str(collectionId.value) &&
              (forall key :: key in doc.fields && key != CollectionKey ==> r.value.fields[key] == doc.fields[key])
    ensures r.Failure? ==> r.error == NotAnObject
  {
    if !Truthy(collectionId) then Success(doc)
    else if doc.Object? then Success(Object(doc.fields[CollectionKey := Str(collectionId.value)]))
    else Failure(NotAnObject)
  }

  /** An override applied twice leaves the document as applying it once. */
  lemma OverrideCollectionIdempotent(doc: Json, collectionId: Option<string>)
    requires OverrideCollection(doc, collectionId).Success?
    ensures OverrideCollection(OverrideCollection(doc, collectionId).value, collectionId) ==
              OverrideCollection(doc, collectionId)
  {
    if Truthy(collectionId) {
      var once := OverrideCollection(doc, collectionId).value;
      var twice := OverrideCollection(once, collectionId).value;
      assert twice.fields == once.fields;
    }
  }

  /** An error raised inside the request's `try` block, other than a failed command. */
  function Unexpected(reason: string): (e: HttpError)
    ensures e.statusCode == 500 && e.detail.Message?
    ensures |e.detail.text| >= |UnexpectedPrefix| && e.detail.text[..|UnexpectedPrefix|] == UnexpectedPrefix
    ensures e.detail.text[|UnexpectedPrefix|..] == reason
  {
    HttpError(500, Message(UnexpectedPrefix + reason))
  }

  /**
   * `create_stac_item`: reject a request without a package name, build the
   * command, append the output path, run it, override the collection and
   * validate the item, mapping each failure to its HTTP error. `executed`
   * is the command line handed to the subprocess, if any.
   */
  method CreateStacItem(req: StactoolsRequest, outputName: string,
                        run: seq<string> -> Execution, validate: map<string, Json> -> Result<Json, string>)
    returns (response: Result<Json, HttpError>, executed: Option<seq<string>>)
    ensures req.packageName == "" ==>
              response == Failure(HttpError(400, Message(MissingPackage))) && executed == None
    ensures req.packageName != "" ==>
              executed == Some(CommandPrefix(req) + req.createItemArgs + OptionArgs(req.createItemOptions) + [outputName]) &&
              |executed.value| == 9 + |req.createItemArgs| + 2 * |req.createItemOptions| &&
              executed.value[|executed.value| - 1] == outputName
    ensures response.Failure? ==> response.error.statusCode == 400 || response.error.statusCode == 500
    ensures response.Failure? && response.error.statusCode == 400 <==> req.packageName == ""
    ensures executed.Some? ==>
              var ex := run(executed.value);
              (ex.process.Exited? && ex.process.returnCode != 0 ==>
                 response == Failure(HttpError(500, CommandFailed(CommandFailedText, ex.process.stderr, ex.process.stdout)))) &&
              (ex.process.LaunchFailed? ==> response == Failure(Unexpected(ex.process.reason))) &&
              (ex.process.Exited? && ex.process.returnCode == 0 && ex.output.Failure? ==>
                 response == Failure(Unexpected(ex.output.error)))
    ensures executed.Some? ==>
              var ex := run(executed.value);
              (ex.process.Exited? && ex.process.returnCode == 0 && ex.output.Success? ==>
                 var doc := OverrideCollection(ex.output.value, req.collectionId);
                 (doc.Failure? ==> response == Failure(Unexpected(doc.error))) &&
                 (doc.Success? && !doc.value.Object? ==> response == Failure(Unexpected(NotAnObject))) &&
                 (doc.Success? && doc.value.Object? && validate(doc.value.fields).Failure? ==>
                    response == Failure(Unexpected(validate(doc.value.fields).error))))
    ensures response.Success? <==>
              executed.Some? &&
              var ex := run(executed.value);
              ex.process.Exited? && ex.process.returnCode == 0 && ex.output.Success? &&
              var doc := OverrideCollection(ex.output.value, req.collectionId);
              doc.Success? && doc.value.Object? && validate(doc.value.fields).Success? &&
              response == Success(validate(doc.value.fields).value)
  {
    if req.packageName == "" {
      return Failure(HttpError(400, Message(MissingPackage))), None;
    }
    var command := BuildCommand(req);
    command := command + [outputName];
    executed := Some(command);

    var ex := run(command);
    match ex.process {
      case LaunchFailed(reason) =>
        return Failure(Unexpected(reason)), executed;
      case Exited(returnCode, stdout, stderr) =>
        if returnCode != 0 {
          return Failure(HttpError(500, CommandFailed(CommandFailedText, stderr, stdout))), executed;
        }
    }
    if ex.output.Failure? {
      return Failure(Unexpected(ex.output.error)), executed;
    }
    var itemDict := ex.output.value;
    var overridden := OverrideCollection(itemDict, req.collectionId);
    if overridden.Failure? {
      return Failure(Unexpected(overridden.error)), executed;
    }
    itemDict := overridden.value;
    if !itemDict.Object? {
      return Failure(Unexpected(NotAnObject)), executed;
    }
    match validate(itemDict.fields) {
      case Failure(reason) =>
        response := Failure(Unexpected(reason));
      case Success(item) =>
        response := Success(item);
    }
  }
}
