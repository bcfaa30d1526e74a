/** The rendition builder: for each rendition definition whose command line
    is available, run the command on the document's binary and append the
    output as a new entry of picture:views. The command-line executor, the
    image-info service and temporary files are oracles. */
module StoredPictureRenditionBuilder {
  import opened Java
  import opened DocumentModel

  /** A rendition definition: its name (also the name of the command line
      it runs) and the content type of its output. */
  datatype RenditionDefinition = RenditionDefinition(name: string, contentType: string)

  /** The names of the parameters the builder passes to a command line. */
  datatype ParamName =
    | SourceFilePath | TargetFilePath
    | Gravity | TextColor | StrokeColor | StrokeWidth | TextSize
    | TextRotation | XOffset | YOffset | TextValue
  {
    /** The name as the command-line contributions spell it. */
    function Name(): string {
      match this
      case SourceFilePath => "sourceFilePath"
      case TargetFilePath => "targetFilePath"
      case Gravity => "gravity"
      case TextColor => "textColor"
      case StrokeColor => "strokeColor"
      case StrokeWidth => "strokeWidth"
      case TextSize => "textSize"
      case TextRotation => "textRotation"
      case XOffset => "xOffset"
      case YOffset => "yOffset"
      case TextValue => "textValue"
    }
  }

  /** The named parameters passed to a command line. */
  type CmdParameters = map<ParamName, string>

  /** What the executor reports after running a command. */
  datatype ExecResult = ExecResult(error: Option<string>, successful: bool, commandLine: string, returnCode: int)

  /** execCommand either throws CommandNotAvailable or reports a result. */
  datatype ExecOutcome = NotAvailableThrown(message: string) | Executed(result: ExecResult)

  datatype ImageInfo = ImageInfo(width: int, height: int)

  /** The collaborators the builder calls out to. */
  datatype Environment = Environment(
    /** The file path getFilePath gives for a blob. */
    filePath: Blob -> string,
    /** The absolute path of the new temporary file created for a
        document's rendition, with the given suffix. Each (document id,
        rendition name, suffix) stands for one createTempFile call;
        `FreshTempFiles` says that different calls give different files. */
    tempFile: (string, string, string) -> string,
    /** The command-line executor. */
    execCommand: (string, CmdParameters) -> ExecOutcome,
    /** The image-info service; None when it fails. */
    imageInfo: Blob -> Option<ImageInfo>)

  /** The exceptions that end a build. */
  datatype BuildError =
      /** An available definition whose name the builder does not know. */
    | NotHandled(rendition: string)
      /** The executor reported an error. */
    | ExecutionFailed(rendition: string, cause: string)
      /** The command ran but was not successful. */
    | Unsuccessful(rendition: string, commandLine: string, returnCode: int)
      /** The executor threw CommandNotAvailable (a checked exception). */
    | CommandNotAvailable(rendition: string, message: string)
      /** A null reference was dereferenced: the main blob, dc:created or
          the views adapter. */
    | NullReference(what: string)
  {
    /** The text of the exception; a NullPointerException has none. */
    function Message(): (msg: Option<string>)
      ensures NotHandled? ==> msg == Some("Rendition <" + rendition + "> not handled in the code.")
      ensures ExecutionFailed? ==> msg == Some("Failed to execute the command <" + rendition + ">")
      ensures Unsuccessful? ==>
        msg == Some("Failed to execute the command <" + rendition + ">. Final command [ " + commandLine
                    + " ] returned with error " + IntToDecimal(returnCode))
      ensures CommandNotAvailable? ==> msg == Some(message)
      ensures NullReference? ==> msg.None?
    {
      match this
      case NotHandled(name) => Some("Rendition <" + name + "> not handled in the code.")
      case ExecutionFailed(name, _) => Some("Failed to execute the command <" + name + ">")
      case Unsuccessful(name, commandLine, returnCode) =>
        Some("Failed to execute the command <" + name + ">. Final command [ " + commandLine
             + " ] returned with error " + IntToDecimal(returnCode))
      case CommandNotAvailable(_, message) => Some(message)
      case NullReference(_) => None
    }
  }

  /** The text of an unsuccessful run ends with the command's return code:
      its digits read back as the code, after a '-' when it is negative. */
  lemma UnsuccessfulMessageReportsCode(error: BuildError)
    requires error.Unsuccessful?
    ensures var msg := error.Message().value;
      var code := IntToDecimal(error.returnCode);
      && |code| <= |msg| && msg[|msg| - |code|..] == code
      && (error.returnCode >= 0 ==> DecimalValue(code) == error.returnCode)
      && (error.returnCode < 0 ==> code[0] == '-' && AllDigits(code[1..]) && DecimalValue(code[1..]) == -error.returnCode)
  {
    IntToDecimalRoundTrip(error.returnCode);
  }

  const Watermarked: string := "jpegWatermarked"

  /** The file extension of each rendition the builder knows; None for any
      other name. */
  function Extension(name: string): (ext: Option<string>)
    ensures ext.Some? <==> name in {"jpeg200x200", "jpegWatermarked", "imageAsPDF"}
    ensures name == "jpeg200x200" || name == "jpegWatermarked" ==> ext == Some(".jpeg")
    ensures name == "imageAsPDF" ==> ext == Some(".pdf")
  {
    if name == "jpeg200x200" || name == Watermarked then Some(".jpeg")
    else if name == "imageAsPDF" then Some(".pdf")
    else None
  }

  /** The parameters naming the source and target files. */
  predicate IsPathParameter(p: ParamName) {
    p.SourceFilePath? || p.TargetFilePath?
  }

  /** The text drawn by the watermark command line. */
  function WatermarkText(created: Date): string {
    "Created " + FormatDate(created)
  }

  /** The watermark reads "Created " followed by the creation date as
      yyyy-MM-dd, whose three fields decode back to the date. */
  lemma WatermarkTextShape(created: Date)
    requires created.year < 10000 && created.month <= 12 && created.day <= 31
    ensures var text := WatermarkText(created);
      && |text| == 18 && text[..8] == "Created "
      && text[12] == '-' && text[15] == '-'
      && AllDigits(text[8..12]) && DecimalValue(text[8..12]) == created.year
      && AllDigits(text[13..15]) && DecimalValue(text[13..15]) == created.month
      && AllDigits(text[16..]) && DecimalValue(text[16..]) == created.day
  {
    var date := FormatDate(created);
    var text := WatermarkText(created);
    assert text[8..12] == date[..4];
    assert text[13..15] == date[5..7];
    assert text[16..] == date[8..];
  }

  /** The value the watermark command line is given for each of its
      settings: eight fixed ones and the creation-date text. The two path
      parameters are not settings and have no value here. */
  function WatermarkSetting(p: ParamName, created: Date): string {
    match p
    case Gravity => "SouthWest"
    case TextColor => "red"
    case StrokeColor => "black"
    case StrokeWidth => "1"
    case TextSize => "24"
    case TextRotation => "0"
    case XOffset => "0"
    case YOffset => "0"
    case TextValue => WatermarkText(created)
    case SourceFilePath => ""
    case TargetFilePath => ""
  }

  /** The parameters the watermarked rendition adds: every setting, each
      with its value. */
  function WatermarkParameters(created: Date): (params: CmdParameters)
    ensures forall p :: p in params <==> !IsPathParameter(p)
    ensures forall p :: p in params ==> params[p] == WatermarkSetting(p, created)
  {
    map[Gravity := "SouthWest", TextColor := "red", StrokeColor := "black",
        StrokeWidth := "1", TextSize := "24", TextRotation := "0",
        XOffset := "0", YOffset := "0", TextValue := WatermarkText(created)]
  }

  /** The command-line parameters of one rendition: the source and target
      paths always, and the watermark's settings for the watermarked
      rendition only. */
  function CommandParameters(name: string, sourcePath: string, targetPath: string, created: Date): (params: CmdParameters)
    ensures forall p :: p in params <==> IsPathParameter(p) || name == Watermarked
    ensures SourceFilePath in params && params[SourceFilePath] == sourcePath
    ensures TargetFilePath in params && params[TargetFilePath] == targetPath
    ensures forall p :: p in params && !IsPathParameter(p) ==> params[p] == WatermarkSetting(p, created)
  {
    var paths := map[SourceFilePath := sourcePath, TargetFilePath := targetPath];
    if name == Watermarked then WatermarkParameters(created) + paths else paths
  }

  /** The view addBlobToViews builds for a blob; width and height stay 0
      when the image-info service fails. */
  function NewView(blob: Blob, renditionName: string, info: Option<ImageInfo>): (view: PictureView)
    requires blob.filename.Some?
    ensures view.title == renditionName && view.tag == renditionName
    ensures view.content == blob && view.filename == blob.filename.value
    ensures view.description == "Pre-built Rendition for " + renditionName
    ensures info.Some? ==> view.width == info.value.width && view.height == info.value.height
    ensures info.None? ==> view.width == 0 && view.height == 0
  {
    PictureView(
      renditionName, blob, blob.filename.value, "Pre-built Rendition for " + renditionName, renditionName,
      if info.Some? then info.value.width else 0,
      if info.Some? then info.value.height else 0)
  }

  /** The blob the BlobHolder adapter gives for the document: the value of
      file:content, null without the "file" schema. */
  function MainBlob(doc: Document): (blob: Option<Blob>)
    ensures !doc.HasSchema("file") ==> blob.None?
    ensures doc.HasSchema("file") ==> blob == doc.content
  {
    if doc.HasSchema("file") then doc.content else None
  }

  /** What one iteration of the loop does with a definition. */
  datatype StepResult = Skipped | Added(view: PictureView) | Failed(error: BuildError)
  {
    /** The views the step appends. */
    function Views(): (views: seq<PictureView>)
      ensures |views| <= 1
      ensures Added? ==> views == [view]
      ensures !Added? ==> views == []
    {
      if Added? then [view] else []
    }

    /** The error the step stops with. */
    function Failure(): (failure: Option<BuildError>)
      ensures Failed? ==> failure == Some(error)
      ensures !Failed? ==> failure == None
    {
      if Failed? then Some(error) else None
    }
  }

  /** One iteration: a definition whose command line is unavailable is
      skipped, any other runs its command. */
  function RenditionStep(doc: Document, def: RenditionDefinition, available: bool, env: Environment): (step: StepResult)
    ensures step.Skipped? <==> !available
    ensures available ==> step == CommandStep(doc, def, env)
  {
    if !available then Skipped else CommandStep(doc, def, env)
  }

  /** The work done for a definition whose command line is available: the
      view to append, or the error the source throws. An added view is
      titled and tagged with the definition's name and holds a blob of the
      definition's content type, named after the main blob with the
      rendition's extension. */
  function CommandStep(doc: Document, def: RenditionDefinition, env: Environment): (step: StepResult)
    ensures !step.Skipped?
    ensures step.Added? ==>
      && MainBlob(doc).Some? && doc.hasViewsAdapter && Extension(def.name).Some?
      && step.view.title == def.name && step.view.tag == def.name
      && step.view.description == "Pre-built Rendition for " + def.name
      && step.view.content.mimeType == def.contentType
      && step.view.content.filename == Some(NullToString(MainBlob(doc).value.filename) + Extension(def.name).value)
      && step.view.filename == step.view.content.filename.value
    ensures MainBlob(doc).None? ==> step == Failed(NullReference("main blob"))
    ensures MainBlob(doc).Some? && Extension(def.name).None? ==> step == Failed(NotHandled(def.name))
  {
    if MainBlob(doc).None? then Failed(NullReference("main blob"))
    else
      var mainBlob := MainBlob(doc).value;
      var ext := Extension(def.name);
      if ext.None? then Failed(NotHandled(def.name))
      else if def.name == Watermarked && doc.created.None? then Failed(NullReference("dc:created"))
      else
        var created := if doc.created.Some? then doc.created.value else Date(0, 0, 0);
        var target := env.tempFile(doc.id, def.name, ext.value);
        var params := CommandParameters(def.name, env.filePath(mainBlob), target, created);
        match env.execCommand(def.name, params)
        case NotAvailableThrown(message) => Failed(CommandNotAvailable(def.name, message))
        case Executed(result) =>
          if result.error.Some? then Failed(ExecutionFailed(def.name, result.error.value))
          else if !result.successful then Failed(Unsuccessful(def.name, result.commandLine, result.returnCode))
          else
            var resultBlob := Blob(target, Some(NullToString(mainBlob.filename) + ext.value), def.contentType);
            if !doc.hasViewsAdapter then Failed(NullReference("views adapter"))
            else Added(NewView(resultBlob, def.name, env.imageInfo(resultBlob)))
  }

  /** A known rendition of a document with a main blob: the watermark
      without a creation date dereferences null; otherwise its command is
      run on the main blob's file, with a temporary target file carrying
      the rendition's extension, the target path and, for the watermark
      only, the creation date (the date given for other renditions plays no
      part in their parameters). Each outcome of the run maps to one
      result: the executor's three failures, the missing views adapter, or
      the view of a blob at the target path, named after the main blob with
      the rendition's extension and typed with the definition's content
      type. */
  lemma CommandStepRunsTheCommand(doc: Document, def: RenditionDefinition, env: Environment)
    requires MainBlob(doc).Some? && Extension(def.name).Some?
    ensures def.name == Watermarked && doc.created.None? ==>
      CommandStep(doc, def, env) == Failed(NullReference("dc:created"))
    ensures !(def.name == Watermarked && doc.created.None?) ==>
      var mainBlob := MainBlob(doc).value;
      var ext := Extension(def.name).value;
      var target := env.tempFile(doc.id, def.name, ext);
      var created := if doc.created.Some? then doc.created.value else Date(0, 0, 0);
      var resultBlob := Blob(target, Some(NullToString(mainBlob.filename) + ext), def.contentType);
      var step := CommandStep(doc, def, env);
      match env.execCommand(def.name, CommandParameters(def.name, env.filePath(mainBlob), target, created))
      case NotAvailableThrown(message) => step == Failed(CommandNotAvailable(def.name, message))
      case Executed(result) =>
        && (result.error.Some? ==> step == Failed(ExecutionFailed(def.name, result.error.value)))
        && (result.error.None? && !result.successful ==>
              step == Failed(Unsuccessful(def.name, result.commandLine, result.returnCode)))
        && (result.error.None? && result.successful && !doc.hasViewsAdapter ==>
              step == Failed(NullReference("views adapter")))
        && (result.error.None? && result.successful && doc.hasViewsAdapter ==>
              step == Added(NewView(resultBlob, def.name, env.imageInfo(resultBlob))))
  {
  }

  /** createTempFile never hands out the same file twice: different
      (document id, rendition name, suffix) requests get different paths. */
  ghost predicate FreshTempFiles(env: Environment) {
    forall id1, name1, ext1, id2, name2, ext2 ::
      env.tempFile(id1, name1, ext1) == env.tempFile(id2, name2, ext2) ==> id1 == id2 && name1 == name2 && ext1 == ext2
  }

  /** Two renditions of a document, built with fresh temporary files, hold
      blobs at different locations, even when they share an extension. */
  lemma DistinctRenditionsGetDistinctFiles(doc: Document, def1: RenditionDefinition, def2: RenditionDefinition, env: Environment)
    requires FreshTempFiles(env) && def1.name != def2.name
    requires CommandStep(doc, def1, env).Added? && CommandStep(doc, def2, env).Added?
    ensures CommandStep(doc, def1, env).view.content.location != CommandStep(doc, def2, env).view.content.location
  {
    CommandStepRunsTheCommand(doc, def1, env);
    CommandStepRunsTheCommand(doc, def2, env);
  }

  /** The outcome of the loop over a list of definitions: the views it
      appended, how many definitions it consulted, and the error that
      stopped it, if any. */
  datatype BuildRun = BuildRun(added: seq<PictureView>, consulted: nat, failure: Option<BuildError>)

  /** The loop over the first `k` definitions of `defs`, stated on the
      k-th so that it reads like the loop's progress: the first failure
      stops it. The whole loop is `Renditions(doc, defs, |defs|, ...)`. */
  function Renditions(doc: Document, defs: seq<RenditionDefinition>, k: nat, available: string -> bool, env: Environment): (run: BuildRun)
    requires k <= |defs|
    ensures run.consulted <= k
    ensures |run.added| <= run.consulted
    ensures run.failure.None? ==> run.consulted == k
    decreases k
  {
    if k == 0 then BuildRun([], 0, None)
    else
      var prev := Renditions(doc, defs, k - 1, available, env);
      if prev.failure.Some? then prev
      else Advance(prev, RenditionStep(doc, defs[k - 1], available(defs[k - 1].name), env))
  }

  /** A run that has not failed takes one more step: it appends the step's
      view, if any, and stops if the step failed. */
  function Advance(prev: BuildRun, step: StepResult): (run: BuildRun)
    ensures run.consulted == prev.consulted + 1
    ensures run.added == prev.added + step.Views()
    ensures run.failure == step.Failure()
  {
    BuildRun(prev.added + step.Views(), prev.consulted + 1, step.Failure())
  }

  /** The command names of the first `k` definitions: the names the loop
      looks up in the availability cache once it has consulted them. */
  function CommandNames(defs: seq<RenditionDefinition>, k: nat): set<string>
    requires k <= |defs|
  {
    if k == 0 then {} else CommandNames(defs, k - 1) + {defs[k - 1].name}
  }

  /** One more consulted definition adds its name to the keys the loop has
      put in the cache. */
  lemma NextCommandName(keys: set<string>, defs: seq<RenditionDefinition>, i: nat)
    requires i < |defs|
    ensures keys + CommandNames(defs, i) + {defs[i].name} == keys + CommandNames(defs, i + 1)
  {
  }

  /** A name is among the first `k` command names exactly when one of the
      first `k` definitions carries it. */
  lemma {:induction false} CommandNamesAreTheDefinitions(defs: seq<RenditionDefinition>, k: nat, name: string)
    requires k <= |defs|
    ensures name in CommandNames(defs, k) <==> exists j :: 0 <= j < k && defs[j].name == name
  {
    if k > 0 {
      CommandNamesAreTheDefinitions(defs, k - 1, name);
      if defs[k - 1].name == name {
        assert 0 <= k - 1 < k && defs[k - 1].name == name;
      }
    }
  }

  /** The loop's progress by one definition, on a prefix that has not
      failed. */
  lemma NextDefinition(doc: Document, defs: seq<RenditionDefinition>, i: nat, available: string -> bool, env: Environment)
    requires i < |defs|
    requires Renditions(doc, defs, i, available, env).failure.None?
    ensures Renditions(doc, defs, i + 1, available, env)
         == Advance(Renditions(doc, defs, i, available, env), RenditionStep(doc, defs[i], available(defs[i].name), env))
  {
  }

  /** Once the loop has failed on the first `k` definitions, later
      definitions change nothing. */
  lemma {:induction false} FailureIsFinal(doc: Document, defs: seq<RenditionDefinition>, k: nat, n: nat, available: string -> bool, env: Environment)
    requires k <= n <= |defs|
    requires Renditions(doc, defs, k, available, env).failure.Some?
    ensures Renditions(doc, defs, n, available, env) == Renditions(doc, defs, k, available, env)
    decreases n
  {
    if k < n {
      FailureIsFinal(doc, defs, k, n - 1, available, env);
    }
  }

  /** A failed run stopped at the definition it consulted last: the steps
      before it succeeded or skipped, its own step failed with the run's
      error, and the views appended before it are kept. */
  lemma {:induction false} FailureStopsAtItsDefinition(doc: Document, defs: seq<RenditionDefinition>, n: nat, available: string -> bool, env: Environment)
    requires n <= |defs|
    requires Renditions(doc, defs, n, available, env).failure.Some?
    ensures var run := Renditions(doc, defs, n, available, env);
      var k := run.consulted - 1;
      && 0 <= k < n
      && Renditions(doc, defs, k, available, env).failure.None?
      && run.added == Renditions(doc, defs, k, available, env).added
      && RenditionStep(doc, defs[k], available(defs[k].name), env) == Failed(run.failure.value)
    decreases n
  {
    if Renditions(doc, defs, n - 1, available, env).failure.Some? {
      FailureStopsAtItsDefinition(doc, defs, n - 1, available, env);
    }
  }

  /** Definitions whose command line is unavailable are skipped without
      error, whatever their name. */
  lemma {:induction false} UnavailableDefinitionsAreSkipped(doc: Document, defs: seq<RenditionDefinition>, n: nat, available: string -> bool, env: Environment)
    requires n <= |defs|
    requires forall i :: 0 <= i < n ==> !available(defs[i].name)
    ensures Renditions(doc, defs, n, available, env) == BuildRun([], n, None)
    decreases n
  {
    if n > 0 {
      UnavailableDefinitionsAreSkipped(doc, defs, n - 1, available, env);
    }
  }

  /** Every appended view is titled and tagged after an available, known
      definition among the first `n`, describes it, and holds a blob of
      that definition's content type named after the main blob plus the
      extension. */
  lemma {:induction false} AddedViewsDescribeDefinitions(doc: Document, defs: seq<RenditionDefinition>, n: nat, available: string -> bool, env: Environment)
    requires n <= |defs|
    ensures forall view :: view in Renditions(doc, defs, n, available, env).added ==>
      && view.title == view.tag
      && view.description == "Pre-built Rendition for " + view.title
      && available(view.title)
      && Extension(view.title).Some?
      && MainBlob(doc).Some?
      && doc.hasViewsAdapter
      && view.content.filename == Some(NullToString(MainBlob(doc).value.filename) + Extension(view.title).value)
      && view.filename == view.content.filename.value
      && exists i :: 0 <= i < n && defs[i].name == view.title && defs[i].contentType == view.content.mimeType
    decreases n
  {
    if n > 0 {
      AddedViewsDescribeDefinitions(doc, defs, n - 1, available, env);
    }
  }

  /** The number of definitions among the first `k` whose command line is
      available. */
  function CountAvailable(defs: seq<RenditionDefinition>, k: nat, available: string -> bool): (count: nat)
    requires k <= |defs|
    ensures count <= k
  {
    if k == 0 then 0
    else CountAvailable(defs, k - 1, available) + (if available(defs[k - 1].name) then 1 else 0)
  }

  /** A run that completes appends exactly one view per available
      definition, in the order of the definitions: the view for the i-th
      definition comes after those of the available definitions before it. */
  lemma {:induction false} CompletedRunAddsOneViewPerAvailableDefinition(doc: Document, defs: seq<RenditionDefinition>, n: nat, available: string -> bool, env: Environment)
    requires n <= |defs|
    requires Renditions(doc, defs, n, available, env).failure.None?
    ensures |Renditions(doc, defs, n, available, env).added| == CountAvailable(defs, n, available)
    ensures forall i :: 0 <= i < n && available(defs[i].name) ==>
      CountAvailable(defs, i, available) < CountAvailable(defs, n, available)
      && Renditions(doc, defs, n, available, env).added[CountAvailable(defs, i, available)].title == defs[i].name
    decreases n
  {
    if n > 0 {
      CompletedRunAddsOneViewPerAvailableDefinition(doc, defs, n - 1, available, env);
      NextDefinition(doc, defs, n - 1, available, env);
      var prev := Renditions(doc, defs, n - 1, available, env).added;
      var step := RenditionStep(doc, defs[n - 1], available(defs[n - 1].name), env);
      var run := prev + step.Views();
      assert run == Renditions(doc, defs, n, available, env).added;
      assert step.Added? <==> available(defs[n - 1].name);
      assert |prev| == CountAvailable(defs, n - 1, available);
      assert CountAvailable(defs, n, available) == |prev| + |step.Views()|;
      forall i | 0 <= i < n && available(defs[i].name)
        ensures CountAvailable(defs, i, available) < CountAvailable(defs, n, available)
        ensures run[CountAvailable(defs, i, available)].title == defs[i].name
      {
        if i < n - 1 {
          assert run[CountAvailable(defs, i, available)] == prev[CountAvailable(defs, i, available)];
        } else {
          assert CountAvailable(defs, i, available) == |prev|;
          assert run[|prev|] == step.view;
        }
      }
    }
  }

  /** The process-wide cache of command-line availability: filled on a
      miss from the executor's availability report, never emptied. */
  class CommandAvailabilityCache {
    /** The executor's availability report, fixed per deployment. */
    const service: string -> bool
    var entries: map<string, bool>
    /** The names sent to the executor, in order. */
    ghost var queries: seq<string>

    ghost predicate Valid()
      reads this
    {
      && (forall name :: name in entries ==> entries[name] == service(name))
    }

    constructor (service: string -> bool)
      ensures Valid() && this.service == service && entries == map[] && queries == []
    {
      this.service := service;
      entries := map[];
      queries := [];
    }

    /** A hit returns the cached value without asking the executor; a miss
      asks it once and records the answer. */
    method IsCommandLineAvailable(name: string) returns (isAvailable: bool)
      requires Valid()
      modifies this
      ensures Valid()
      ensures isAvailable == service(name)
      ensures entries.Keys == old(entries).Keys + {name}
      ensures name in old(entries) ==>
        isAvailable == old(entries)[name] && entries == old(entries) && queries == old(queries)
      ensures name !in old(entries) ==>
        entries == old(entries)[name := isAvailable] && queries == old(queries) + [name]
    {
      if name in entries {
        isAvailable := entries[name];
      } else {
        isAvailable := service(name);
        entries := entries[name := isAvailable];
        queries := queries + [name];
      }
    }
  }

  class StoredPictureRenditionBuilder {
    const doc: Document

    constructor (inDoc: Document)
      ensures doc == inDoc
    {
      doc := inDoc;
    }

    /** Appends the view built for `inBlob` to picture:views; without the
        views adapter the call dereferences null. */
    method AddBlobToViews(inBlob: Blob, inRenditionName: string, env: Environment) returns (failure: Option<BuildError>)
      requires inBlob.filename.Some?
      modifies doc
      ensures failure.None? <==> doc.hasViewsAdapter
      ensures failure.Some? ==> failure.value == NullReference("views adapter") && doc.views == old(doc.views)
      ensures failure.None? ==>
        doc.views == old(doc.views) + [NewView(inBlob, inRenditionName, env.imageInfo(inBlob))]
    {
      var view := NewView(inBlob, inRenditionName, env.imageInfo(inBlob));
      if !doc.hasViewsAdapter {
        return Some(NullReference("views adapter"));
      }
      doc.views := doc.views + [view];
      return None;
    }

    /** The body of the loop for a definition whose command line is
        available: set up the parameters, run the command, and append the
        result to picture:views, or stop with the error the source throws. */
    method BuildRendition(oneDef: RenditionDefinition, env: Environment) returns (failure: Option<BuildError>)
      modifies doc
      ensures var step := CommandStep(doc, oneDef, env);
        && failure == step.Failure()
        && doc.views == old(doc.views) + step.Views()
    {
      var renditionName := oneDef.name;
      var mainBlob := MainBlob(doc);
      if mainBlob.None? {
        return Some(NullReference("main blob"));
      }
      var sourceFilePath := env.filePath(mainBlob.value);
      var destFileExtension: string;
      var created := Date(0, 0, 0);
      if renditionName == "jpeg200x200" {
        destFileExtension := ".jpeg";
      } else if renditionName == Watermarked {
        destFileExtension := ".jpeg";
        if doc.created.None? {
          return Some(NullReference("dc:created"));
        }
        created := doc.created.value;
      } else if renditionName == "imageAsPDF" {
        destFileExtension := ".pdf";
      } else {
        return Some(NotHandled(renditionName));
      }
      var targetFilePath := env.tempFile(doc.id, renditionName, destFileExtension);
      var params := CommandParameters(renditionName, sourceFilePath, targetFilePath, created);
      var outcome := env.execCommand(renditionName, params);
      if outcome.NotAvailableThrown? {
        return Some(CommandNotAvailable(renditionName, outcome.message));
      }
      var result := outcome.result;
      if result.error.Some? {
        return Some(ExecutionFailed(renditionName, result.error.value));
      }
      if !result.successful {
        return Some(Unsuccessful(renditionName, result.commandLine, result.returnCode));
      }
      var resultBlob := Blob(targetFilePath, Some(NullToString(mainBlob.value.filename) + destFileExtension), oneDef.contentType);
      failure := AddBlobToViews(resultBlob, renditionName, env);
    }

    /** One pass of the loop: ask the cache whether the definition's
        command line is available and, if it is, build its rendition. */
    method BuildNext(oneDef: RenditionDefinition, cache: CommandAvailabilityCache, env: Environment)
      returns (failure: Option<BuildError>)
      requires cache.Valid()
      modifies doc, cache
      ensures cache.Valid()
      ensures cache.entries.Keys == old(cache.entries).Keys + {oneDef.name}
      ensures var step := RenditionStep(doc, oneDef, cache.service(oneDef.name), env);
        && failure == step.Failure()
        && doc.views == old(doc.views) + step.Views()
    {
      var isAvailable := cache.IsCommandLineAvailable(oneDef.name);
      failure := None;
      if isAvailable {
        failure := BuildRendition(oneDef, env);
      }
    }

    /** The loop over the declared definitions. The views it appends stay
        in the document even when a later definition fails. */
    /** One turn of the loop in `BuildAvailableRenditions`: the definition
        at `i`, reached without a failure, moves the run on by one, and its
        command name joins the cache's keys. */
    method BuildAt(defs: seq<RenditionDefinition>, i: nat, cache: CommandAvailabilityCache, env: Environment,
                   ghost views0: seq<PictureView>, ghost keys0: set<string>)
      returns (failure: Option<BuildError>, next: nat)
      requires i < |defs| && cache.Valid()
      requires Renditions(doc, defs, i, cache.service, env).failure.None?
      requires doc.views == views0 + Renditions(doc, defs, i, cache.service, env).added
      requires cache.entries.Keys == keys0 + CommandNames(defs, i)
      modifies doc, cache
      ensures next == i + 1 && cache.Valid()
      ensures var run := Renditions(doc, defs, next, cache.service, env);
        && run.consulted == next
        && failure == run.failure
        && doc.views == views0 + run.added
      ensures cache.entries.Keys == keys0 + CommandNames(defs, next)
    {
      next := i + 1;
      NextDefinition(doc, defs, i, cache.service, env);
      failure := BuildNext(defs[i], cache, env);
      NextCommandName(keys0, defs, i);
    }

    method BuildAvailableRenditions(defs: seq<RenditionDefinition>, cache: CommandAvailabilityCache, env: Environment)
      returns (failure: Option<BuildError>)
      requires cache.Valid()
      modifies doc, cache
      ensures cache.Valid()
      ensures var run := Renditions(doc, defs, |defs|, cache.service, env);
        && failure == run.failure
        && doc.views == old(doc.views) + run.added
        && cache.entries.Keys == old(cache.entries).Keys + CommandNames(defs, run.consulted)
    {
      ghost var views0 := doc.views;
      ghost var keys0 := cache.entries.Keys;
      var i := 0;
      failure := None;
      while i < |defs| && failure.None?
        invariant 0 <= i <= |defs|
        invariant cache.Valid()
        invariant Renditions(doc, defs, i, cache.service, env).consulted == i
        invariant failure == Renditions(doc, defs, i, cache.service, env).failure
        invariant doc.views == views0 + Renditions(doc, defs, i, cache.service, env).added
        invariant cache.entries.Keys == keys0 + CommandNames(defs, i)
      {
        failure, i := BuildAt(defs, i, cache, env, views0, keys0);
      }
      if failure.Some? {
        FailureIsFinal(doc, defs, i, |defs|, cache.service, env);
      }
    }
  }
}
