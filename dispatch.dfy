/** The plugin's entry guard (index.js:20-34) and what its transform does with
    one incoming file before any remote call (index.js:93-113). */
module Dispatch {

  import opened Wrappers
  import opened JsObjects
  import Paths

  /** The options the core reads. `zip` is the flag index.js:113 tests (the
      documented default at line 28 is spelled `gzip` and is never read);
      service and container options only travel to the SDK. */
  datatype Options = Options(
    containerName: Option<string>,
    cwd: string,
    deleteExistingBlobs: bool,
    zip: bool,
    metadata: JsValue,
    testRun: bool)

  /** The container name of the defaults that `options || {...}` falls back to. */
  const DefaultContainerName: Option<string> := None

  datatype PluginError = MissingContainerName

  /** index.js:21-35: with no options the defaults apply; a missing or empty
      container name throws before the blob service is created. On `Ok`, the
      service is created from the returned options. */
  function Init(options: Option<Options>): (r: Result<Options, PluginError>)
    ensures r.Ok? <==> options.Some? && options.value.containerName.Some?
                       && options.value.containerName.value != ""
    ensures r.Ok? ==> r.value == options.value
    ensures r.Err? ==> r.error == MissingContainerName
  {
    var name := if options.Some? then options.value.containerName else DefaultContainerName;
    if name.None? || name.value == "" then Err(MissingContainerName)
    else Ok(options.value)
  }

  /** What a gulp (vinyl) file holds: `isNull()`, `isStream()` or a buffer. */
  datatype Contents = NoContents | StreamContents | BufferContents

  datatype File = File(path: string, name: string, contents: Contents)

  /** The five ways the transform can treat a file. */
  datatype Action =
    | Skip                // only the callback runs
    | PassThrough         // `this.push(file)`, then the callback
    | StreamError         // 'Streaming not supported' emitted, then the callback
    | MetadataTypeError   // `clone` throws (lines 208, 210), or line 112 does on a null or undefined copy
    | Upload(destKey: string, sourceFile: string, metadata: MetaValue, compress: bool)

  /** index.js:111-112 on values: `clone(options.metadata)`, then `contentType`
      written into the copy. */
  function UploadMetadata(defaults: MetaValue, contentType: string): (r: Option<MetaValue>)
    ensures r.None? <==> defaults.MNull? || defaults.MUndefined?
    ensures defaults.MPrim? ==> r == Some(defaults)
    ensures defaults.MObject? ==>
              && r.Some? && r.value.MObject?
              && r.value.props == defaults.props["contentType" := contentType]
  {
    WithProperty(defaults, "contentType", contentType)
  }

  /** index.js:93-113. The exclusion test comes first, so an excluded file is
      skipped whatever it holds; then null files pass through, streams are
      refused, and the rest are uploaded to `cwd + name` with the defaults plus
      `contentType` from `lookup` (mime.lookup). `cloned` is what `clone` made
      of the defaults (`Cloned`), `None` where it threw. */
  function Classify(f: File, cwd: string, cloned: Option<MetaValue>, zip: bool, lookup: string -> string): (a: Action)
    ensures a.Skip? <==> Paths.Excluded(f.path)
    ensures a.PassThrough? <==> !Paths.Excluded(f.path) && f.contents.NoContents?
    ensures a.StreamError? <==> !Paths.Excluded(f.path) && f.contents.StreamContents?
    ensures a.MetadataTypeError? <==> !Paths.Excluded(f.path) && f.contents.BufferContents?
                                      && (cloned.None? || cloned.value.MNull? || cloned.value.MUndefined?)
    ensures a.Upload? ==> a.destKey == cwd + f.name && a.sourceFile == f.name && a.compress == zip
    ensures a.Upload? && cloned.Some? && cloned.value.MObject? ==>
              a.metadata == MObject(cloned.value.props["contentType" := lookup(f.name)])
    ensures a.Upload? && cloned.Some? && cloned.value.MPrim? ==> a.metadata == cloned.value
  {
    if Paths.Excluded(f.path) then Skip
    else if f.contents.NoContents? then PassThrough
    else if f.contents.StreamContents? then StreamError
    else if cloned.None? then MetadataTypeError
    else
      match UploadMetadata(cloned.value, lookup(f.name))
      case None => MetadataTypeError
      case Some(m) => Upload(cwd + f.name, f.name, m, zip)
  }

  /** A file named `_name` in any directory is skipped, whatever its contents
      and whatever the options: it never reaches the upload. */
  lemma {:induction false} UnderscoreFileSkipped(
    dir: string, name: string, contents: Contents,
    cwd: string, cloned: Option<MetaValue>, zip: bool, lookup: string -> string)
    requires name != [] && name[0] == '_' && '/' !in name
    ensures Classify(File(dir + "/" + name, name, contents), cwd, cloned, zip, lookup) == Skip
  {
    Paths.BasenameOfChild(dir, name);
  }

  /** index.js:93-113 as the transform runs it: clone the caller's metadata and
      write `contentType` into the copy. The result is the classification above,
      and the caller's `options.metadata` is left exactly as it was. */
  method PrepareFile(f: File, options: Options, lookup: string -> string)
    returns (a: Action, metadata: JsValue)
    ensures a == Classify(f, options.cwd, Cloned(options.metadata), options.zip, lookup)
    ensures options.metadata.Ref? ==> unchanged(options.metadata.obj)
    ensures a.Upload? ==> View(metadata) == a.metadata
    ensures a.Upload? && options.metadata.Ref? ==> metadata.Ref? && fresh(metadata.obj)
  {
    metadata := Undefined;
    if Paths.Excluded(f.path) {
      return Skip, metadata;
    }
    if f.contents.NoContents? {
      return PassThrough, metadata;
    }
    if f.contents.StreamContents? {
      return StreamError, metadata;
    }
    var cloned;
    cloned, metadata := Clone(options.metadata);
    if !cloned {
      return MetadataTypeError, metadata;
    }
    var ok := SetProperty(metadata, "contentType", lookup(f.name));
    if !ok {
      return MetadataTypeError, metadata;
    }
    a := Upload(options.cwd + f.name, f.name, View(metadata), options.zip);
  }
}
