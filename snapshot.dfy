/**
  The `percy snapshot` command: classifying its positional argument,
  validating `--base-url`, choosing a loader for a snapshots file,
  normalising the loaded document, building the snapshot options with the
  shallow merge, and driving Percy through start, snapshot and stop with a
  forced stop when anything in between throws.
 */
module Snapshot {
  import opened Wrappers
  import opened Js
  import opened Platform
  import opened Percy
  import opened ShallowMerge

  /** The three readings of the `dir|file|sitemap` argument. */
  datatype ArgKind = Sitemap | Serve | File

  /** The flags the command body reads; an absent flag is `undefined`. */
  datatype Flags = Flags(baseUrl: Option<string>, includes: Value, excludes: Value, cleanUrls: Value)

  /** `/^https?:\/\//` */
  predicate IsSitemapUrl(val: string) {
    StartsWith(val, "http://") || StartsWith(val, "https://")
  }

  /** The `attribute` callback of the argument: which of `sitemap`, `serve` or `file` holds it. */
  function ClassifyArg(val: string, fs: FileSystem): (r: Result<ArgKind, string>)
    ensures r == Ok(Sitemap) <==> IsSitemapUrl(val)
    ensures r.Err? <==> !IsSitemapUrl(val) && !Exists(fs, val)
    ensures r.Err? ==> r.error == "Not found: " + val
    ensures r == Ok(Serve) <==> !IsSitemapUrl(val) && Exists(fs, val) && fs[val] == Directory
    ensures r == Ok(File) ==> Exists(fs, val) && fs[val] != Directory
  {
    if IsSitemapUrl(val) then Ok(Sitemap)
    else if !Exists(fs, val) then Err("Not found: " + val)
    else if IsDirectoryEntry(fs, val) then Ok(Serve)
    else Ok(File)
  }

  /** A sitemap URL is classified without looking at the file system at all. */
  lemma SitemapIgnoresFileSystem(val: string, fs1: FileSystem, fs2: FileSystem)
    requires IsSitemapUrl(val)
    ensures ClassifyArg(val, fs1) == ClassifyArg(val, fs2) == Ok(Sitemap)
  {
  }

  const PathOnlyBaseUrlError := "The '--base-url' flag must start with a forward slash (/) when providing a static directory"
  const HostBaseUrlError := "The '--base-url' flag must include a protocol and hostname when providing a list of snapshots"

  /** The base handed to the URL parser: a placeholder host only for a rooted path in directory mode. */
  function UrlBase(baseUrl: string, pathOnly: bool): Option<string> {
    if pathOnly && StartsWith(baseUrl, "/") then Some("http://localhost") else None
  }

  /**
    `parseBaseUrl`: for a static directory the URL's pathname, for a
    snapshots file the full href; a parse failure throws an error whose
    text depends only on the mode.
   */
  function ParseBaseUrl(baseUrl: string, pathOnly: bool, parseUrl: (string, Option<string>) -> Option<Url>)
    : (r: Result<string, string>)
    ensures r.Err? <==> parseUrl(baseUrl, UrlBase(baseUrl, pathOnly)).None?
    ensures r.Err? ==> r.error == if pathOnly then PathOnlyBaseUrlError else HostBaseUrlError
    ensures r.Ok? ==> var url := parseUrl(baseUrl, UrlBase(baseUrl, pathOnly)).value;
                      r.value == if pathOnly then url.pathname else url.href
  {
    match parseUrl(baseUrl, UrlBase(baseUrl, pathOnly))
    case None => Err(if pathOnly then PathOnlyBaseUrlError else HostBaseUrlError)
    case Some(url) => Ok(if pathOnly then url.pathname else url.href)
  }

  /**
    `if (file || serve) baseUrl &&= parseBaseUrl(baseUrl, !!serve)`: the
    flag is parsed only for a file or directory and only when it is a
    non-empty string; otherwise it passes through untouched.
   */
  function ResolveBaseUrl(kind: ArgKind, baseUrl: Option<string>, parseUrl: (string, Option<string>) -> Option<Url>)
    : (r: Result<Option<string>, string>)
    ensures kind == Sitemap || baseUrl.None? || baseUrl == Some("") ==> r == Ok(baseUrl)
    ensures kind != Sitemap && baseUrl.Some? && baseUrl.value != "" ==>
      match ParseBaseUrl(baseUrl.value, kind == Serve, parseUrl)
      case Ok(u) => r == Ok(Some(u))
      case Err(e) => r == Err(e)
  {
    if kind != Sitemap && baseUrl.Some? && baseUrl.value != "" then
      match ParseBaseUrl(baseUrl.value, kind == Serve, parseUrl)
      case Ok(u) => Ok(Some(u))
      case Err(e) => Err(e)
    else Ok(baseUrl)
  }

  /** `/\.(c|m)?js$/` */
  predicate IsModuleExt(ext: string) {
    EndsWith(ext, ".js") || EndsWith(ext, ".cjs") || EndsWith(ext, ".mjs")
  }

  /** `/\.ya?ml$/` */
  predicate IsYamlExt(ext: string) {
    EndsWith(ext, ".yml") || EndsWith(ext, ".yaml")
  }

  /** The extension dispatch of `loadSnapshotFile`, tried in the source's order. */
  function LoaderFor(file: string, ext: string): (r: Result<Loader, string>)
    ensures r.Err? <==> !IsModuleExt(ext) && ext != ".json" && !IsYamlExt(ext)
    ensures r.Err? ==> r.error == "Unsupported filetype: " + file
  {
    if IsModuleExt(ext) then Ok(ModuleLoader)
    else if ext == ".json" then Ok(JsonLoader)
    else if IsYamlExt(ext) then Ok(YamlLoader)
    else Err("Unsupported filetype: " + file)
  }

  /** What `path.extname` returns: nothing, or one leading dot and no other. */
  predicate IsExtName(ext: string) {
    ext == "" || (ext[0] == '.' && forall i :: 1 <= i < |ext| ==> ext[i] != '.')
  }

  /** For an extension with a single leading dot, a dotted suffix test is an equality test. */
  lemma DottedSuffixIsWhole(ext: string, suffix: string)
    requires IsExtName(ext) && |suffix| > 0 && suffix[0] == '.'
    ensures EndsWith(ext, suffix) <==> ext == suffix
  {
    if EndsWith(ext, suffix) {
      var at := |ext| - |suffix|;
      assert ext[at] == suffix[0];
      assert at == 0;
    }
  }

  /**
    On the extensions `path.extname` produces, the suffix patterns pick
    exactly `.js`, `.cjs`, `.mjs` for a module, `.json` for JSON and
    `.yml`, `.yaml` for YAML; every other extension is unsupported.
   */
  lemma LoaderByExtension(file: string, ext: string)
    requires IsExtName(ext)
    ensures LoaderFor(file, ext) == Ok(ModuleLoader) <==> ext == ".js" || ext == ".cjs" || ext == ".mjs"
    ensures LoaderFor(file, ext) == Ok(JsonLoader) <==> ext == ".json"
    ensures LoaderFor(file, ext) == Ok(YamlLoader) <==> ext == ".yml" || ext == ".yaml"
    ensures LoaderFor(file, ext).Err? <==>
      ext !in {".js", ".cjs", ".mjs", ".json", ".yml", ".yaml"}
  {
    DottedSuffixIsWhole(ext, ".js");
    DottedSuffixIsWhole(ext, ".cjs");
    DottedSuffixIsWhole(ext, ".mjs");
    DottedSuffixIsWhole(ext, ".yml");
    DottedSuffixIsWhole(ext, ".yaml");
  }

  /** `loadSnapshotFile`: dispatch on the extension, then the chosen loader. */
  function LoadSnapshotFile(file: string, host: Host): (r: Result<Value, string>)
    ensures LoaderFor(file, host.extname(file)).Err? ==> r == Err("Unsupported filetype: " + file)
    ensures LoaderFor(file, host.extname(file)).Ok? ==> r == host.load(LoaderFor(file, host.extname(file)).value, file)
  {
    match LoaderFor(file, host.extname(file))
    case Err(e) => Err(e)
    case Ok(loader) => host.load(loader, file)
  }

  const DestructureError := "TypeError: Cannot destructure the snapshots document as it is null or undefined"

  /**
    `let { references, ...config } = Array.isArray(snapshots) ? { snapshots } : snapshots`:
    an array becomes `{snapshots}`, `references` is dropped, and a null or
    undefined document throws.
   */
  function SnapshotsConfig(doc: Value): (r: Result<map<string, Value>, string>)
    ensures r.Err? <==> IsNullish(doc)
    ensures r.Ok? ==> "references" !in r.value
    ensures doc.Arr? ==> r == Ok(map["snapshots" := doc])
    ensures doc.Obj? ==> r == Ok(doc.fields - {"references"})
  {
    if IsNullish(doc) then Err(DestructureError)
    else if doc.Arr? then
      assert map["snapshots" := doc] - {"references"} == map["snapshots" := doc];
      Ok(map["snapshots" := doc] - {"references"})
    else Ok(OwnProperties(doc) - {"references"})
  }

  function UrlValue(baseUrl: Option<string>): Value {
    match baseUrl
    case None => Undefined
    case Some(s) => Str(s)
  }

  /** `{ baseUrl, include, exclude }` */
  function FileFlags(baseUrl: Option<string>, flags: Flags): map<string, Value> {
    map["baseUrl" := UrlValue(baseUrl), "include" := flags.includes, "exclude" := flags.excludes]
  }

  /** `{ serve, cleanUrls, baseUrl, include, exclude }` */
  function ServeFlags(dir: string, baseUrl: Option<string>, flags: Flags): map<string, Value> {
    map["serve" := Str(dir), "cleanUrls" := flags.cleanUrls, "baseUrl" := UrlValue(baseUrl),
        "include" := flags.includes, "exclude" := flags.excludes]
  }

  /** `{ sitemap, include, exclude }` */
  function SitemapFlags(url: string, flags: Flags): map<string, Value> {
    map["sitemap" := Str(url), "include" := flags.includes, "exclude" := flags.excludes]
  }

  /**
    `options` is the merge of a configuration with the command's flags, key
    by key: every key of either is present, a provided flag wins, otherwise
    the configured value when it is provided, otherwise `undefined`.
   */
  predicate MergedPair(config: map<string, Value>, flags: map<string, Value>, options: map<string, Value>) {
    && options.Keys == config.Keys + flags.Keys
    && forall k :: k in options ==> options[k] == Coalesce(Get(flags, k), Coalesce(Get(config, k), Undefined))
  }

  /** `merge(config, flags)` is the key-by-key merge of the two. */
  lemma {:induction false} MergePair(config: map<string, Value>, flags: map<string, Value>)
    ensures MergedPair(config, flags, MergeAll([config, flags]))
  {
    assert [config, flags][..1] == [config];
    assert [config][..0] == [];
    assert MergeAll([config]) == Assign(map[], config);
  }

  /**
    The options handed to `percy.snapshot`, or the error the `try` block
    raises before start. Only a snapshots file can fail: when it cannot be
    loaded, or when it holds null or undefined. Otherwise the options merge
    the file's document, `percy.config.static` or `percy.config.sitemap`
    with the flags of that mode, so the directory or sitemap always comes
    from the argument.
   */
  function OptionsFor(kind: ArgKind, target: string, baseUrl: Option<string>, flags: Flags, p: Instance, host: Host)
    : (r: Result<map<string, Value>, string>)
    ensures r.Err? <==> kind == File && (LoadSnapshotFile(target, host).Err? || IsNullish(LoadSnapshotFile(target, host).value))
    ensures kind == File && LoadSnapshotFile(target, host).Err? ==> r == Err(LoadSnapshotFile(target, host).error)
    ensures kind == File && LoadSnapshotFile(target, host).Ok? && r.Err? ==> r == Err(DestructureError)
    ensures kind == File && r.Ok? ==>
      MergedPair(SnapshotsConfig(LoadSnapshotFile(target, host).value).value, FileFlags(baseUrl, flags), r.value)
    ensures kind == Serve ==>
      r.Ok? && MergedPair(p.config.staticConfig, ServeFlags(target, baseUrl, flags), r.value)
      && r.value["serve"] == Str(target)
    ensures kind == Sitemap ==>
      r.Ok? && MergedPair(p.config.sitemapConfig, SitemapFlags(target, flags), r.value)
      && r.value["sitemap"] == Str(target)
  {
    match kind
    case File =>
      (match LoadSnapshotFile(target, host)
       case Err(e) => Err(e)
       case Ok(doc) =>
         match SnapshotsConfig(doc)
         case Err(e) => Err(e)
         case Ok(config) =>
           MergePair(config, FileFlags(baseUrl, flags));
           Ok(MergeAll([config, FileFlags(baseUrl, flags)])))
    case Serve =>
      MergePair(p.config.staticConfig, ServeFlags(target, baseUrl, flags));
      Ok(MergeAll([p.config.staticConfig, ServeFlags(target, baseUrl, flags)]))
    case Sitemap =>
      MergePair(p.config.sitemapConfig, SitemapFlags(target, flags));
      Ok(MergeAll([p.config.sitemapConfig, SitemapFlags(target, flags)]))
  }

  /**
    The `try` block and its `catch`: start, snapshot, stop in that order;
    whichever step throws is followed by `percy.stop(true)` and the same
    error is rethrown.
   */
  predicate SnapshotSession(options: Result<map<string, Value>, string>, p: Instance,
                            trace: seq<Event>, outcome: Outcome)
  {
    match options
    case Err(e) => trace == [ForcedStop] && outcome == Threw(e)
    case Ok(o) =>
      if p.startError.Some? then
        trace == [Start, ForcedStop] && outcome == Threw(p.startError.value)
      else if p.snapshotError.Some? then
        trace == [Start, SnapshotCall(o), ForcedStop] && outcome == Threw(p.snapshotError.value)
      else if p.stopError.Some? then
        trace == [Start, SnapshotCall(o), Stop, ForcedStop] && outcome == Threw(p.stopError.value)
      else
        trace == [Start, SnapshotCall(o), Stop] && outcome == Completed
  }

  /**
    Whichever step fails, the `try` block and its `catch` issue the snapshot
    between the start and every stop, always end with a stop, and call
    `percy.stop(true)` exactly when they throw.
   */
  lemma SnapshotInsideSession(options: Result<map<string, Value>, string>, p: Instance,
                              trace: seq<Event>, outcome: Outcome)
    requires SnapshotSession(options, p, trace, outcome)
    ensures WorkInsideSession(trace) && EndsStopped(trace) && trace != []
    ensures ForcedStop in trace <==> outcome.Threw?
    ensures !outcome.Exited?
  {
    if options.Ok? {
      var o := options.value;
      assert [Start, SnapshotCall(o), ForcedStop][..1] == [Start];
      assert [Start, SnapshotCall(o), Stop][..1] == [Start];
      assert [Start, SnapshotCall(o), Stop, ForcedStop][..1] == [Start];
    }
  }

  /** Ends the `try` block with the `catch` clause: forced stop, then rethrow. */
  method Abort(trace: seq<Event>, error: string) returns (trace': seq<Event>, outcome: Outcome)
    ensures trace' == trace + [ForcedStop] && outcome == Threw(error)
  {
    trace' := trace + [ForcedStop];
    outcome := Threw(error);
  }

  /** The `try` block once the options are built: start, snapshot, stop, each failure caught. */
  method TakeSnapshot(options: map<string, Value>, p: Instance) returns (trace: seq<Event>, outcome: Outcome)
    ensures SnapshotSession(Ok(options), p, trace, outcome)
  {
    trace := [Start];
    if p.startError.Some? {
      trace, outcome := Abort(trace, p.startError.value);
      return;
    }
    trace := trace + [SnapshotCall(options)];
    if p.snapshotError.Some? {
      trace, outcome := Abort(trace, p.snapshotError.value);
      return;
    }
    trace := trace + [Stop];
    if p.stopError.Some? {
      trace, outcome := Abort(trace, p.stopError.value);
      return;
    }
    outcome := Completed;
  }

  /**
    The command body, preceded by the argument's classification. Calls on
    Percy are returned as `trace`.
   */
  method RunSnapshot(target: string, flags: Flags, percy: Option<Instance>, host: Host)
    returns (trace: seq<Event>, outcome: Outcome)
    ensures ClassifyArg(target, host.fs).Err? ==>
      trace == [] && outcome == Threw(ClassifyArg(target, host.fs).error)
    ensures ClassifyArg(target, host.fs).Ok? ==>
      var kind := ClassifyArg(target, host.fs).value;
      var base := ResolveBaseUrl(kind, flags.baseUrl, host.parseUrl);
      && (base.Err? ==> trace == [] && outcome == Threw(base.error))
      && (base.Ok? && percy.None? ==> trace == [] && outcome == Exited(0, DisabledMessage))
      && (base.Ok? && percy.Some? ==>
            SnapshotSession(OptionsFor(kind, target, base.value, flags, percy.value, host), percy.value, trace, outcome))
    ensures outcome.Exited? ==> trace == [] && outcome == Exited(0, DisabledMessage)
    ensures ForcedStop in trace <==> outcome.Threw? && trace != []
    ensures WorkInsideSession(trace)
    ensures EndsStopped(trace)
  {
    trace := [];
    var arg := ClassifyArg(target, host.fs);
    if arg.Err? {
      outcome := Threw(arg.error);
      return;
    }
    var kind := arg.value;
    var resolved := ResolveBaseUrl(kind, flags.baseUrl, host.parseUrl);
    if resolved.Err? {
      outcome := Threw(resolved.error);
      return;
    }
    var baseUrl := resolved.value;
    if percy.None? {
      outcome := Exited(0, DisabledMessage);
      return;
    }
    var p := percy.value;

    ghost var expected := OptionsFor(kind, target, baseUrl, flags, p, host);
    var options: Result<map<string, Value>, string>;
    match kind {
      case File =>
        var doc := LoadSnapshotFile(target, host);
        if doc.Err? {
          options := Err(doc.error);
        } else {
          var config := SnapshotsConfig(doc.value);
          if config.Err? {
            options := Err(config.error);
          } else {
            var merged := Merge([config.value, FileFlags(baseUrl, flags)]);
            options := Ok(merged);
          }
        }
      case Serve =>
        var merged := Merge([p.config.staticConfig, ServeFlags(target, baseUrl, flags)]);
        options := Ok(merged);
      case Sitemap =>
        var merged := Merge([p.config.sitemapConfig, SitemapFlags(target, flags)]);
        options := Ok(merged);
    }
    assert options == expected;

    if options.Err? {
      trace, outcome := Abort([], options.error);
    } else {
      trace, outcome := TakeSnapshot(options.value, p);
    }
    SnapshotInsideSession(options, p, trace, outcome);
  }
}
