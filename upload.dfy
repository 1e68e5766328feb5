/**
  The `percy upload` command: validating the directory argument, globbing
  it, and turning every image path into an upload job between Percy's
  start and stop, with widths and heights clamped to the API's range.
 */
module Upload {
  import opened Wrappers
  import opened Js
  import opened Platform
  import opened Percy

  /** The `validate` callback of the `dirname` argument; `Some(message)` is the error it throws. */
  function ValidateDirname(dir: string, fs: FileSystem): (r: Option<string>)
    ensures r.None? <==> dir in fs && fs[dir] == Directory
    ensures !Exists(fs, dir) ==> r == Some("Not found: " + dir)
    ensures Exists(fs, dir) && fs[dir] != Directory ==> r == Some("Not a directory: " + dir)
  {
    if !Exists(fs, dir) then Some("Not found: " + dir)
    else if !IsDirectoryEntry(fs, dir) then Some("Not a directory: " + dir)
    else None
  }

  /** `s` ends with `suffix` when ASCII letters are compared without regard to case. */
  predicate EndsWithIgnoringCase(s: string, suffix: string) {
    |suffix| <= |s| && forall i :: 0 <= i < |suffix| ==> LowerChar(s[|s| - |suffix| + i]) == suffix[i]
  }

  /** Folding the whole string, then testing the suffix, is a case-insensitive suffix test. */
  lemma FoldedSuffix(s: string, suffix: string)
    ensures EndsWith(LowerAscii(s), suffix) <==> EndsWithIgnoringCase(s, suffix)
  {
    if EndsWithIgnoringCase(s, suffix) {
      var at := |s| - |suffix|;
      assert LowerAscii(s)[at..] == suffix by {
        forall i | 0 <= i < |suffix|
          ensures LowerAscii(s)[at..][i] == suffix[i]
        {
        }
      }
    }
    if EndsWith(LowerAscii(s), suffix) {
      var at := |s| - |suffix|;
      forall i | 0 <= i < |suffix|
        ensures LowerChar(s[at + i]) == suffix[i]
      {
        assert LowerAscii(s)[at..][i] == suffix[i];
      }
    }
  }

  /**
    `ALLOWED_FILE_TYPES = /\.(png|jpg|jpeg)$/i`: the path ends in `.png`,
    `.jpg` or `.jpeg` in any mix of cases.
   */
  predicate AllowedFileType(path: string): (r: bool)
    ensures r <==> EndsWithIgnoringCase(path, ".png") || EndsWithIgnoringCase(path, ".jpg")
                   || EndsWithIgnoringCase(path, ".jpeg")
  {
    FoldedSuffix(path, ".png");
    FoldedSuffix(path, ".jpg");
    FoldedSuffix(path, ".jpeg");
    var folded := LowerAscii(path);
    EndsWith(folded, ".png") || EndsWith(folded, ".jpg") || EndsWith(folded, ".jpeg")
  }

  /** A path ending in `.PNG` in capitals passes the case-insensitive filter. */
  lemma UpperCasePngIsAllowed(path: string)
    requires EndsWith(path, ".PNG")
    ensures AllowedFileType(path)
  {
    var n := |path|;
    var folded := LowerAscii(path);
    assert folded[n - 4] == '.' && folded[n - 3] == 'p' && folded[n - 2] == 'n' && folded[n - 1] == 'g' by {
      assert path[n - 4..] == ".PNG";
      assert path[n - 4] == '.' && path[n - 3] == 'P' && path[n - 2] == 'N' && path[n - 1] == 'G';
    }
    assert folded[n - 4..] == ".png";
  }

  /** `Math.max(10, Math.min(v, 2000))`: the API's range for widths and heights. */
  function Clamp(v: int): (r: int)
    ensures 10 <= r <= 2000
    ensures 10 <= v <= 2000 ==> r == v
    ensures v < 10 ==> r == 10
    ensures v > 2000 ==> r == 2000
  {
    var capped := if v < 2000 then v else 2000;
    if 10 < capped then capped else 10
  }

  /** `img.type`: only the exact extension `.png` is a PNG; anything else accepted is a JPEG. */
  function ImageType(ext: string): string {
    if ext == ".png" then "png" else "jpeg"
  }

  /** The job `percy.upload` receives for an accepted path, or the error image-size throws. */
  function JobFor(config: UploadConfig, dirname: string, host: Host, relativePath: string)
    : (r: Result<UploadJob, string>)
    ensures r.Err? <==> host.imageSize(host.resolve(dirname, relativePath)).Err?
    ensures r.Ok? ==>
      var job := r.value;
      var dims := host.imageSize(host.resolve(dirname, relativePath)).value;
      var parsed := host.parsePath(relativePath);
      && |job.widths| == 1
      && 10 <= job.widths[0] <= 2000 && 10 <= job.minHeight <= 2000
      && job.widths == [Clamp(dims.width)] && job.minHeight == Clamp(dims.height)
      && (10 <= dims.width <= 2000 ==> job.widths[0] == dims.width)
      && (10 <= dims.height <= 2000 ==> job.minHeight == dims.height)
      && (job.image.fileType == "png" <==> parsed.ext == ".png")
      && (job.image.fileType == "png" || job.image.fileType == "jpeg")
      && job.image == Image(relativePath, host.resolve(dirname, relativePath), dims.width, dims.height,
                            ImageType(parsed.ext), host.join(parsed.dir, parsed.name))
      && job.name == if Truthy(config.stripExtensions) then host.join(parsed.dir, parsed.name) else relativePath
  {
    var absolutePath := host.resolve(dirname, relativePath);
    match host.imageSize(absolutePath)
    case Err(e) => Err(e)
    case Ok(dims) =>
      var parsed := host.parsePath(relativePath);
      var img := Image(relativePath, absolutePath, dims.width, dims.height,
                       ImageType(parsed.ext), host.join(parsed.dir, parsed.name));
      Ok(UploadJob(if Truthy(config.stripExtensions) then img.name else relativePath,
                   [Clamp(img.width)], Clamp(img.height), img))
  }

  /** An accepted path whose extension is `.PNG` in capitals is uploaded as a JPEG. */
  lemma UpperCasePngUploadsAsJpeg(config: UploadConfig, dirname: string, host: Host, path: string)
    requires EndsWith(path, ".PNG") && host.parsePath(path).ext == ".PNG"
    requires host.imageSize(host.resolve(dirname, path)).Ok?
    ensures AllowedFileType(path)
    ensures JobFor(config, dirname, host, path).Ok?
    ensures JobFor(config, dirname, host, path).value.image.fileType == "jpeg"
  {
    UpperCasePngIsAllowed(path);
  }

  function SkipMessage(path: string): string {
    "Skipping unsupported file type: " + path
  }

  /** The jobs issued and the lines logged so far, and the error that ended the loop, if any. */
  datatype Plan = Plan(jobs: seq<UploadJob>, skipped: seq<string>, failure: Option<string>)

  /**
    One iteration of the `for...of` loop: it only ever appends, logs a line
    exactly for a rejected path, adds a job only for an accepted one, and
    records an error exactly when an accepted image cannot be measured.
   */
  function PlanStep(plan: Plan, config: UploadConfig, dirname: string, host: Host, path: string): (r: Plan)
    ensures plan.jobs <= r.jobs && plan.skipped <= r.skipped
    ensures |r.jobs| + |r.skipped| <= |plan.jobs| + |plan.skipped| + 1
    ensures r.skipped != plan.skipped <==> !AllowedFileType(path)
    ensures !AllowedFileType(path) ==> r == plan.(skipped := plan.skipped + [SkipMessage(path)])
    ensures r.jobs != plan.jobs ==>
      AllowedFileType(path) && JobFor(config, dirname, host, path).Ok?
      && r.jobs == plan.jobs + [JobFor(config, dirname, host, path).value]
    ensures r.failure != plan.failure ==>
      AllowedFileType(path) && r.failure.Some? && JobFor(config, dirname, host, path) == Err(r.failure.value)
    ensures AllowedFileType(path) && JobFor(config, dirname, host, path).Err? ==>
      r.failure == Some(JobFor(config, dirname, host, path).error)
    ensures r.failure.None? ==> |r.jobs| + |r.skipped| == |plan.jobs| + |plan.skipped| + 1
  {
    if !AllowedFileType(path) then plan.(skipped := plan.skipped + [SkipMessage(path)])
    else match JobFor(config, dirname, host, path)
      case Err(e) => plan.(failure := Some(e))
      case Ok(job) => plan.(jobs := plan.jobs + [job])
  }

  /** The loop over `pathnames`; it stops at the first error. */
  function PlanUploads(config: UploadConfig, dirname: string, host: Host, paths: seq<string>): (r: Plan)
    ensures |r.jobs| + |r.skipped| <= |paths|
    ensures r.failure.None? ==> |r.jobs| + |r.skipped| == |paths|
  {
    if paths == [] then Plan([], [], None)
    else
      var prev := PlanUploads(config, dirname, host, paths[..|paths| - 1]);
      if prev.failure.Some? then prev else PlanStep(prev, config, dirname, host, paths[|paths| - 1])
  }

  /** The paths the filter accepts, in glob order. */
  function Accepted(paths: seq<string>): seq<string> {
    if paths == [] then []
    else Accepted(paths[..|paths| - 1]) + if AllowedFileType(paths[|paths| - 1]) then [paths[|paths| - 1]] else []
  }

  /** The paths the filter rejects, in glob order. */
  function Rejected(paths: seq<string>): seq<string> {
    if paths == [] then []
    else Rejected(paths[..|paths| - 1]) + if AllowedFileType(paths[|paths| - 1]) then [] else [paths[|paths| - 1]]
  }

  /**
    The loop issues one job per accepted path, in glob order; it covers
    every accepted path unless an image fails to be measured.
   */
  lemma {:induction false} PlanJobsFollowFilter(config: UploadConfig, dirname: string, host: Host, paths: seq<string>)
    ensures var plan := PlanUploads(config, dirname, host, paths);
      && |plan.jobs| <= |Accepted(paths)|
      && (forall i :: 0 <= i < |plan.jobs| ==> JobFor(config, dirname, host, Accepted(paths)[i]) == Ok(plan.jobs[i]))
      && (plan.failure.None? ==> |plan.jobs| == |Accepted(paths)|)
  {
    if paths != [] {
      var init := paths[..|paths| - 1];
      var last := paths[|paths| - 1];
      PlanJobsFollowFilter(config, dirname, host, init);
      var prev := PlanUploads(config, dirname, host, init);
      var plan := PlanUploads(config, dirname, host, paths);
      var before := Accepted(init);
      assert Accepted(paths) == before + if AllowedFileType(last) then [last] else [];
      if prev.failure.None? && AllowedFileType(last) && JobFor(config, dirname, host, last).Ok? {
        assert plan.jobs == prev.jobs + [JobFor(config, dirname, host, last).value];
        assert Accepted(paths) == before + [last];
      } else {
        assert plan.jobs == prev.jobs;
      }
    }
  }

  /** The loop logs one line per rejected path, in glob order. */
  lemma {:induction false} PlanSkipsFollowFilter(config: UploadConfig, dirname: string, host: Host, paths: seq<string>)
    ensures var plan := PlanUploads(config, dirname, host, paths);
      && |plan.skipped| <= |Rejected(paths)|
      && (forall i :: 0 <= i < |plan.skipped| ==> plan.skipped[i] == SkipMessage(Rejected(paths)[i]))
      && (plan.failure.None? ==> |plan.skipped| == |Rejected(paths)|)
  {
    if paths != [] {
      var init := paths[..|paths| - 1];
      var last := paths[|paths| - 1];
      PlanSkipsFollowFilter(config, dirname, host, init);
      var prev := PlanUploads(config, dirname, host, init);
      var plan := PlanUploads(config, dirname, host, paths);
      var before := Rejected(init);
      assert Rejected(paths) == before + if AllowedFileType(last) then [] else [last];
      if prev.failure.None? && !AllowedFileType(last) {
        assert plan.skipped == prev.skipped + [SkipMessage(last)];
        assert Rejected(paths) == before + [last];
      } else {
        assert plan.skipped == prev.skipped;
      }
    }
  }

  /** The loop runs to the end exactly when every accepted image can be measured. */
  lemma {:induction false} PlanCompletes(config: UploadConfig, dirname: string, host: Host, paths: seq<string>)
    ensures PlanUploads(config, dirname, host, paths).failure.None? <==>
      forall p :: p in Accepted(paths) ==> JobFor(config, dirname, host, p).Ok?
  {
    if paths != [] {
      var init := paths[..|paths| - 1];
      var last := paths[|paths| - 1];
      PlanCompletes(config, dirname, host, init);
      assert forall p :: p in Accepted(paths) <==> p in Accepted(init) || (p == last && AllowedFileType(last));
    }
  }

  /** Once an iteration fails, later paths add nothing. */
  lemma {:induction false} PlanStopsAtFailure(config: UploadConfig, dirname: string, host: Host, paths: seq<string>, i: nat)
    requires i <= |paths| && PlanUploads(config, dirname, host, paths[..i]).failure.Some?
    ensures PlanUploads(config, dirname, host, paths) == PlanUploads(config, dirname, host, paths[..i])
  {
    if i < |paths| {
      var init := paths[..|paths| - 1];
      assert init[..i] == paths[..i];
      PlanStopsAtFailure(config, dirname, host, init, i);
    } else {
      assert paths[..i] == paths;
    }
  }

  function UploadEvents(jobs: seq<UploadJob>): seq<Event> {
    seq(|jobs|, i requires 0 <= i < |jobs| => UploadCall(jobs[i]))
  }

  /** Issuing one more job appends one upload call. */
  lemma UploadEventsSnoc(jobs: seq<UploadJob>, job: UploadJob)
    ensures UploadEvents(jobs + [job]) == UploadEvents(jobs) + [UploadCall(job)]
  {
  }

  /** The plan for one more path is one more loop iteration, while no error has occurred. */
  lemma PlanUploadsSnoc(config: UploadConfig, dirname: string, host: Host, paths: seq<string>, i: nat)
    requires i < |paths| && PlanUploads(config, dirname, host, paths[..i]).failure.None?
    ensures PlanUploads(config, dirname, host, paths[..i + 1])
         == PlanStep(PlanUploads(config, dirname, host, paths[..i]), config, dirname, host, paths[i])
  {
    assert paths[..i + 1][..i] == paths[..i];
  }

  /**
    `[].concat(config.ignore || [])`: no patterns for a falsy setting, an
    array's elements, or any other value as the single pattern.
   */
  function IgnoreList(ignore: Value): (r: seq<Value>)
    ensures !Truthy(ignore) ==> r == []
    ensures ignore.Arr? ==> r == ignore.elems
    ensures Truthy(ignore) && !ignore.Arr? ==> r == [ignore]
    ensures r == [] <==> !Truthy(ignore) || ignore == Arr([])
  {
    if !Truthy(ignore) then [] else if ignore.Arr? then ignore.elems else [ignore]
  }

  /** The `pathnames` glob yields for the configured patterns. */
  function Glob(config: UploadConfig, dirname: string, host: Host): seq<string> {
    host.glob(config.files, IgnoreList(config.ignore), dirname)
  }

  function NoMatchMessage(dirname: string): string {
    "No matching files found in '" + dirname + "'"
  }

  /**
    From `percy.set` on: start outside any `try`, the jobs of the plan,
    then stop; only a failing stop is followed by `percy.stop(true)` and a
    rethrow.
   */
  predicate UploadSession(p: Instance, plan: Plan, trace: seq<Event>, log: seq<string>, outcome: Outcome) {
    var opening := [SetDiscoveryConcurrency(p.config.upload.concurrency), Start];
    var issued := opening + UploadEvents(plan.jobs);
    if p.startError.Some? then
      trace == opening && log == [] && outcome == Threw(p.startError.value)
    else if plan.failure.Some? then
      trace == issued && log == plan.skipped && outcome == Threw(plan.failure.value)
    else if p.stopError.Some? then
      trace == issued + [Stop, ForcedStop] && log == plan.skipped && outcome == Threw(p.stopError.value)
    else
      trace == issued + [Stop] && log == plan.skipped && outcome == Completed
  }

  /** Every upload comes after the start and before any stop. */
  lemma UploadsInsideSession(concurrency: Value, jobs: seq<UploadJob>, tail: seq<Event>)
    requires tail == [] || tail == [Stop] || tail == [Stop, ForcedStop]
    ensures WorkInsideSession([SetDiscoveryConcurrency(concurrency), Start] + UploadEvents(jobs) + tail)
    ensures ForcedStop in [SetDiscoveryConcurrency(concurrency), Start] + UploadEvents(jobs) + tail
        <==> tail == [Stop, ForcedStop]
  {
    var opening := [SetDiscoveryConcurrency(concurrency), Start];
    var trace := opening + UploadEvents(jobs) + tail;
    if ForcedStop in trace {
      var i :| 0 <= i < |trace| && trace[i] == ForcedStop;
      assert 2 + |jobs| <= i;
    }
    forall i | 0 <= i < |trace| && trace[i].IsWork()
      ensures Start in trace[..i] && Stop !in trace[..i] && ForcedStop !in trace[..i]
    {
      assert 2 <= i < 2 + |jobs|;
      assert trace[1] == Start;
      assert trace[..i] == opening + UploadEvents(jobs)[..i - 2];
    }
  }

  /** The body of the loop for an accepted path: measure the image, then build `img` and the job. */
  method BuildJob(config: UploadConfig, dirname: string, host: Host, relativePath: string)
    returns (r: Result<UploadJob, string>)
    ensures r == JobFor(config, dirname, host, relativePath)
  {
    var absolutePath := host.resolve(dirname, relativePath);
    var size := host.imageSize(absolutePath);
    if size.Err? {
      return Err(size.error);
    }
    // image-size's own `type` is overwritten below
    var img := Image(relativePath, absolutePath, size.value.width, size.value.height, "", "");
    var parsed := host.parsePath(relativePath);
    img := img.(fileType := ImageType(parsed.ext));
    img := img.(name := host.join(parsed.dir, parsed.name));
    r := Ok(UploadJob(
      if Truthy(config.stripExtensions) then img.name else relativePath,
      [Clamp(img.width)],
      Clamp(img.height),
      img));
  }

  /**
    The `for...of` loop over `pathnames`: each accepted path issues
    `percy.upload`, each rejected one logs a line; an image-size error ends
    the loop and is returned.
   */
  method IssueUploads(config: UploadConfig, dirname: string, host: Host, pathnames: seq<string>, opening: seq<Event>)
    returns (trace: seq<Event>, log: seq<string>, failure: Option<string>)
    ensures var plan := PlanUploads(config, dirname, host, pathnames);
      trace == opening + UploadEvents(plan.jobs) && log == plan.skipped && failure == plan.failure
  {
    trace, log := opening, [];
    ghost var jobs: seq<UploadJob> := [];
    var i := 0;
    while i < |pathnames|
      invariant 0 <= i <= |pathnames|
      invariant PlanUploads(config, dirname, host, pathnames[..i]) == Plan(jobs, log, None)
      invariant trace == opening + UploadEvents(jobs)
    {
      var relativePath := pathnames[i];
      PlanUploadsSnoc(config, dirname, host, pathnames, i);
      if !AllowedFileType(relativePath) {
        log := log + [SkipMessage(relativePath)];
      } else {
        var job := BuildJob(config, dirname, host, relativePath);
        if job.Err? {
          PlanStopsAtFailure(config, dirname, host, pathnames, i + 1);
          return trace, log, Some(job.error);
        }
        UploadEventsSnoc(jobs, job.value);
        trace := trace + [UploadCall(job.value)];
        jobs := jobs + [job.value];
      }
      i := i + 1;
    }
    assert pathnames[..i] == pathnames;
    failure := None;
  }

  /**
    The command body, preceded by the argument's validation. Calls on Percy
    are returned as `trace`, info lines as `log`.
   */
  method RunUpload(dirname: string, percy: Option<Instance>, host: Host)
    returns (trace: seq<Event>, log: seq<string>, outcome: Outcome)
    ensures ValidateDirname(dirname, host.fs).Some? ==>
      trace == [] && log == [] && outcome == Threw(ValidateDirname(dirname, host.fs).value)
    ensures ValidateDirname(dirname, host.fs).None? && percy.None? ==>
      trace == [] && log == [] && outcome == Exited(0, DisabledMessage)
    ensures ValidateDirname(dirname, host.fs).None? && percy.Some? ==>
      var config := percy.value.config.upload;
      var pathnames := Glob(config, dirname, host);
      && (pathnames == [] ==> trace == [] && log == [] && outcome == Exited(1, NoMatchMessage(dirname)))
      && (pathnames != [] ==> UploadSession(percy.value, PlanUploads(config, dirname, host, pathnames), trace, log, outcome))
    ensures WorkInsideSession(trace)
    ensures ForcedStop in trace ==>
      percy.Some? && percy.value.stopError.Some? && outcome == Threw(percy.value.stopError.value)
  {
    trace, log := [], [];
    var invalid := ValidateDirname(dirname, host.fs);
    if invalid.Some? {
      outcome := Threw(invalid.value);
      return;
    }
    if percy.None? {
      outcome := Exited(0, DisabledMessage);
      return;
    }
    var p := percy.value;
    var config := p.config.upload;
    var pathnames := host.glob(config.files, IgnoreList(config.ignore), dirname);
    if |pathnames| == 0 {
      outcome := Exited(1, NoMatchMessage(dirname));
      return;
    }

    var opening := [SetDiscoveryConcurrency(config.concurrency), Start];
    trace := opening;
    if p.startError.Some? {
      UploadsInsideSession(config.concurrency, [], []);
      assert trace == opening + UploadEvents([]) + [];
      outcome := Threw(p.startError.value);
      return;
    }

    var failure;
    trace, log, failure := IssueUploads(config, dirname, host, pathnames, trace);
    ghost var plan := PlanUploads(config, dirname, host, pathnames);
    if failure.Some? {
      UploadsInsideSession(config.concurrency, plan.jobs, []);
      assert trace == trace + [];
      outcome := Threw(failure.value);
      return;
    }

    trace := trace + [Stop];
    if p.stopError.Some? {
      trace := trace + [ForcedStop];
      UploadsInsideSession(config.concurrency, plan.jobs, [Stop, ForcedStop]);
      outcome := Threw(p.stopError.value);
      return;
    }
    UploadsInsideSession(config.concurrency, plan.jobs, [Stop]);
    outcome := Completed;
  }
}
