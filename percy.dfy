/**
  The Percy instance as the commands see it: its configuration, the calls
  they make on it (recorded as events in a trace, in call order) and how
  a command ends.
 */
module Percy {
  import opened Wrappers
  import opened Js

  /** The `img` record an upload job carries; its resources are read from it on demand. */
  datatype Image = Image(
    relativePath: string,
    absolutePath: string,
    width: int,
    height: int,
    fileType: string,
    name: string)

  /** The argument of `percy.upload`. */
  datatype UploadJob = UploadJob(name: string, widths: seq<int>, minHeight: int, image: Image)

  /** One call on the Percy instance. */
  datatype Event =
    | SetDiscoveryConcurrency(concurrency: Value) // percy.set({ discovery: { concurrency } })
    | Start                                       // percy.yield.start()
    | SnapshotCall(options: map<string, Value>)   // percy.yield.snapshot(options)
    | UploadCall(job: UploadJob)                  // percy.upload(job)
    | Stop                                        // percy.yield.stop()
    | ForcedStop                                  // percy.stop(true)
  {
    /** Work that is only meaningful while Percy runs. */
    predicate IsWork() {
      SnapshotCall? || UploadCall?
    }
  }

  /** How a command body ends: normally, through `exit(code, message)`, or by throwing. */
  datatype Outcome = Completed | Exited(code: int, message: string) | Threw(error: string)

  /** `percy.config.upload` */
  datatype UploadConfig = UploadConfig(files: Value, ignore: Value, stripExtensions: Value, concurrency: Value)

  /** The parts of `percy.config` the two commands read. */
  datatype PercyConfig = PercyConfig(
    staticConfig: map<string, Value>,
    sitemapConfig: map<string, Value>,
    upload: UploadConfig)

  /**
    An enabled Percy instance: its configuration and, for each lifecycle
    call, the error it throws, if any. A disabled Percy is absent altogether
    (the command receives no instance).
   */
  datatype Instance = Instance(
    config: PercyConfig,
    startError: Option<string>,
    snapshotError: Option<string>,
    stopError: Option<string>)

  const DisabledMessage := "Percy is disabled"

  /** Every work call comes after a start and before any stop. */
  predicate WorkInsideSession(trace: seq<Event>) {
    forall i :: 0 <= i < |trace| && trace[i].IsWork() ==>
      Start in trace[..i] && Stop !in trace[..i] && ForcedStop !in trace[..i]
  }

  /** The trace does not leave Percy running: it is empty or ends in a stop. */
  predicate EndsStopped(trace: seq<Event>) {
    trace == [] || trace[|trace| - 1] == Stop || trace[|trace| - 1] == ForcedStop
  }
}
