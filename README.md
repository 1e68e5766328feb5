# percy-cli `snapshot` and `upload` commands in Dafny

This project models the two command bodies of the Percy command-line front
end that carry its logic.

`percy snapshot` works in these steps:

- It classifies its positional argument as a sitemap URL, a static directory to serve, or a snapshots file.
- It validates `--base-url`.
- It picks a loader for a snapshots file by extension.
- It normalises the loaded document. An array becomes `{snapshots}` and `references` is dropped.
- It builds the snapshot options with a small shallow merge that skips `null` and `undefined`.
- It drives Percy through start, snapshot and stop. When anything in between throws, it calls `percy.stop(true)` and rethrows.

`percy upload` works in these steps:

- It validates its directory argument.
- It globs the directory.
- It exits with code 1 on an empty result.
- Between start and stop it issues one upload job per image path, in glob order. Width and height are clamped to [10, 2000].
- It logs every other path as skipped.

Modules:

- `Wrappers` (js.dfy): `Option` and `Result`.
- `Js` (js.dfy): JavaScript values with `null` and `undefined` kept apart, `??`, truthiness, object spread, and the string tests behind the regular expressions.
- `Platform` (platform.dfy): the foreign collaborators.
  - The file system is a map from path to entry. `existsSync` follows symbolic links; `lstat` does not.
  - A `Host` value holds the URL parser, the `path` helpers, the snapshots-file loaders, fast-glob and image-size, each as a function the model takes as given.
- `Percy` (percy.dfy): the calls made on Percy (`set`, `start`, `snapshot`, `upload`, `stop`, `stop(true)`) as events of a trace, and the outcome of a command.
  - The outcome is normal completion, `exit(code, message)`, or a thrown error.
  - An `Instance` says which lifecycle calls throw. A disabled Percy is no instance at all.
- `ShallowMerge` (merge.dfy): `merge`. It is modelled as a method whose loops follow the reduce and its `for...in`. It is proved equal to the fold `MergeAll`, and the lemmas state what the fold means.
- `Snapshot` (snapshot.dfy) and `Upload` (upload.dfy): the two commands. Each is a method that returns the trace of Percy calls and the outcome, plus the info lines it logs (upload).

Each command's argument check (`attribute` for snapshot, `validate` for upload) runs before the body. The model runs it first too.

Nothing in the model mutates its inputs. `merge` starts from a fresh object, and in Dafny every input is a value.

## Model

| member | source | states |
|---|---|---|
| `ShallowMerge.AssignKeys` | packages/cli-snapshot/src/snapshot.js:114 | the `for...in` loop over one input computes exactly `Assign(start, obj)` |
| `ShallowMerge.Merge` | packages/cli-snapshot/src/snapshot.js:111-117 | the reduce from a fresh `{}` computes exactly the fold `MergeAll` over the inputs in order |
| `ShallowMerge.MergeAllKeys` | packages/cli-snapshot/src/snapshot.js:112-116 | a key is in the merge iff it is a key of some input (the key set is the union) |
| `ShallowMerge.LastDefinedWins` | packages/cli-snapshot/src/snapshot.js:114 | a key takes the value of the last input whose value for it is neither null nor undefined; later nullish values never replace it |
| `ShallowMerge.AllNullishIsUndefined` | packages/cli-snapshot/src/snapshot.js:114 | a key that every input leaves null or undefined is present with value `undefined` |
| `ShallowMerge.MergeAllHasNoNull` | packages/cli-snapshot/src/snapshot.js:114 | no merged value is `null`: `obj[k] ?? target[k]` turns a first null into `undefined` |
| `ShallowMerge.NullishDoesNotOverride` | packages/cli-snapshot/src/snapshot.js:111-116 | appending an input whose value for a key is nullish leaves that key's merged value unchanged |
| `ShallowMerge.MergeScenario` | packages/cli-snapshot/src/snapshot.js:111-117 | `{a:1}`, `{a:2,b:3}`, `{b:4}` merge to `{a:2,b:4}` |
| `Snapshot.ClassifyArg` | packages/cli-snapshot/src/snapshot.js:14-18 | `sitemap` iff the value starts with `http://` or `https://`; otherwise a missing path fails with `Not found: <val>`; an lstat directory is `serve`; anything else that exists (a symbolic link to a directory included) is `file` |
| `Snapshot.SitemapIgnoresFileSystem` | packages/cli-snapshot/src/snapshot.js:15 | a sitemap URL is classified the same under any file system |
| `Snapshot.ParseBaseUrl` | packages/cli-snapshot/src/snapshot.js:98-108 | fails iff the URL parser rejects the input, with a `localhost` base only for a rooted path in directory mode; the error text depends only on the mode; otherwise the result is the pathname in directory mode and the href for a snapshots file |
| `Snapshot.ResolveBaseUrl` | packages/cli-snapshot/src/snapshot.js:63 | the flag is parsed only for a file or directory and only when it is a non-empty string; otherwise it passes through unchanged |
| `Snapshot.LoaderFor` | packages/cli-snapshot/src/snapshot.js:121-133 | fails iff no pattern accepts the extension (not `/\.(c\|m)?js$/`, not `.json`, not `/\.ya?ml$/`), with `Unsupported filetype: <file>` |
| `Snapshot.LoaderByExtension` | packages/cli-snapshot/src/snapshot.js:121-133 | on extensions as `path.extname` returns them: module loader iff `.js`/`.cjs`/`.mjs`, JSON iff `.json`, YAML iff `.yml`/`.yaml`, unsupported iff none of these |
| `Snapshot.LoadSnapshotFile` | packages/cli-snapshot/src/snapshot.js:120-134 | an unsupported extension fails before any loading; otherwise the file is read by the loader its extension selects |
| `Snapshot.SnapshotsConfig` | packages/cli-snapshot/src/snapshot.js:75 | fails iff the document is null or undefined; never contains `references`; an array becomes `{snapshots: arr}`; an object loses only `references` |
| `Snapshot.MergePair` | packages/cli-snapshot/src/snapshot.js:76-84 | merging a configuration with the command's flags keeps every key of either and no other; per key a flag wins when provided (non-nullish), otherwise the configured value when provided, otherwise `undefined` |
| `Snapshot.OptionsFor` | packages/cli-snapshot/src/snapshot.js:69-85 | only a snapshots file fails: with the loader's error, or with a TypeError for a null or undefined document; otherwise the options are the key-by-key merge of the document (or `percy.config.static`, `percy.config.sitemap`) with that mode's flags, and in directory or sitemap mode `serve` or `sitemap` is the argument itself |
| `Snapshot.SnapshotInsideSession` | packages/cli-snapshot/src/snapshot.js:87-93 | in every trace the `try` block and its `catch` can produce, the snapshot comes after the start and before any stop, the trace ends with a stop, and `stop(true)` occurs iff the block throws |
| `Snapshot.TakeSnapshot` | packages/cli-snapshot/src/snapshot.js:87-93 | once the options are built: start, snapshot(options), stop, with the first failing call followed by `stop(true)` and its own error rethrown |
| `Snapshot.Abort` | packages/cli-snapshot/src/snapshot.js:90-93 | the `catch` appends `stop(true)` and rethrows the same error |
| `Snapshot.RunSnapshot` | packages/cli-snapshot/src/snapshot.js:58-94 | argument and base-url errors throw with no Percy call; a disabled Percy exits 0 with no call; otherwise start, snapshot(options), stop, with the first failing step followed by `stop(true)` and its own error rethrown; `stop(true)` occurs iff the run threw after the disabled check; the snapshot lies inside the session and Percy is never left running |
| `Upload.ValidateDirname` | packages/cli-upload/src/upload.js:15-21 | passes iff the path is a directory entry (not a link to one); a missing path fails with `Not found: <dir>`, an existing non-directory with `Not a directory: <dir>` |
| `Upload.AllowedFileType` | packages/cli-upload/src/upload.js:6 | a path is accepted iff it ends in `.png`, `.jpg` or `.jpeg` with ASCII letters compared without regard to case |
| `Upload.UpperCasePngIsAllowed` | packages/cli-upload/src/upload.js:6 | the image filter is case-insensitive: a path ending in `.PNG` is accepted |
| `Upload.Clamp` | packages/cli-upload/src/upload.js:93-95 | the result lies in [10, 2000], equals the input when the input is in range, and is the nearer bound otherwise |
| `Upload.JobFor` | packages/cli-upload/src/upload.js:85-98 | fails iff image-size fails; a job has one width, the clamped image width, and the clamped image height as minimum height (so both lie in [10, 2000], equal to the image's when in range and the nearer bound otherwise); its `img` holds the relative path, the resolved absolute path, the measured size, type `png` iff the parsed extension is exactly `.png` (else `jpeg`), and name `join(dir, name)`; the job's name is that name with `stripExtensions`, else the relative path |
| `Upload.UpperCasePngUploadsAsJpeg` | packages/cli-upload/src/upload.js:82-88 | a `.PNG` file passes the filter but is uploaded with type `jpeg` |
| `Upload.PlanStep` | packages/cli-upload/src/upload.js:81-99 | one iteration only appends: a rejected path adds exactly the line `Skipping unsupported file type: <path>` and nothing else; a job is added (the path's `JobFor`) only for an accepted path; an error is recorded only as an accepted path's image-size error (always when there is one); without an error it handles exactly one path |
| `Upload.PlanUploads` | packages/cli-upload/src/upload.js:81-100 | the loop handles each path at most once, and every path exactly once (as a job or a log line) unless an image-size error ends it |
| `Upload.PlanJobsFollowFilter` | packages/cli-upload/src/upload.js:81-100 | the loop's i-th job is the job for the i-th accepted path, in glob order; with no image-size error there is one job per accepted path |
| `Upload.PlanSkipsFollowFilter` | packages/cli-upload/src/upload.js:81-100 | the loop's i-th log line names the i-th rejected path, in glob order; with no image-size error every rejected path is logged |
| `Upload.PlanCompletes` | packages/cli-upload/src/upload.js:81-100 | the loop runs to the end iff every accepted path's image can be measured |
| `Upload.PlanStopsAtFailure` | packages/cli-upload/src/upload.js:81-86 | after an image-size error, later paths issue and log nothing |
| `Upload.IgnoreList` | packages/cli-upload/src/upload.js:65 | `[].concat(config.ignore \|\| [])`: no patterns for a falsy setting, an array's elements, any other value as the one pattern; empty iff falsy or an empty array |
| `Upload.UploadsInsideSession` | packages/cli-upload/src/upload.js:79-107 | every upload in the command's trace comes after the start and before any stop |
| `Upload.BuildJob` | packages/cli-upload/src/upload.js:85-98 | building `img` field by field and the job from it yields `JobFor` |
| `Upload.IssueUploads` | packages/cli-upload/src/upload.js:81-100 | the loop appends exactly the plan's upload calls to the trace, logs exactly the plan's skip lines, and returns the plan's error |
| `Upload.RunUpload` | packages/cli-upload/src/upload.js:59-108 | an invalid directory throws and a disabled Percy exits 0, both with no call; an empty glob exits 1 with `No matching files found in '<dirname>'` before start; otherwise set, start, the plan's uploads, stop, and the plan's skip lines; only a failing stop is followed by `stop(true)` and a rethrow; uploads lie inside the session |

The two command methods in more detail:

- `Snapshot.RunSnapshot`:
  - A failed classification or base-url check throws with an empty trace.
  - A disabled Percy exits 0 with `Percy is disabled` and no calls. This check comes after base-url validation.
  - Otherwise the trace is start, snapshot(options) and stop, where `OptionsFor` gives the options.
  - The first failing step is followed by `stop(true)` and a rethrow of its own error. A file that cannot be loaded gives the trace `[stop(true)]`.
  - `stop(true)` occurs iff the run threw after the disabled check.
  - The snapshot comes after start and before any stop, and Percy is never left running.
- `Upload.RunUpload`:
  - An invalid directory throws with an empty trace.
  - A disabled Percy exits 0 before globbing.
  - An empty glob result exits 1 with `No matching files found in '<dirname>'` and no calls.
  - Otherwise the trace is set(concurrency), start, the plan's uploads and stop, and the log is the plan's skip lines.
  - Only a failing stop is followed by `stop(true)` and a rethrow. A failing start or image-size error propagates with no stop.
  - Every upload comes after the start and before any stop.

## Left out

- `packages/cli-exec/src/ping.js`, `packages/cli-exec/src/stop.js`: HTTP requests to the local healthcheck and stop endpoints, and a timer-driven polling loop. These are network I/O and timing.
- `packages/cli-build/src/id.js`: a presence check around a network request.
- `packages/cli/src/percy.js`, `packages/cli-build/src/build.js`, `packages/cli-command/src/index.js`, `packages/core/src/index.js`: command registration and re-exports.
- The workflow driver behind `command(...)` and the configuration resolver are not part of this model. Neither are their schema, migration and flag parsing. The commands receive flags, a `percy` instance (or none) and `exit` from them.
- The upload body itself calls `stop(true)` only when stop fails. If start or image-size throws, Percy is left started. Any cleanup the workflow driver performs afterwards is not modelled.
- Foreign calls are functions the model takes as given, not re-implementations. These are `fs.existsSync`/`lstatSync`, the `URL` constructor (section 4.4 of the WHATWG URL Standard, basic URL parser), `path.extname`/`resolve`/`parse`/`join`, module `import`, `JSON.parse`, YAML parsing, fast-glob and image-size. A loaded module whose default export is a function is called, and that call is part of the loader.
- Every Percy call is one event. The events inside `percy.yield.start/snapshot/stop` are not modelled. `percy.stop(true)` itself is taken not to throw, and so are `percy.set` and `percy.upload` (see `Upload.RunUpload` below).
- fast-glob is taken not to throw.
- Numbers are integers. An image-size result without a width or height (`NaN` after clamping) is not modelled.
- `for...in` also visits inherited enumerable properties. Inputs here are plain maps, so there are none. The visiting order does not change the result, because each key is written once per input.
- `ShallowMerge.Assign` reads `target[k]` as an own property only. In JavaScript the fresh `{}` that `merge` starts from inherits from `Object.prototype`. Its member names are `constructor`, `toString`, `toLocaleString`, `valueOf`, `hasOwnProperty`, `isPrototypeOf`, `propertyIsEnumerable`, `__defineGetter__`, `__defineSetter__`, `__lookupGetter__`, `__lookupSetter__` and `__proto__`. For such a key, a nullish input value yields the inherited member, not `undefined`. An own `__proto__` key of an input (which `JSON.parse` and the object rest produce) goes through the prototype setter: it never becomes an own key of the result, and when its value is an object it replaces the prototype. From then on, a nullish value of any later key reads from that object. Built-in functions and prototypes are not values of this model.
- `ShallowMerge.MergeAllKeys`: holds in JavaScript only for keys other than `__proto__`.
- `ShallowMerge.LastDefinedWins`: holds in JavaScript only for keys other than `__proto__`.
- `ShallowMerge.MergeAllHasNoNull`: holds in JavaScript only when no input has an own `__proto__` key. Such a key replaces the prototype that later nullish reads fall back to, and that object can hold `null`: the snapshots document `{"__proto__": {"baseUrl": null}}` without `--base-url` gives an own `baseUrl` of `null`.
- `ShallowMerge.AllNullishIsUndefined`: holds in JavaScript only when no input has an own `__proto__` key (see `MergeAllHasNoNull`) and the key is not one of the `Object.prototype` member names.
- `Snapshot.MergePair`: the key set holds in JavaScript only for keys other than `__proto__`. The per-key value for a key whose values are all nullish holds only when no input has an own `__proto__` key and the key is not one of the `Object.prototype` member names.
- `Snapshot.OptionsFor`: the same two limits as `Snapshot.MergePair` apply to the snapshots document and the configuration it merges.
- `Upload.RunUpload`, `Upload.IssueUploads`: an `Instance` can only make `percy.yield.start`, `percy.yield.snapshot` and `percy.yield.stop` throw. `percy.set` and `percy.upload` are taken never to throw. If `percy.upload` threw, the command would end at that call with no stop, as after an image-size error; that path is not modelled.
- `Snapshot.SnapshotsConfig`: a null or undefined document throws a `TypeError`. Its engine-specific wording is not modelled, only that it throws inside the `try` block.
- Spreading a string document indexes it by Unicode scalar values, not UTF-16 code units.
- Log line formats, severities and process exit plumbing are left out. Upload's info lines are kept as a list of messages.
