/**
  The foreign collaborators of the two commands, taken as given: the file
  system probes, the WHATWG URL parser, Node's path helpers, the snapshot
  file loaders, fast-glob and image-size. None of them is re-implemented;
  a `Host` value fixes how each of them answers.
 */
module Platform {
  import opened Wrappers
  import opened Js

  /**
    What `fs.lstatSync` reports for a path that is present. lstat does not
    follow a symbolic link; `resolves` says whether `fs.existsSync`, which
    does follow it, finds the link's target.
   */
  datatype FsEntry = Directory | RegularFile | SymbolicLink(resolves: bool)

  type FileSystem = map<string, FsEntry>

  /** `fs.existsSync(path)`: a dangling symbolic link does not exist. */
  predicate Exists(fs: FileSystem, path: string) {
    path in fs && (fs[path].SymbolicLink? ==> fs[path].resolves)
  }

  /** `fs.lstatSync(path).isDirectory()`: a link to a directory is not one. */
  predicate IsDirectoryEntry(fs: FileSystem, path: string) {
    path in fs && fs[path].Directory?
  }

  /** The two parts of a parsed URL the commands read. */
  datatype Url = Url(href: string, pathname: string)

  /** The parts of `path.parse` the upload command reads. */
  datatype ParsedPath = ParsedPath(dir: string, name: string, ext: string)

  /** What image-size reports for a readable image. */
  datatype Dimensions = Dimensions(width: int, height: int)

  /** The three ways a snapshots file is read: module import, JSON.parse, YAML.parse. */
  datatype Loader = ModuleLoader | JsonLoader | YamlLoader

  datatype Host = Host(
    fs: FileSystem,
    // `new URL(input, base)`; None when the constructor throws
    parseUrl: (string, Option<string>) -> Option<Url>,
    // `path.extname`
    extname: string -> string,
    // reading and parsing a snapshots file with the given loader
    load: (Loader, string) -> Result<Value, string>,
    // fast-glob: patterns, ignore patterns, working directory
    glob: (Value, seq<Value>, string) -> seq<string>,
    // `path.resolve(dir, relative)`
    resolve: (string, string) -> string,
    // `path.parse`
    parsePath: string -> ParsedPath,
    // `path.join`
    join: (string, string) -> string,
    // image-size; Err when the file cannot be measured
    imageSize: string -> Result<Dimensions, string>)
}
