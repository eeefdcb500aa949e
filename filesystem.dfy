/**
  The part of the operating system the handler consults: which paths exist,
  which are directories (with the names `os.listdir` returns, in an order
  the model leaves open) or regular files, their sizes, and what reading them yields.
 */
module FileSystem {
  import opened Wrappers

  /** One path. `contents` is None when `open` raises IOError (no permission). */
  datatype Node =
    | Dir(size: nat, entries: seq<string>)
    | File(size: nat, contents: Option<string>)
    | Special(size: nat, contents: Option<string>)   // a fifo, socket or device: exists, neither dir nor file

  type FileSystem = map<string, Node>

  /** `os.path.exists`. */
  predicate Exists(fs: FileSystem, path: string)
  {
    path in fs
  }

  /** `os.path.isdir`. */
  predicate IsDir(fs: FileSystem, path: string)
  {
    path in fs && fs[path].Dir?
  }

  /** `os.path.isfile`. */
  predicate IsFile(fs: FileSystem, path: string)
  {
    path in fs && fs[path].File?
  }

  /** `open(path).read()`: None stands for IOError, including opening a directory. */
  function Read(fs: FileSystem, path: string): (r: Option<string>)
    ensures r.Some? ==> path in fs && !fs[path].Dir?
  {
    if path !in fs then None
    else match fs[path]
      case Dir(_, _) => None
      case File(_, contents) => contents
      case Special(_, contents) => contents
  }
}
