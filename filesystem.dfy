/**
 * The filesystem the pipeline reads, as a snapshot: a map from resolved
 * paths to the entry found there. Symbolic links, devices and changes made
 * while the program runs are not represented.
 */
module FileSystem {
  import opened Wrappers
  import opened Paths

  newtype byte = b: int | 0 <= b < 256

  /**
   * What the program can learn about a regular file: its bytes (whose count
   * is `stat().st_size`), whether `open()` succeeds on it, and the message of
   * the exception `stat()` raises on it, if it raises one.
   */
  datatype FileInfo = FileInfo(content: seq<byte>, readable: bool, statError: Option<string>)

  datatype Node = File(info: FileInfo) | Dir

  type Tree = map<Path, Node>

  /** The root is a directory and every other entry sits in a directory that is itself in the tree. */
  predicate WellFormed(fs: Tree)
  {
    && [] in fs && fs[[]].Dir?
    && forall p :: p in fs && p != [] ==> Parent(p) in fs && fs[Parent(p)].Dir?
  }

  predicate IsFile(fs: Tree, p: Path)
  {
    p in fs && fs[p].File?
  }

  predicate IsDir(fs: Tree, p: Path)
  {
    p in fs && fs[p].Dir?
  }

  /** `c` is an entry directly inside `d`. */
  predicate IsChild(c: Path, d: Path)
  {
    |c| == |d| + 1 && c[..|d|] == d
  }

  /**
   * How an argument string becomes a path: `expandUser` stands for
   * `Path.expanduser()` and `resolve` for `Path.resolve()` (working
   * directory, `..` and symbolic links); both are left uninterpreted.
   */
  datatype Resolver = Resolver(expandUser: string -> string, resolve: string -> Path)

  /** `Path(s).expanduser().resolve()` */
  function ExpandAndResolve(r: Resolver, s: string): Path
  {
    r.resolve(r.expandUser(s))
  }
}
