/**
 * The file system as the installer sees it: directory trees given by the
 * files they hold, and the four sibling directories it works with
 * (the live integration directory and its `.backup`, `.staging` and `.old`
 * siblings), updated in place.
 */
module FileTree {
  import opened Wrappers
  import opened Text

  /** A path below some directory, as its sequence of names. */
  type Path = seq<string>

  /**
   * What a file holds, as `json.load` sees it: a JSON object (its string
   * fields), a JSON array (its string elements; no other element equals a
   * string), a JSON string, any other JSON scalar (number, boolean, null),
   * or text that does not decode.
   */
  datatype Content =
    | JsonObject(fields: map<string, string>)
    | JsonArray(strings: seq<string>)
    | JsonString(text: string)
    | JsonScalar
    | Other(data: string)

  /** A directory tree: its files by relative path; its directories are the proper prefixes of those paths. */
  type Tree = map<Path, Content>

  /** `(dir / p).exists()`: `p` is a file or a directory of `t`. */
  predicate PathExists(t: Tree, p: Path) {
    exists k :: k in t && p <= k
  }

  /** `(dir / p).is_dir()` */
  predicate IsDir(t: Tree, p: Path) {
    exists k :: k in t && p < k
  }

  /** `path.name`: the last name of a non-empty path. */
  function BaseName(p: Path): string
    requires p != []
  {
    p[|p| - 1]
  }

  /** `str(dir / p)` for a directory whose path string is `dir`. */
  function PathString(dir: string, p: Path): string {
    if p == [] then dir else dir + "/" + Join(p, '/')
  }

  /** The integration directory and its siblings. */
  datatype Dir = Live | Backup | Staging | Old

  /** The contents of the four directories; `None` for one that does not exist. */
  datatype Dirs = Dirs(live: Option<Tree>, backup: Option<Tree>, staging: Option<Tree>, oldDir: Option<Tree>)

  function Get(s: Dirs, d: Dir): Option<Tree> {
    match d
    case Live => s.live
    case Backup => s.backup
    case Staging => s.staging
    case Old => s.oldDir
  }

  /** `s` with directory `d` replaced by `t`. */
  function Set(s: Dirs, d: Dir, t: Option<Tree>): (r: Dirs)
    ensures Get(r, d) == t
    ensures forall e :: e != d ==> Get(r, e) == Get(s, e)
  {
    match d
    case Live => s.(live := t)
    case Backup => s.(backup := t)
    case Staging => s.(staging := t)
    case Old => s.(oldDir := t)
  }

  /** The four directories, updated in place. */
  class Disk {
    var dirs: Dirs

    constructor (live: Tree)
      ensures dirs == Dirs(Some(live), None, None, None)
    {
      dirs := Dirs(Some(live), None, None, None);
    }

    /** `shutil.rmtree(d)` */
    method RemoveTree(d: Dir)
      requires Get(dirs, d).Some?
      modifies this
      ensures dirs == Set(old(dirs), d, None)
    {
      dirs := Set(dirs, d, None);
    }

    /** `shutil.copytree(src, dst)`, which refuses an existing destination. */
    method CopyTree(src: Dir, dst: Dir)
      requires Get(dirs, src).Some? && Get(dirs, dst).None?
      modifies this
      ensures dirs == Set(old(dirs), dst, Get(old(dirs), src))
    {
      dirs := Set(dirs, dst, Get(dirs, src));
    }

    /** `src.rename(dst)` onto a path that does not exist. */
    method Rename(src: Dir, dst: Dir)
      requires Get(dirs, src).Some? && Get(dirs, dst).None?
      modifies this
      ensures dirs == Set(Set(old(dirs), src, None), dst, Get(old(dirs), src))
    {
      dirs := Set(Set(dirs, src, None), dst, Get(dirs, src));
    }

    /** Writes one file (creating its parent directories), as `shutil.copy2` and `write` do. */
    method WriteFile(d: Dir, p: Path, c: Content)
      requires Get(dirs, d).Some?
      modifies this
      ensures dirs == Set(old(dirs), d, Some(Get(old(dirs), d).value[p := c]))
    {
      dirs := Set(dirs, d, Some(Get(dirs, d).value[p := c]));
    }
  }
}
