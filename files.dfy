/**
 * The part of the operating system the downloader touches: POSIX `os.path.join`, `os.path.exists`,
 * `os.makedirs` and writing a whole file. Paths are compared as strings, without normalisation.
 */
module Files {
  /** The directories that exist and the contents of the regular files. */
  datatype Disk = Disk(dirs: set<string>, files: map<string, seq<bv8>>)

  /** `os.path.exists`: a directory or a file of that name. */
  predicate Exists(d: Disk, path: string) {
    path in d.dirs || path in d.files
  }

  /** POSIX `os.path.join(a, b)`: an absolute `b` replaces `a`; otherwise one `/` separates them. */
  function Join(a: string, b: string): (r: string)
    ensures |b| > 0 && b[0] == '/' ==> r == b
    ensures !(|b| > 0 && b[0] == '/') ==> |r| >= |a| + |b| && r[..|a|] == a && r[|r| - |b|..] == b
    ensures !(|b| > 0 && b[0] == '/') && a != [] && a[|a| - 1] != '/' ==> r == a + "/" + b
  {
    if |b| > 0 && b[0] == '/' then b
    else if a == [] || a[|a| - 1] == '/' then a + b
    else a + "/" + b
  }

  /** The proper ancestors `os.makedirs` creates for `path`: every prefix that ends just before a `/`. */
  function Ancestors(path: string): set<string> {
    set i | 0 < i < |path| && path[i] == '/' :: path[..i]
  }

  /** `os.makedirs(path)`: the directory and all its ancestors exist afterwards; no file changes. */
  function MakeDirs(d: Disk, path: string): (r: Disk)
    ensures path in r.dirs && Ancestors(path) <= r.dirs
    ensures d.dirs <= r.dirs && r.files == d.files
    ensures forall p :: p in r.dirs && p !in d.dirs ==> p == path || p in Ancestors(path)
  {
    d.(dirs := d.dirs + Ancestors(path) + {path})
  }

  /** `if not os.path.exists(path): os.makedirs(path)`. */
  function EnsureDir(d: Disk, path: string): (r: Disk)
    ensures Exists(r, path)
    ensures Exists(d, path) ==> r == d
    ensures d.dirs <= r.dirs && r.files == d.files
  {
    if Exists(d, path) then d else MakeDirs(d, path)
  }

  /** Ensuring a directory twice is ensuring it once. */
  lemma EnsureDirIdempotent(d: Disk, path: string)
    ensures EnsureDir(EnsureDir(d, path), path) == EnsureDir(d, path)
  {
  }

  /** Writing a whole file: its content becomes `body`, and nothing else changes. */
  function WriteFile(d: Disk, path: string, body: seq<bv8>): (r: Disk)
    ensures path in r.files && r.files[path] == body
    ensures r.dirs == d.dirs
    ensures forall p :: p != path ==> (p in r.files <==> p in d.files) && (p in d.files ==> r.files[p] == d.files[p])
  {
    d.(files := d.files[path := body])
  }

  /** The disk as a mutable object, as the program sees the operating system. */
  class FileSystem {
    var disk: Disk

    constructor (d: Disk)
      ensures disk == d
    {
      disk := d;
    }

    /** `os.path.exists(path)` on the current disk. */
    function PathExists(path: string): (b: bool)
      reads this
      ensures b <==> path in disk.dirs || path in disk.files
    {
      Exists(disk, path)
    }

    method MakeDirectories(path: string)
      modifies this
      ensures disk == MakeDirs(old(disk), path)
    {
      disk := MakeDirs(disk, path);
    }

    method Write(path: string, body: seq<bv8>)
      modifies this
      ensures disk == WriteFile(old(disk), path, body)
    {
      disk := WriteFile(disk, path, body);
    }
  }
}
