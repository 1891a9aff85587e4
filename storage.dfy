/**
  The files the validator reads and writes. The disk is a map from path to
  file content plus the set of directories created; writing a file stores its
  content, and `os.makedirs(path, exist_ok=True)` fails only on the empty path.
 */
module Storage {
  import opened Wrappers
  import opened Tables
  import opened Drift

  /** A comma-separated table, or a YAML document holding a drift report. */
  datatype File = Csv(table: Table) | Yaml(report: Report)

  datatype Disk = Disk(files: map<string, File>, dirs: set<string>) {

    /** `os.makedirs(path, exist_ok=True)`: None when it raises. */
    function MakeDirs(path: string): (r: Option<Disk>)
      ensures r.Some? <==> path != []
      ensures r.Some? ==> r.value.files == files && path in r.value.dirs
    {
      if path == [] then None else Some(Disk(files, dirs + {path}))
    }

    /** Writing `f` to `path`, replacing any earlier content. */
    function Write(path: string, f: File): Disk {
      Disk(files[path := f], dirs)
    }
  }

  /** `p[:p.rfind('/') + 1]`: the prefix of `p` up to and including its last slash. */
  function UpToLastSlash(p: string): (h: string)
    ensures h <= p
    ensures h == [] <==> '/' !in p
    ensures h != [] ==> h[|h| - 1] == '/'
    decreases |p|
  {
    if p == [] then []
    else if p[|p| - 1] == '/' then p
    else
      assert p == p[..|p| - 1] + [p[|p| - 1]];
      UpToLastSlash(p[..|p| - 1])
  }

  /** `s.rstrip('/')`. */
  function StripTrailingSlashes(s: string): (r: string)
    ensures r <= s
    ensures (exists i :: 0 <= i < |s| && s[i] != '/') ==> r != []
    ensures r != [] ==> r[|r| - 1] != '/'
    decreases |s|
  {
    if s == [] then []
    else if s[|s| - 1] == '/' then
      assert forall i :: 0 <= i < |s| - 1 ==> s[..|s| - 1][i] == s[i];
      StripTrailingSlashes(s[..|s| - 1])
    else s
  }

  predicate AllSlashes(s: string) {
    forall i :: 0 <= i < |s| ==> s[i] == '/'
  }

  /**
    POSIX `os.path.dirname`: everything before the last slash, with trailing
    slashes removed unless the prefix consists of slashes only. It is a prefix
    of the path and is empty exactly when the path has no slash.
   */
  function DirName(p: string): (d: string)
    ensures d <= p
    ensures d == [] <==> '/' !in p
  {
    var head := UpToLastSlash(p);
    if head != [] && !AllSlashes(head) then StripTrailingSlashes(head) else head
  }

  /** The mutable file system the validator's I/O goes through. */
  class FileSystem {
    var files: map<string, File>
    var dirs: set<string>

    function Snapshot(): Disk
      reads this
    {
      Disk(files, dirs)
    }

    constructor (disk: Disk)
      ensures Snapshot() == disk
    {
      files, dirs := disk.files, disk.dirs;
    }

    method MakeDirs(path: string) returns (ok: bool)
      modifies this
      ensures ok <==> old(Snapshot()).MakeDirs(path).Some?
      ensures Snapshot() == if ok then old(Snapshot()).MakeDirs(path).value else old(Snapshot())
    {
      ok := path != [];
      if ok {
        dirs := dirs + {path};
      }
    }

    method Write(path: string, f: File)
      modifies this
      ensures Snapshot() == old(Snapshot()).Write(path, f)
    {
      files := files[path := f];
    }
  }
}
