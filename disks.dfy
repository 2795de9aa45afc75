/**
 * An abstract file system: regular files (their contents by path) and directories.
 * The operations are the few the mover uses, each as the POSIX call behind it:
 * `mkdir(parents=True, exist_ok=True)`, `shutil.move` of a regular file (a rename)
 * and `rmdir`. Whether the operating system refuses a move (permissions, a full
 * disk, a busy file) is an input, `fail`.
 */
module Disks {
  import opened Wrappers
  import opened Paths

  type Bytes = seq<bv8>

  datatype Disk = Disk(files: map<Path, Bytes>, dirs: set<Path>) {

    /** `Path.exists()`. */
    predicate Exists(p: Path) {
      p in files || p in dirs
    }

    /** What a real file system guarantees: nothing is both a file and a directory, and every proper prefix of an existing path is a directory. */
    ghost predicate Valid() {
      && files.Keys !! dirs
      && (forall p, k {:trigger p[..k], p in files} | p in files && 1 <= k < |p| :: p[..k] in dirs)
      && (forall p, k {:trigger p[..k], p in dirs} | p in dirs && 1 <= k < |p| :: p[..k] in dirs)
    }

    /** The parent of `p` is a directory (or `p` has no parent part). */
    predicate ParentExists(p: Path) {
      |p| <= 1 || Parent(p) in dirs
    }

    /** `p.mkdir(parents=True, exist_ok=True)`: creates `p` and its ancestors; refused when one of them is a regular file. */
    function MakeDirs(p: Path): Option<Disk> {
      if exists k | 1 <= k <= |p| :: p[..k] in files then None
      else Some(Disk(files, dirs + set k | 1 <= k <= |p| :: p[..k]))
    }

    /** `shutil.move(src, dst)` of a regular file onto a path that is not a directory (the rename replaces a file already at `dst`). */
    function Move(src: Path, dst: Path, fail: bool): (r: Option<Disk>)
      ensures r.Some? <==> !fail && src in files && dst !in dirs && ParentExists(dst)
      ensures r.Some? ==> r.value.dirs == dirs
      ensures r.Some? ==> r.value.files == (files - {src})[dst := files[src]]
    {
      if !fail && src in files && dst !in dirs && ParentExists(dst)
      then Some(Disk((files - {src})[dst := files[src]], dirs))
      else None
    }

    /** The directories directly inside `p`. */
    function ChildDirs(p: Path): set<Path> {
      set d | d in dirs && |d| == |p| + 1 && p < d
    }

    /** `any(p.iterdir())`: something (a file or a directory) lies directly inside `p`. */
    predicate HasEntries(p: Path) {
      ChildDirs(p) != {} || exists f | f in files :: |f| == |p| + 1 && p < f
    }

    /** `p.rmdir()`. */
    function RemoveDir(p: Path): Disk {
      Disk(files, dirs - {p})
    }
  }

  /**
   * What `mkdir(parents=True, exist_ok=True)` does: it succeeds exactly when
   * no prefix of `p` is a regular file, and then the directories are the old
   * ones plus every non-empty prefix of `p`; the files stay.
   */
  lemma MakeDirsEffect(d: Disk, p: Path)
    ensures d.MakeDirs(p).Some? <==> forall k :: 1 <= k <= |p| ==> p[..k] !in d.files
    ensures d.MakeDirs(p).Some? ==> d.MakeDirs(p).value.files == d.files
    ensures d.MakeDirs(p).Some? ==> forall k :: 1 <= k <= |p| ==> p[..k] in d.MakeDirs(p).value.dirs
    ensures d.MakeDirs(p).Some? ==>
              forall q :: q in d.MakeDirs(p).value.dirs <==> q in d.dirs || (1 <= |q| && q <= p)
  {
    if d.MakeDirs(p).Some? {
      forall q | 1 <= |q| && q <= p ensures q in d.MakeDirs(p).value.dirs {
        assert q == p[..|q|];
      }
    }
  }

  lemma MakeDirsValid(d: Disk, p: Path)
    requires d.Valid() && d.MakeDirs(p).Some?
    ensures d.MakeDirs(p).value.Valid()
  {
    MakeDirsEffect(d, p);
    var e := d.MakeDirs(p).value;
    forall q, k | q in e.dirs && 1 <= k < |q| ensures q[..k] in e.dirs {
      if q !in d.dirs {
        assert q <= p && q[..k] == p[..k];
      }
    }
  }

  lemma MoveValid(d: Disk, src: Path, dst: Path, fail: bool)
    requires d.Valid() && d.Move(src, dst, fail).Some?
    ensures d.Move(src, dst, fail).value.Valid()
  {
    var e := d.Move(src, dst, fail).value;
    forall k | 1 <= k < |dst| ensures dst[..k] in e.dirs {
      assert dst[..k] == Parent(dst)[..k];
    }
  }

  /** Removing a directory that has nothing inside it keeps the file system well formed. */
  lemma RemoveDirValid(d: Disk, p: Path)
    requires d.Valid() && !d.HasEntries(p)
    ensures d.RemoveDir(p).Valid()
  {
    var e := d.RemoveDir(p);
    forall q, k | q in e.files && 1 <= k < |q| ensures q[..k] in e.dirs {
      if k + 1 < |q| {
        var c := q[..k + 1];
        assert c in d.dirs && c[..k] == q[..k];
        assert q[..k] == p ==> c in d.ChildDirs(p);
      } else {
        assert q[..k] == p ==> |q| == |p| + 1 && p < q;
      }
    }
    forall q, k | q in e.dirs && 1 <= k < |q| ensures q[..k] in e.dirs {
      var c := q[..k + 1];
      assert c[..k] == q[..k];
      assert q[..k] == p ==> c in d.ChildDirs(p);
    }
  }

  /** The file system the mover works on: one mutable disk. */
  class FileSystem {
    var disk: Disk

    constructor (initial: Disk)
      ensures disk == initial
    {
      disk := initial;
    }

    method MakeDirs(p: Path) returns (ok: bool)
      modifies this
      ensures ok <==> old(disk).MakeDirs(p).Some?
      ensures disk == if ok then old(disk).MakeDirs(p).value else old(disk)
    {
      var r := disk.MakeDirs(p);
      ok := r.Some?;
      if ok {
        disk := r.value;
      }
    }

    method Move(src: Path, dst: Path, fail: bool) returns (ok: bool)
      modifies this
      ensures ok <==> old(disk).Move(src, dst, fail).Some?
      ensures disk == if ok then old(disk).Move(src, dst, fail).value else old(disk)
    {
      var r := disk.Move(src, dst, fail);
      ok := r.Some?;
      if ok {
        disk := r.value;
      }
    }

    method RemoveDir(p: Path)
      modifies this
      ensures disk == old(disk).RemoveDir(p)
    {
      disk := disk.RemoveDir(p);
    }
  }
}
