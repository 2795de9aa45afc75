/**
 * `FileMover` (mover.py): where an analysed file goes, the move itself, the
 * undo of the last completed session and the clean-up of emptied folders.
 *
 * The file system is a `FileSystem` object holding a `Disk`; the undo log
 * is an `UndoLog` object. Whether the operating system refuses a particular
 * move is an input (`fail`, or a set of indices `fails`); the clock's
 * timestamps are inputs too.
 */
module Mover {
  import opened Wrappers
  import opened Text
  import opened Paths
  import opened Disks
  import opened Settings
  import opened Scanner
  import opened Categories
  import opened Analyzer
  import opened Ledger
  import opened UndoLogs

  // ---------------------------------------------------------------------------
  // Collision-free destinations (`_get_unique_path`)

  /** `f"{stem}_{counter}{suffix}"` for the file name `name`. */
  function NumberedName(name: string, counter: nat): string {
    Stem(name) + "_" + Decimal(counter) + Suffix(name)
  }

  /** `path.parent / NumberedName(path.name, counter)`. */
  function Candidate(path: Path, counter: nat): Path {
    Parent(path) + [NumberedName(Name(path), counter)]
  }

  /** Different counters give different candidates: the counter can be read back from the name. */
  lemma CandidateInjective(path: Path, m: nat, n: nat)
    ensures Candidate(path, m) == Candidate(path, n) ==> m == n
  {
    var name := Name(path);
    var front, back := Stem(name) + "_", Suffix(name);
    var a, b := NumberedName(name, m), NumberedName(name, n);
    assert a == Candidate(path, m)[|Parent(path)|] && b == Candidate(path, n)[|Parent(path)|];
    assert Decimal(m) == a[|front|..|a| - |back|];
    assert Decimal(n) == b[|front|..|b| - |back|];
    DecimalRoundTrip(m);
    DecimalRoundTrip(n);
  }

  /** Every path that `Path.exists()` reports. */
  function Occupied(disk: Disk): set<Path> {
    disk.files.Keys + disk.dirs
  }

  lemma {:induction false} SubsetCard<T>(a: set<T>, b: set<T>)
    requires a <= b
    ensures |a| <= |b|
  {
    if a != {} {
      var x :| x in a;
      SubsetCard(a - {x}, b - {x});
    }
  }

  lemma {:induction false} CandidatesCard(path: Path, k: nat)
    ensures |set j | 1 <= j <= k :: Candidate(path, j)| == k
  {
    if k > 0 {
      var s := set j | 1 <= j <= k :: Candidate(path, j);
      var s' := set j | 1 <= j <= k - 1 :: Candidate(path, j);
      CandidatesCard(path, k - 1);
      forall j | 1 <= j <= k - 1 ensures Candidate(path, j) != Candidate(path, k) {
        CandidateInjective(path, j, k);
      }
      assert Candidate(path, k) !in s';
      assert s == s' + {Candidate(path, k)};
    }
  }

  /** The disk holds finitely many paths, so only finitely many candidates can be taken. */
  lemma TakenCandidatesBound(disk: Disk, path: Path, k: nat)
    requires forall j :: 1 <= j <= k ==> disk.Exists(Candidate(path, j))
    ensures k <= |Occupied(disk)|
  {
    CandidatesCard(path, k);
    SubsetCard(set j | 1 <= j <= k :: Candidate(path, j), Occupied(disk));
  }

  /** The first counter, from `counter` on, whose candidate is free. */
  function FirstFree(disk: Disk, path: Path, counter: nat): (n: nat)
    requires 1 <= counter
    requires forall j :: 1 <= j < counter ==> disk.Exists(Candidate(path, j))
    ensures counter <= n
    decreases |Occupied(disk)| + 1 - counter
  {
    if !disk.Exists(Candidate(path, counter)) then counter
    else
      TakenCandidatesBound(disk, path, counter);
      FirstFree(disk, path, counter + 1)
  }

  /** The counter found is free, and every counter before it, from 1 on, is taken. */
  lemma {:induction false} FirstFreeSpec(disk: Disk, path: Path, counter: nat)
    requires 1 <= counter
    requires forall j :: 1 <= j < counter ==> disk.Exists(Candidate(path, j))
    ensures var n := FirstFree(disk, path, counter);
      && !disk.Exists(Candidate(path, n))
      && forall j :: 1 <= j < n ==> disk.Exists(Candidate(path, j))
    decreases |Occupied(disk)| + 1 - counter
  {
    if disk.Exists(Candidate(path, counter)) {
      TakenCandidatesBound(disk, path, counter);
      FirstFreeSpec(disk, path, counter + 1);
    }
  }

  /**
   * The path `_get_unique_path` settles on: `path` itself when it is free,
   * otherwise the candidate with the smallest counter that is free. Either
   * way it does not exist and it is in the same folder as `path`.
   */
  function UniquePath(disk: Disk, path: Path): Path {
    if !disk.Exists(path) then path else Candidate(path, FirstFree(disk, path, 1))
  }

  /** The path chosen does not exist, is `path` exactly when `path` is free, and is in the same folder as `path`. */
  lemma UniquePathFree(disk: Disk, path: Path)
    ensures var r := UniquePath(disk, path);
      && !disk.Exists(r)
      && (r == path <==> !disk.Exists(path))
      && Parent(r) == Parent(path)
  {
    if disk.Exists(path) {
      FirstFreeSpec(disk, path, 1);
    }
  }

  /** When `path` is taken, the path chosen is the candidate with the smallest free counter. */
  lemma UniquePathSmallest(disk: Disk, path: Path)
    requires disk.Exists(path)
    ensures exists n :: 1 <= n && UniquePath(disk, path) == Candidate(path, n)
                        && forall j :: 1 <= j < n ==> disk.Exists(Candidate(path, j))
  {
    var n := FirstFree(disk, path, 1);
    FirstFreeSpec(disk, path, 1);
    assert UniquePath(disk, path) == Candidate(path, n);
  }

  /** A numbered name has no separator if the name has none. */
  lemma NumberedNameWellFormed(name: string, counter: nat)
    requires '/' !in name
    ensures '/' !in NumberedName(name, counter)
  {
    var stem, digits, suffix := Stem(name), Decimal(counter), Suffix(name);
    assert stem <= name || SuffixStart(name).Some?;
    assert forall i :: 0 <= i < |stem| ==> stem[i] in name;
    assert forall i :: 0 <= i < |suffix| ==> suffix[i] in name;
    assert forall i :: 0 <= i < |digits| ==> digits[i] != '/';
  }

  lemma UniquePathWellFormed(disk: Disk, path: Path)
    requires WellFormed(path)
    ensures WellFormed(UniquePath(disk, path))
  {
    if disk.Exists(path) {
      NumberedNameWellFormed(Name(path), FirstFree(disk, path, 1));
    }
  }

  // ---------------------------------------------------------------------------
  // One move (`move_file`)

  /** `self.output_dir / result.category.path`. */
  function DestDir(outputDir: Path, result: AnalysisResult): Path {
    Under(outputDir, result.category.path)
  }

  /** `_get_unique_path(dest_dir / source.name)`, on the disk as it is before the move. */
  function Destination(disk: Disk, outputDir: Path, result: AnalysisResult): Path {
    UniquePath(disk, DestDir(outputDir, result) + [Name(result.fileInfo.path)])
  }

  /** The `MoveOperation` that `move_file` builds. */
  function Planned(disk: Disk, outputDir: Path, result: AnalysisResult, timestamp: string): MoveOperation {
    MoveOperation(ToText(result.fileInfo.path), ToText(Destination(disk, outputDir, result)),
                  result.category.name, result.reasoning, timestamp)
  }

  /** Where the destination lies: a free path directly inside the category folder, strictly inside the output folder. */
  lemma DestinationPlace(disk: Disk, outputDir: Path, result: AnalysisResult)
    ensures var dest := Destination(disk, outputDir, result);
      && !disk.Exists(dest)
      && Parent(dest) == DestDir(outputDir, result)
      && outputDir < dest
  {
    var dir := DestDir(outputDir, result);
    var dest := Destination(disk, outputDir, result);
    UniquePathFree(disk, dir + [Name(result.fileInfo.path)]);
    assert Parent(dir + [Name(result.fileInfo.path)]) == dir;
    assert dest == dir + [Name(dest)];
  }

  /** A disk after an attempted move, and whether the move happened. */
  datatype Outcome = Outcome(disk: Disk, moved: bool)

  /**
   * `dest_dir.mkdir(parents=True, exist_ok=True)` then `shutil.move(source,
   * dest)`; when the move is refused, the folders already made stay.
   */
  function Relocation(disk: Disk, source: Path, destDir: Path, dest: Path, fail: bool): Outcome {
    match disk.MakeDirs(destDir)
    case None => Outcome(disk, false)
    case Some(made) =>
      match made.Move(source, dest, fail)
      case None => Outcome(made, false)
      case Some(moved) => Outcome(moved, true)
  }

  /**
   * A relocation that happens takes the source's content to `dest`; one
   * that does not leaves every file in place; either way folders are only
   * added, and only on the way to `destDir`.
   */
  lemma RelocationEffect(disk: Disk, source: Path, destDir: Path, dest: Path, fail: bool)
    ensures var r := Relocation(disk, source, destDir, dest, fail);
      && (r.moved ==> source in disk.files && dest !in disk.dirs)
      && (r.moved ==> r.disk.files == (disk.files - {source})[dest := disk.files[source]])
      && (!r.moved ==> r.disk.files == disk.files)
      && disk.dirs <= r.disk.dirs
      && forall q :: q in r.disk.dirs ==> q in disk.dirs || q <= destDir
  {
    MakeDirsEffect(disk, destDir);
  }

  lemma RelocationValid(disk: Disk, source: Path, destDir: Path, dest: Path, fail: bool)
    requires disk.Valid()
    ensures Relocation(disk, source, destDir, dest, fail).disk.Valid()
  {
    if disk.MakeDirs(destDir).Some? {
      var made := disk.MakeDirs(destDir).value;
      MakeDirsValid(disk, destDir);
      if made.Move(source, dest, fail).Some? {
        MoveValid(made, source, dest, fail);
      }
    }
  }

  /** The planned move on the real disk, outside dry-run. */
  function Attempt(disk: Disk, outputDir: Path, result: AnalysisResult, fail: bool): Outcome {
    Relocation(disk, result.fileInfo.path, DestDir(outputDir, result), Destination(disk, outputDir, result), fail)
  }

  /** The disk after one call of `move_file`, and what the call returned. */
  datatype Step = Step(disk: Disk, op: Option<MoveOperation>)

  /**
   * One call of `move_file`: in dry-run the plan comes back and the disk
   * stays; otherwise the plan comes back exactly when the file was moved.
   */
  function MoveStep(disk: Disk, outputDir: Path, dryRun: bool, result: AnalysisResult, timestamp: string, fail: bool)
    : Step
  {
    if dryRun then Step(disk, Some(Planned(disk, outputDir, result, timestamp)))
    else
      var o := Attempt(disk, outputDir, result, fail);
      Step(o.disk, if o.moved then Some(Planned(disk, outputDir, result, timestamp)) else None)
  }

  /**
   * What one call of `move_file` does: the plan it returns is made on the
   * disk before the call; a real move takes the source's content to the
   * destination; a call that returns None leaves every file in place; and
   * folders are only added, on the way to the category folder.
   */
  lemma MoveStepEffect(disk: Disk, outputDir: Path, dryRun: bool, result: AnalysisResult, timestamp: string, fail: bool)
    ensures var r := MoveStep(disk, outputDir, dryRun, result, timestamp, fail);
      && (r.op.Some? ==> r.op.value == Planned(disk, outputDir, result, timestamp))
      && (dryRun ==> r.op.Some? && r.disk == disk)
      && (!dryRun && r.op.Some? ==>
            var source := result.fileInfo.path;
            && source in disk.files
            && r.disk.files == (disk.files - {source})[Destination(disk, outputDir, result) := disk.files[source]])
      && (r.op.None? ==> r.disk.files == disk.files)
      && disk.dirs <= r.disk.dirs
      && (forall q :: q in r.disk.dirs ==> q in disk.dirs || q <= DestDir(outputDir, result))
  {
    if !dryRun {
      RelocationEffect(disk, result.fileInfo.path, DestDir(outputDir, result), Destination(disk, outputDir, result), fail);
    }
  }

  lemma AppendAssoc<T>(a: seq<T>, b: seq<T>, c: seq<T>)
    ensures a + b + c == a + (b + c)
  {
  }

  /** The move an operation records, if it was made. */
  function Moved(op: Option<MoveOperation>): seq<MoveOperation> {
    if op.Some? then [op.value] else []
  }

  /**
   * Where `organize_files` stands: the disk, the list it returns so far, and
   * the operations performed so far (the entries of that list that are not
   * None, in order).
   */
  datatype Run = Run(disk: Disk, ops: seq<Option<MoveOperation>>, performed: seq<MoveOperation>)

  /**
   * `organize_files` after its first `n` calls of `move_file`, each on the
   * disk the previous call left; `clock[i]` is the time of the i-th call and
   * `i` is in `fails` when the operating system refuses its move.
   */
  function Organize(disk: Disk, outputDir: Path, dryRun: bool, results: seq<AnalysisResult>, clock: seq<string>,
                    fails: set<nat>, n: nat): (r: Run)
    requires |clock| == |results| && n <= |results|
    ensures |r.ops| == n && |r.performed| <= n
  {
    if n == 0 then Run(disk, [], [])
    else
      var before := Organize(disk, outputDir, dryRun, results, clock, fails, n - 1);
      var step := MoveStep(before.disk, outputDir, dryRun, results[n - 1], clock[n - 1], n - 1 in fails);
      Run(step.disk, before.ops + [step.op], before.performed + Moved(step.op))
  }

  /** A dry run leaves the disk as it was, and every plan is made on that same disk. */
  lemma {:induction false} OrganizeDryRun(disk: Disk, outputDir: Path, results: seq<AnalysisResult>, clock: seq<string>,
                                          fails: set<nat>, n: nat)
    requires |clock| == |results| && n <= |results|
    ensures var run := Organize(disk, outputDir, true, results, clock, fails, n);
      && run.disk == disk
      && forall i :: 0 <= i < n ==> run.ops[i] == Some(Planned(disk, outputDir, results[i], clock[i]))
  {
    if n > 0 {
      OrganizeDryRun(disk, outputDir, results, clock, fails, n - 1);
    }
  }

  /**
   * In a dry run two files with the same name bound for the same category
   * folder are given the same destination, since neither plan sees the
   * other; a real run gives the second file a numbered name instead.
   */
  lemma DryRunSharedDestination(disk: Disk, outputDir: Path, results: seq<AnalysisResult>, clock: seq<string>,
                                fails: set<nat>, i: nat, j: nat)
    requires |clock| == |results| && i < j < |results|
    requires Name(results[i].fileInfo.path) == Name(results[j].fileInfo.path)
    requires results[i].category.path == results[j].category.path
    ensures var run := Organize(disk, outputDir, true, results, clock, fails, |results|);
      && run.ops[i].Some? && run.ops[j].Some?
      && run.ops[i].value.destination == run.ops[j].value.destination
  {
    OrganizeDryRun(disk, outputDir, results, clock, fails, |results|);
  }

  /** Every disk a run passes through is consistent, and it keeps every folder it started with. */
  lemma {:induction false} OrganizeValid(disk: Disk, outputDir: Path, dryRun: bool, results: seq<AnalysisResult>,
                                         clock: seq<string>, fails: set<nat>, n: nat)
    requires |clock| == |results| && n <= |results| && disk.Valid()
    ensures Organize(disk, outputDir, dryRun, results, clock, fails, n).disk.Valid()
    ensures disk.dirs <= Organize(disk, outputDir, dryRun, results, clock, fails, n).disk.dirs
  {
    if n > 0 {
      OrganizeValid(disk, outputDir, dryRun, results, clock, fails, n - 1);
      var before := Organize(disk, outputDir, dryRun, results, clock, fails, n - 1);
      MoveStepEffect(before.disk, outputDir, dryRun, results[n - 1], clock[n - 1], n - 1 in fails);
      if !dryRun {
        RelocationValid(before.disk, results[n - 1].fileInfo.path, DestDir(outputDir, results[n - 1]),
                        Destination(before.disk, outputDir, results[n - 1]), n - 1 in fails);
      }
    }
  }

  // ---------------------------------------------------------------------------
  // Undo (`undo_last_session`) and clean-up (`_cleanup_empty_dirs`)

  /** Where the undo loop stands: the disk, the `(dest, source)` pairs moved back, the errors. */
  datatype Undone = Undone(disk: Disk, moves: seq<(string, string)>, errors: seq<string>)

  /**
   * One turn of the undo loop for `op`: a destination that is gone is an
   * error; otherwise the source's folder is made and the file moved back,
   * and a refusal of either is an error. `fail` is whether the operating
   * system refuses the move back.
   */
  function UndoStep(u: Undone, op: MoveOperation, fail: bool): (r: Undone)
    ensures || (r.moves == u.moves + [(op.destination, op.source)] && r.errors == u.errors)
            || (r.moves == u.moves && |r.errors| == |u.errors| + 1)
    ensures r.disk.files == u.disk.files || r.moves != u.moves
  {
    var source := FromText(op.source);
    var dest := FromText(op.destination);
    PathRoundTrip(op.source);
    PathRoundTrip(op.destination);
    if u.disk.Exists(dest) then
      match u.disk.MakeDirs(Parent(source))
      case None => Undone(u.disk, u.moves, u.errors + ["Failed to restore " + Name(dest)])
      case Some(made) =>
        match made.Move(dest, source, fail)
        case None => Undone(made, u.moves, u.errors + ["Failed to restore " + Name(dest)])
        case Some(moved) => Undone(moved, u.moves + [(ToText(dest), ToText(source))], u.errors)
    else Undone(u.disk, u.moves, u.errors + ["File not found: " + ToText(dest)])
  }

  lemma UndoStepValid(u: Undone, op: MoveOperation, fail: bool)
    requires u.disk.Valid()
    ensures UndoStep(u, op, fail).disk.Valid()
  {
    var source := FromText(op.source);
    var dest := FromText(op.destination);
    if u.disk.Exists(dest) && u.disk.MakeDirs(Parent(source)).Some? {
      var made := u.disk.MakeDirs(Parent(source)).value;
      MakeDirsValid(u.disk, Parent(source));
      if made.Move(dest, source, fail).Some? {
        MoveValid(made, dest, source, fail);
      }
    }
  }

  /**
   * The whole undo loop: the operations are undone last first, and the move
   * back of `ops[i]` is refused exactly when `i` is in `fails`. Every
   * operation ends up either moved back, as the pair (destination, source),
   * or as one error.
   */
  function UndoAll(u: Undone, ops: seq<MoveOperation>, fails: set<nat>): Undone
    decreases |ops|
  {
    if ops == [] then u
    else
      var last := |ops| - 1;
      UndoAll(UndoStep(u, ops[last], last in fails), ops[..last], fails)
  }

  /**
   * Every operation ends up either moved back, as the pair (destination,
   * source) of one of the operations, or as one error; nothing reported
   * before is lost.
   */
  lemma UndoAllAccounts(u: Undone, ops: seq<MoveOperation>, fails: set<nat>)
    ensures var r := UndoAll(u, ops, fails);
      && |r.moves| + |r.errors| == |u.moves| + |u.errors| + |ops|
      && u.moves <= r.moves && u.errors <= r.errors
      && forall k :: |u.moves| <= k < |r.moves| ==>
           exists i :: 0 <= i < |ops| && r.moves[k] == (ops[i].destination, ops[i].source)
  {
    UndoAllCounts(u, ops, fails);
    UndoAllMoves(u, ops, fails);
    var r := UndoAll(u, ops, fails);
    forall k | |u.moves| <= k < |r.moves|
      ensures exists i :: 0 <= i < |ops| && r.moves[k] == (ops[i].destination, ops[i].source)
    {
      var op :| op in ops && r.moves[k] == (op.destination, op.source);
      var i :| 0 <= i < |ops| && ops[i] == op;
    }
  }

  /** The counting half of `UndoAllAccounts`. */
  lemma {:induction false} UndoAllCounts(u: Undone, ops: seq<MoveOperation>, fails: set<nat>)
    ensures var r := UndoAll(u, ops, fails);
      && |r.moves| + |r.errors| == |u.moves| + |u.errors| + |ops|
      && u.moves <= r.moves && u.errors <= r.errors
    decreases |ops|
  {
    if ops != [] {
      var last := |ops| - 1;
      UndoAllCounts(UndoStep(u, ops[last], last in fails), ops[..last], fails);
    }
  }

  /** The (destination, source) pairs of a list of operations. */
  function PairsOf(ops: seq<MoveOperation>): set<(string, string)> {
    set op | op in ops :: (op.destination, op.source)
  }

  /** The moves half of `UndoAllAccounts`. */
  lemma {:induction false} UndoAllMoves(u: Undone, ops: seq<MoveOperation>, fails: set<nat>)
    ensures var r := UndoAll(u, ops, fails);
      forall k :: |u.moves| <= k < |r.moves| ==> r.moves[k] in PairsOf(ops)
    decreases |ops|
  {
    if ops != [] {
      var last := |ops| - 1;
      var v := UndoStep(u, ops[last], last in fails);
      var r := UndoAll(v, ops[..last], fails);
      UndoAllMoves(v, ops[..last], fails);
      UndoAllCounts(v, ops[..last], fails);
      assert ops[last] in ops;
      forall op | op in ops[..last] ensures op in ops {
      }
      assert PairsOf(ops[..last]) <= PairsOf(ops);
    }
  }

  lemma UndoAllValid(u: Undone, ops: seq<MoveOperation>, fails: set<nat>)
    requires u.disk.Valid()
    ensures UndoAll(u, ops, fails).disk.Valid()
    decreases |ops|
  {
    if ops != [] {
      var last := |ops| - 1;
      UndoStepValid(u, ops[last], last in fails);
      UndoAllValid(UndoStep(u, ops[last], last in fails), ops[..last], fails);
    }
  }

  /** The folders strictly inside `p`. */
  function Below(disk: Disk, p: Path): set<Path> {
    set d | d in disk.dirs && p < d
  }

  /** Recursing into a child folder, on a disk that has only lost folders, leaves fewer folders below. */
  lemma BelowShrinks(start: Disk, now: Disk, p: Path, child: Path)
    requires now.dirs <= start.dirs && child in start.dirs && p < child
    ensures |Below(now, child)| < |Below(start, p)|
  {
    SubsetCard(Below(now, child), Below(start, p) - {child});
  }

  /** A folder keeps an entry when files stay and no folder directly inside it goes. */
  lemma HasEntriesKept(before: Disk, after: Disk, p: Path)
    requires before.HasEntries(p)
    requires after.files == before.files && after.dirs <= before.dirs
    requires forall x :: x in before.dirs && x !in after.dirs ==> !(|x| == |p| + 1 && p < x)
    ensures after.HasEntries(p)
  {
    if before.ChildDirs(p) != {} {
      var x :| x in before.ChildDirs(p);
      assert x in after.ChildDirs(p);
    }
  }

  /** After the clean-up of `child`, the loop invariants of `_cleanup_empty_dirs` hold again without `child`. */
  lemma CleanupStep(start: Disk, before: Disk, after: Disk, directory: Path, child: Path, pending: set<Path>,
                    outputDir: Path)
    requires |child| == |directory| + 1 && directory < child && child in pending
    requires before.files == start.files && before.dirs <= start.dirs && directory in before.dirs
    requires forall d :: d in start.dirs && d !in before.dirs ==>
               directory < d && d != outputDir && d[..|directory| + 1] !in pending
    requires forall d :: d in before.dirs && directory < d && d != outputDir && d[..|directory| + 1] !in pending ==>
               before.HasEntries(d)
    requires after.files == before.files && after.dirs <= before.dirs
    requires forall d :: d in before.dirs && d !in after.dirs ==> child <= d && d != outputDir
    requires forall d :: d in after.dirs && child <= d && d != outputDir ==> after.HasEntries(d)
    ensures after.files == start.files && after.dirs <= start.dirs && directory in after.dirs
    ensures forall d :: d in start.dirs && d !in after.dirs ==>
              directory < d && d != outputDir && d[..|directory| + 1] !in pending - {child}
    ensures forall d :: d in after.dirs && directory < d && d != outputDir && d[..|directory| + 1] !in pending - {child} ==>
              after.HasEntries(d)
  {
    var children := pending - {child};
    forall d | d in start.dirs && d !in after.dirs
      ensures directory < d && d != outputDir && d[..|directory| + 1] !in children
    {
      if d !in before.dirs {
      } else {
        assert child <= d && d[..|directory| + 1] == child;
      }
    }
    forall d | d in after.dirs && directory < d && d != outputDir && d[..|directory| + 1] !in children
      ensures after.HasEntries(d)
    {
      if d[..|directory| + 1] == child {
        assert child <= d;
      } else {
        forall x | x in before.dirs && x !in after.dirs ensures !(|x| == |d| + 1 && d < x) {
          assert x[..|directory| + 1] == child;
        }
        HasEntriesKept(before, after, d);
      }
    }
  }

  /** The last step of `_cleanup_empty_dirs`: `directory` itself goes if it is empty and not the output folder. */
  lemma CleanupFinish(start: Disk, swept: Disk, final: Disk, directory: Path, outputDir: Path)
    requires swept.files == start.files && swept.dirs <= start.dirs && directory in swept.dirs
    requires forall d :: d in start.dirs && d !in swept.dirs ==> directory < d && d != outputDir
    requires forall d :: d in swept.dirs && directory < d && d != outputDir ==> swept.HasEntries(d)
    requires final == if !swept.HasEntries(directory) && directory != outputDir then swept.RemoveDir(directory) else swept
    ensures final.files == start.files && final.dirs <= start.dirs
    ensures forall d :: d in start.dirs && d !in final.dirs ==> directory <= d && d != outputDir
    ensures forall d :: d in final.dirs && directory <= d && d != outputDir ==> final.HasEntries(d)
  {
    forall d | d in start.dirs && d !in final.dirs
      ensures directory <= d && d != outputDir
    {
      if d in swept.dirs {
        assert d == directory;
      }
    }
    forall d | d in final.dirs && directory <= d && d != outputDir
      ensures final.HasEntries(d)
    {
      if d == directory {
        assert final == swept;
      } else {
        HasEntriesKept(swept, final, d);
      }
    }
  }

  /** On a valid disk, the first step of every folder below `p` is a folder directly inside `p`. */
  lemma PrefixChild(disk: Disk, p: Path, d: Path)
    requires disk.Valid() && d in disk.dirs && p < d
    ensures d[..|p| + 1] in disk.ChildDirs(p)
  {
    if |p| + 1 < |d| {
      assert d[..|p| + 1] in disk.dirs;
    } else {
      assert d[..|p| + 1] == d;
    }
  }

  /** On a valid disk, nothing lies below a folder that does not exist. */
  lemma NothingBelowMissing(disk: Disk, p: Path)
    requires disk.Valid() && |p| >= 1 && p !in disk.dirs
    ensures forall d :: d in disk.dirs ==> !(p <= d)
  {
    forall d | d in disk.dirs && |p| <= |d| ensures d[..|p|] != p {
      if |p| < |d| {
        assert d[..|p|] in disk.dirs;
      } else {
        assert d[..|p|] == d;
      }
    }
  }

  // ---------------------------------------------------------------------------
  // Undoing a run puts every file back

  /** The moves back that undoing `ops` makes when none fails: last first, as (destination, source). */
  function Backs(ops: seq<MoveOperation>): seq<(string, string)> {
    if ops == [] then []
    else
      var n := |ops| - 1;
      [(ops[n].destination, ops[n].source)] + Backs(ops[..n])
  }

  /** `Backs` lists one pair per operation, the last operation's first. */
  lemma {:induction false} BacksOrder(ops: seq<MoveOperation>)
    ensures |Backs(ops)| == |ops|
    ensures forall k :: 0 <= k < |ops| ==> Backs(ops)[k] == (ops[|ops| - 1 - k].destination, ops[|ops| - 1 - k].source)
  {
    if ops != [] {
      var n := |ops| - 1;
      BacksOrder(ops[..n]);
    }
  }

  /** The output folder and every source are well-formed paths (no empty part, no part holding '/'). */
  predicate WellFormedRun(outputDir: Path, results: seq<AnalysisResult>) {
    && WellFormed(outputDir)
    && forall i :: 0 <= i < |results| ==> WellFormed(results[i].fileInfo.path)
  }

  /**
   * The files `scan_directory` hands over: distinct paths, each a file on the
   * disk before the run. Sources may lie inside the output folder, as they do
   * on a second run over the same folder.
   */
  predicate Scanned(disk: Disk, outputDir: Path, results: seq<AnalysisResult>) {
    && WellFormedRun(outputDir, results)
    && (forall i :: 0 <= i < |results| ==> results[i].fileInfo.path in disk.files)
    && forall i, j :: 0 <= i < j < |results| ==> results[i].fileInfo.path != results[j].fileInfo.path
  }

  /** No source is the folder of a destination or one of its ancestors, so no step turns a source path into a folder. */
  predicate NoSourceBecomesFolder(outputDir: Path, results: seq<AnalysisResult>) {
    forall i, k :: 0 <= i < |results| && 0 <= k < |results| ==>
      !(results[i].fileInfo.path <= DestDir(outputDir, results[k]))
  }

  /** Two prefixes of one path are prefixes of one another. */
  lemma PrefixesComparable(a: Path, b: Path, c: Path)
    requires a <= c && b <= c
    ensures a <= b || b <= a
  {
    if |a| <= |b| {
      assert b[..|a|] == c[..|a|];
    } else {
      assert a[..|b|] == c[..|b|];
    }
  }

  /** The destination is a well-formed path when the source and the output folder are. */
  lemma DestinationWellFormed(disk: Disk, outputDir: Path, result: AnalysisResult)
    requires WellFormed(outputDir) && WellFormed(result.fileInfo.path)
    ensures WellFormed(Destination(disk, outputDir, result))
  {
    var source := result.fileInfo.path;
    var parts := Split(result.category.path, '/');
    var path := DestDir(outputDir, result) + [Name(source)];
    assert path == outputDir + parts + [source[|source| - 1]];
    forall k | 0 <= k < |path| ensures '/' !in path[k] {
      if k < |outputDir| {
        assert path[k] == outputDir[k];
      } else if k < |outputDir| + |parts| {
        assert path[k] == parts[k - |outputDir|];
      }
    }
    UniquePathWellFormed(disk, path);
  }

  /** The folders a real run makes are prefixes of the output folder or lie inside it. */
  lemma {:induction false} OrganizeDirs(disk: Disk, outputDir: Path, results: seq<AnalysisResult>, clock: seq<string>,
                                        fails: set<nat>, n: nat)
    requires |clock| == |results| && n <= |results|
    ensures var run := Organize(disk, outputDir, false, results, clock, fails, n);
      && disk.dirs <= run.disk.dirs
      && (forall q :: q in run.disk.dirs ==> q in disk.dirs || q <= outputDir || outputDir <= q)
      && forall q :: q in run.disk.dirs && q !in disk.dirs ==>
           exists k :: 0 <= k < n && q <= DestDir(outputDir, results[k])
    decreases n
  {
    if n > 0 {
      OrganizeDirs(disk, outputDir, results, clock, fails, n - 1);
      var before := Organize(disk, outputDir, false, results, clock, fails, n - 1);
      var step := MoveStep(before.disk, outputDir, false, results[n - 1], clock[n - 1], n - 1 in fails);
      MoveStepEffect(before.disk, outputDir, false, results[n - 1], clock[n - 1], n - 1 in fails);
      var dir := DestDir(outputDir, results[n - 1]);
      forall q | q in step.disk.dirs && q !in before.disk.dirs
        ensures q <= outputDir || outputDir <= q
      {
        PrefixesComparable(q, outputDir, dir);
      }
    }
  }

  /** One real step leaves in place a file that is not its source and not inside the output folder. */
  lemma StepKeeps(before: Disk, outputDir: Path, result: AnalysisResult, timestamp: string, fail: bool, p: Path)
    requires p in before.files && p != result.fileInfo.path && !(outputDir < p)
    ensures var step := MoveStep(before, outputDir, false, result, timestamp, fail);
      p in step.disk.files && step.disk.files[p] == before.files[p]
  {
    MoveStepEffect(before, outputDir, false, result, timestamp, fail);
    DestinationPlace(before, outputDir, result);
  }

  /** A real run leaves in place every file that is not a source and not inside the output folder. */
  lemma {:induction false} Untouched(disk: Disk, outputDir: Path, results: seq<AnalysisResult>, clock: seq<string>,
                                     fails: set<nat>, n: nat, p: Path)
    requires |clock| == |results| && n <= |results|
    requires p in disk.files && !(outputDir < p)
    requires forall i :: 0 <= i < n ==> results[i].fileInfo.path != p
    ensures var run := Organize(disk, outputDir, false, results, clock, fails, n);
      p in run.disk.files && run.disk.files[p] == disk.files[p]
  {
    if n > 0 {
      Untouched(disk, outputDir, results, clock, fails, n - 1, p);
      var before := Organize(disk, outputDir, false, results, clock, fails, n - 1);
      StepKeeps(before.disk, outputDir, results[n - 1], clock[n - 1], n - 1 in fails, p);
    }
  }

  /** One real step keeps every file except its own source (the content may be replaced). */
  lemma StepKeepsPath(before: Disk, outputDir: Path, result: AnalysisResult, timestamp: string, fail: bool, p: Path)
    requires p in before.files && p != result.fileInfo.path
    ensures p in MoveStep(before, outputDir, false, result, timestamp, fail).disk.files
  {
    MoveStepEffect(before, outputDir, false, result, timestamp, fail);
  }

  /** A file present after step `m` of a real run is still there after step `n` when no step in between has it as its source. */
  lemma {:induction false} KeptThrough(disk: Disk, outputDir: Path, results: seq<AnalysisResult>, clock: seq<string>,
                                       fails: set<nat>, m: nat, n: nat, p: Path)
    requires |clock| == |results| && m <= n <= |results|
    requires p in Organize(disk, outputDir, false, results, clock, fails, m).disk.files
    requires forall k :: m <= k < n ==> results[k].fileInfo.path != p
    ensures p in Organize(disk, outputDir, false, results, clock, fails, n).disk.files
    decreases n - m
  {
    if m < n {
      var next := Organize(disk, outputDir, false, results, clock, fails, m + 1);
      var before := Organize(disk, outputDir, false, results, clock, fails, m);
      StepKeepsPath(before.disk, outputDir, results[m], clock[m], m in fails, p);
      assert next.disk == MoveStep(before.disk, outputDir, false, results[m], clock[m], m in fails).disk;
      KeptThrough(disk, outputDir, results, clock, fails, m + 1, n, p);
    }
  }

  /** The entry a run returns for the `i`-th file is fixed once that file's step is made. */
  lemma {:induction false} OpsStable(disk: Disk, outputDir: Path, dryRun: bool, results: seq<AnalysisResult>,
                                     clock: seq<string>, fails: set<nat>, i: nat, n: nat)
    requires |clock| == |results| && i < n <= |results|
    ensures Organize(disk, outputDir, dryRun, results, clock, fails, n).ops[i]
            == Organize(disk, outputDir, dryRun, results, clock, fails, i + 1).ops[i]
    decreases n
  {
    if i + 1 < n {
      OpsStable(disk, outputDir, dryRun, results, clock, fails, i, n - 1);
      OpsKept(disk, outputDir, dryRun, results, clock, fails, i, n);
    }
  }

  /** An entry present before the `n`-th call is the same after it. */
  lemma OpsKept(disk: Disk, outputDir: Path, dryRun: bool, results: seq<AnalysisResult>,
                clock: seq<string>, fails: set<nat>, i: nat, n: nat)
    requires |clock| == |results| && i + 1 < n <= |results|
    ensures Organize(disk, outputDir, dryRun, results, clock, fails, n).ops[i]
            == Organize(disk, outputDir, dryRun, results, clock, fails, n - 1).ops[i]
  {
    OpsGrow(disk, outputDir, dryRun, results, clock, fails, n);
    var ops := Organize(disk, outputDir, dryRun, results, clock, fails, n).ops;
    assert ops[i] == ops[..n - 1][i];
  }

  /** A call only appends its entry to the run's list. */
  lemma OpsGrow(disk: Disk, outputDir: Path, dryRun: bool, results: seq<AnalysisResult>,
                clock: seq<string>, fails: set<nat>, n: nat)
    requires |clock| == |results| && 0 < n <= |results|
    ensures Organize(disk, outputDir, dryRun, results, clock, fails, n).ops[..n - 1]
            == Organize(disk, outputDir, dryRun, results, clock, fails, n - 1).ops
  {
    var before := Organize(disk, outputDir, dryRun, results, clock, fails, n - 1);
    var step := MoveStep(before.disk, outputDir, dryRun, results[n - 1], clock[n - 1], n - 1 in fails);
    assert Organize(disk, outputDir, dryRun, results, clock, fails, n).ops == before.ops + [step.op];
  }

  /** Distinct well-formed paths have distinct texts. */
  lemma DistinctTexts(p: Path, q: Path)
    requires WellFormed(p) && WellFormed(q) && p != q
    ensures ToText(p) != ToText(q)
  {
    TextRoundTrip(p);
    TextRoundTrip(q);
  }

  /**
   * When the `k`-th call of a real run returns an operation, its destination
   * `d` was free on the disk before that call, lies inside the output folder
   * and holds the file after the call.
   */
  lemma MovedAt(disk: Disk, outputDir: Path, results: seq<AnalysisResult>, clock: seq<string>, fails: set<nat>,
                k: nat, n: nat) returns (d: Path)
    requires |clock| == |results| && WellFormedRun(outputDir, results) && k < n <= |results|
    requires Organize(disk, outputDir, false, results, clock, fails, n).ops[k].Some?
    ensures Organize(disk, outputDir, false, results, clock, fails, n).ops[k].value.destination == ToText(d)
    ensures WellFormed(d) && outputDir < d
    ensures !Organize(disk, outputDir, false, results, clock, fails, k).disk.Exists(d)
    ensures d in Organize(disk, outputDir, false, results, clock, fails, k + 1).disk.files
  {
    OpsStable(disk, outputDir, false, results, clock, fails, k, n);
    var at := Organize(disk, outputDir, false, results, clock, fails, k);
    var step := MoveStep(at.disk, outputDir, false, results[k], clock[k], k in fails);
    assert Organize(disk, outputDir, false, results, clock, fails, k + 1)
           == Run(step.disk, at.ops + [step.op], at.performed + Moved(step.op));
    MoveStepEffect(at.disk, outputDir, false, results[k], clock[k], k in fails);
    d := Destination(at.disk, outputDir, results[k]);
    DestinationPlace(at.disk, outputDir, results[k]);
    DestinationWellFormed(at.disk, outputDir, results[k]);
  }

  /**
   * A real run never moves two files to the same destination: a file moved
   * earlier still occupies its destination, which every later choice of
   * destination avoids.
   */
  lemma RealRunDistinctDestinations(disk: Disk, outputDir: Path, results: seq<AnalysisResult>, clock: seq<string>,
                                    fails: set<nat>, i: nat, j: nat)
    requires |clock| == |results| && Scanned(disk, outputDir, results) && i < j < |results|
    ensures var run := Organize(disk, outputDir, false, results, clock, fails, |results|);
      run.ops[i].Some? && run.ops[j].Some? ==> run.ops[i].value.destination != run.ops[j].value.destination
  {
    var run := Organize(disk, outputDir, false, results, clock, fails, |results|);
    if run.ops[i].Some? && run.ops[j].Some? {
      var di := StillThere(disk, outputDir, results, clock, fails, i, j);
      var dj := MovedAt(disk, outputDir, results, clock, fails, j, |results|);
      DistinctTexts(di, dj);
    }
  }

  /** The destination `d` of the `i`-th call still holds its file when the run reaches the `j`-th call. */
  lemma StillThere(disk: Disk, outputDir: Path, results: seq<AnalysisResult>, clock: seq<string>,
                   fails: set<nat>, i: nat, j: nat) returns (d: Path)
    requires |clock| == |results| && Scanned(disk, outputDir, results) && i < j < |results|
    requires Organize(disk, outputDir, false, results, clock, fails, |results|).ops[i].Some?
    ensures Organize(disk, outputDir, false, results, clock, fails, |results|).ops[i].value.destination == ToText(d)
    ensures WellFormed(d) && d in Organize(disk, outputDir, false, results, clock, fails, j).disk.files
  {
    d := MovedAt(disk, outputDir, results, clock, fails, i, |results|);
    KeptAfterMove(disk, outputDir, results, clock, fails, i, j, d);
  }

  /** A file moved to a path that was free before the `i`-th call is not the source of any later call, so it stays. */
  lemma KeptAfterMove(disk: Disk, outputDir: Path, results: seq<AnalysisResult>, clock: seq<string>,
                      fails: set<nat>, i: nat, j: nat, d: Path)
    requires |clock| == |results| && Scanned(disk, outputDir, results) && i < j <= |results|
    requires !Organize(disk, outputDir, false, results, clock, fails, i).disk.Exists(d)
    requires d in Organize(disk, outputDir, false, results, clock, fails, i + 1).disk.files
    ensures d in Organize(disk, outputDir, false, results, clock, fails, j).disk.files
  {
    SourcesPresent(disk, outputDir, results, clock, fails, i);
    NoLaterSource(Organize(disk, outputDir, false, results, clock, fails, i).disk.files, results, i, j, d);
    KeptThrough(disk, outputDir, results, clock, fails, i + 1, j, d);
  }

  /** A path missing from `files` is none of the sources from the `i`-th on that are in `files`. */
  lemma NoLaterSource(files: map<Path, Bytes>, results: seq<AnalysisResult>, i: nat, j: nat, d: Path)
    requires i < j <= |results| && d !in files
    requires forall k :: i <= k < |results| ==> results[k].fileInfo.path in files
    ensures forall k :: i + 1 <= k < j ==> results[k].fileInfo.path != d
  {
  }

  /** Every source handed over by the scan is still a file when the run reaches its step. */
  lemma SourcesPresent(disk: Disk, outputDir: Path, results: seq<AnalysisResult>, clock: seq<string>,
                       fails: set<nat>, n: nat)
    requires |clock| == |results| && Scanned(disk, outputDir, results) && n <= |results|
    ensures forall k :: n <= k < |results| ==>
              results[k].fileInfo.path in Organize(disk, outputDir, false, results, clock, fails, n).disk.files
  {
    forall k | n <= k < |results|
      ensures results[k].fileInfo.path in Organize(disk, outputDir, false, results, clock, fails, n).disk.files
    {
      KeptThrough(disk, outputDir, results, clock, fails, 0, n, results[k].fileInfo.path);
    }
  }

  /**
   * On the disk a real move of `source` to the free path `dest` leaves,
   * with folders that include those of the disk before, the move back
   * finds `dest`, needs no new folder, and restores the files.
   */
  lemma MoveBack(before: Disk, source: Path, dest: Path, dirs: set<Path>)
    requires before.Valid() && source in before.files && !before.Exists(dest)
    requires before.dirs <= dirs && source !in dirs
    ensures var after := Disk((before.files - {source})[dest := before.files[source]], dirs);
      && after.Exists(dest)
      && after.MakeDirs(Parent(source)) == Some(after)
      && after.Move(dest, source, false) == Some(Disk(before.files, dirs))
  {
    var after := Disk((before.files - {source})[dest := before.files[source]], dirs);
    var parent := Parent(source);
    MakeDirsEffect(after, parent);
    forall k | 1 <= k <= |parent| ensures parent[..k] !in after.files {
      assert parent[..k] == source[..k] && parent[..k] in before.dirs;
    }
    var made := after.MakeDirs(parent).value;
    forall q | q in made.dirs ensures q in dirs {
      if 1 <= |q| && q <= parent {
        assert q == source[..|q|];
      }
    }
    assert made == after;
    assert |source| > 1 ==> parent in before.dirs;
    var back := after.Move(dest, source, false).value;
    assert back.files == before.files;
  }

  /**
   * Undoing the operation of one step of a real run, on a disk holding the
   * files that step left and folders that include every folder of the disk
   * before it, moves the file back and leaves the files as they were
   * before that step.
   */
  lemma UndoStepBack(before: Disk, outputDir: Path, result: AnalysisResult, timestamp: string, fail: bool,
                     dirs: set<Path>, moves: seq<(string, string)>, errors: seq<string>)
    requires before.Valid() && WellFormed(outputDir) && WellFormed(result.fileInfo.path)
    requires MoveStep(before, outputDir, false, result, timestamp, fail).op.Some?
    requires before.dirs <= dirs && result.fileInfo.path !in dirs
    ensures var step := MoveStep(before, outputDir, false, result, timestamp, fail);
      UndoStep(Undone(Disk(step.disk.files, dirs), moves, errors), step.op.value, false)
        == Undone(Disk(before.files, dirs), moves + [(step.op.value.destination, step.op.value.source)], errors)
  {
    var source := result.fileInfo.path;
    var dest := Destination(before, outputDir, result);
    MoveStepEffect(before, outputDir, false, result, timestamp, fail);
    DestinationPlace(before, outputDir, result);
    DestinationWellFormed(before, outputDir, result);
    TextRoundTrip(source);
    TextRoundTrip(dest);
    MoveBack(before, source, dest, dirs);
  }

  /** The operation added last is the first undone. */
  lemma UndoAllSnoc(u: Undone, ops: seq<MoveOperation>, op: MoveOperation)
    ensures UndoAll(u, ops + [op], {}) == UndoAll(UndoStep(u, op, false), ops, {})
  {
    assert (ops + [op])[..|ops|] == ops;
  }

  lemma BacksSnoc(moves: seq<(string, string)>, ops: seq<MoveOperation>, op: MoveOperation)
    ensures moves + Backs(ops + [op]) == moves + [(op.destination, op.source)] + Backs(ops)
  {
    assert (ops + [op])[..|ops|] == ops;
  }

  /**
   * Undoing the operations of a run that ends with one more real step is
   * undoing that step's operation, if it has one, and then the rest.
   */
  lemma UndoOneStep(before: Run, outputDir: Path, result: AnalysisResult, timestamp: string, fail: bool,
                     dirs: set<Path>, moves: seq<(string, string)>, errors: seq<string>)
    requires before.disk.Valid() && WellFormed(outputDir) && WellFormed(result.fileInfo.path)
    requires before.disk.dirs <= dirs
    requires result.fileInfo.path in dirs ==> result.fileInfo.path in before.disk.dirs
    ensures var step := MoveStep(before.disk, outputDir, false, result, timestamp, fail);
      var performed := before.performed + Moved(step.op);
      var m := if step.op.Some? then moves + [(step.op.value.destination, step.op.value.source)] else moves;
      && UndoAll(Undone(Disk(step.disk.files, dirs), moves, errors), performed, {})
         == UndoAll(Undone(Disk(before.disk.files, dirs), m, errors), before.performed, {})
      && moves + Backs(performed) == m + Backs(before.performed)
  {
    var step := MoveStep(before.disk, outputDir, false, result, timestamp, fail);
    var done := before.performed;
    MoveStepEffect(before.disk, outputDir, false, result, timestamp, fail);
    if step.op.Some? {
      var op := step.op.value;
      assert result.fileInfo.path in before.disk.files;
      UndoAllSnoc(Undone(Disk(step.disk.files, dirs), moves, errors), done, op);
      BacksSnoc(moves, done, op);
      UndoStepBack(before.disk, outputDir, result, timestamp, fail, dirs, moves, errors);
    } else {
      assert done + [] == done;
    }
  }

  /** The conditions of `UndoOrganized` carry over to the run without its last step. */
  lemma RunPrefix(disk: Disk, outputDir: Path, results: seq<AnalysisResult>, clock: seq<string>, fails: set<nat>,
                  n: nat, dirs: set<Path>)
    requires |clock| == |results| && 0 < n <= |results| && disk.Valid() && WellFormedRun(outputDir, results)
    requires Organize(disk, outputDir, false, results, clock, fails, n).disk.dirs <= dirs
    requires forall i :: 0 <= i < |results| && results[i].fileInfo.path in dirs ==> results[i].fileInfo.path in disk.dirs
    ensures var before := Organize(disk, outputDir, false, results, clock, fails, n - 1);
      var source := results[n - 1].fileInfo.path;
      && before.disk.dirs <= dirs
      && before.disk.Valid()
      && WellFormed(source)
      && (source in dirs ==> source in before.disk.dirs)
  {
    var before := Organize(disk, outputDir, false, results, clock, fails, n - 1);
    var step := MoveStep(before.disk, outputDir, false, results[n - 1], clock[n - 1], n - 1 in fails);
    assert Organize(disk, outputDir, false, results, clock, fails, n).disk == step.disk;
    MoveStepEffect(before.disk, outputDir, false, results[n - 1], clock[n - 1], n - 1 in fails);
    assert before.disk.dirs <= dirs;
    OrganizeValid(disk, outputDir, false, results, clock, fails, n - 1);
    assert WellFormed(results[n - 1].fileInfo.path);
  }

  /**
   * Undoing the operations of the first `n` steps of a real run is undoing
   * the last step's operation, if it has one, and then those of the first
   * `n - 1` steps; `m` is the list of moves back after the first of these.
   */
  lemma UndoLastStep(disk: Disk, outputDir: Path, results: seq<AnalysisResult>, clock: seq<string>, fails: set<nat>,
                     n: nat, dirs: set<Path>, moves: seq<(string, string)>, errors: seq<string>)
    returns (m: seq<(string, string)>)
    requires |clock| == |results| && 0 < n <= |results| && disk.Valid() && WellFormedRun(outputDir, results)
    requires Organize(disk, outputDir, false, results, clock, fails, n).disk.dirs <= dirs
    requires forall i :: 0 <= i < |results| && results[i].fileInfo.path in dirs ==> results[i].fileInfo.path in disk.dirs
    ensures var run := Organize(disk, outputDir, false, results, clock, fails, n);
      var before := Organize(disk, outputDir, false, results, clock, fails, n - 1);
      && UndoAll(Undone(Disk(run.disk.files, dirs), moves, errors), run.performed, {})
         == UndoAll(Undone(Disk(before.disk.files, dirs), m, errors), before.performed, {})
      && moves + Backs(run.performed) == m + Backs(before.performed)
  {
    var before := Organize(disk, outputDir, false, results, clock, fails, n - 1);
    var step := MoveStep(before.disk, outputDir, false, results[n - 1], clock[n - 1], n - 1 in fails);
    RunPrefix(disk, outputDir, results, clock, fails, n, dirs);
    UndoOneStep(before, outputDir, results[n - 1], clock[n - 1], n - 1 in fails, dirs, moves, errors);
    m := if step.op.Some? then moves + [(step.op.value.destination, step.op.value.source)] else moves;
  }

  /**
   * The induction behind `OrganizeThenUndo`, for any folders that include
   * those the run left and hold no source that was a file.
   */
  lemma {:induction false} UndoOrganized(disk: Disk, outputDir: Path, results: seq<AnalysisResult>, clock: seq<string>,
                                         fails: set<nat>, n: nat, dirs: set<Path>, moves: seq<(string, string)>,
                                         errors: seq<string>)
    requires |clock| == |results| && n <= |results| && disk.Valid() && WellFormedRun(outputDir, results)
    requires Organize(disk, outputDir, false, results, clock, fails, n).disk.dirs <= dirs
    requires forall i :: 0 <= i < |results| && results[i].fileInfo.path in dirs ==> results[i].fileInfo.path in disk.dirs
    ensures var run := Organize(disk, outputDir, false, results, clock, fails, n);
      UndoAll(Undone(Disk(run.disk.files, dirs), moves, errors), run.performed, {})
        == Undone(Disk(disk.files, dirs), moves + Backs(run.performed), errors)
  {
    if n == 0 {
      assert moves + [] == moves;
    } else {
      var run := Organize(disk, outputDir, false, results, clock, fails, n);
      var before := Organize(disk, outputDir, false, results, clock, fails, n - 1);
      var m := UndoLastStep(disk, outputDir, results, clock, fails, n, dirs, moves, errors);
      RunPrefix(disk, outputDir, results, clock, fails, n, dirs);
      UndoOrganized(disk, outputDir, results, clock, fails, n - 1, dirs, m, errors);
      calc {
        UndoAll(Undone(Disk(run.disk.files, dirs), moves, errors), run.performed, {});
        UndoAll(Undone(Disk(before.disk.files, dirs), m, errors), before.performed, {});
        Undone(Disk(disk.files, dirs), m + Backs(before.performed), errors);
        Undone(Disk(disk.files, dirs), moves + Backs(run.performed), errors);
      }
    }
  }

  /**
   * Organizing files and then undoing the session's operations, when the
   * operating system refuses no move back, ends without errors, with every
   * file back at its source with its content, and with the moves reported
   * last first. The run itself may have skipped files: moves the operating
   * system refused, sources that were missing or moved already.
   */
  lemma OrganizeThenUndo(disk: Disk, outputDir: Path, results: seq<AnalysisResult>, clock: seq<string>, fails: set<nat>)
    requires |clock| == |results| && disk.Valid() && WellFormedRun(outputDir, results)
    requires NoSourceBecomesFolder(outputDir, results)
    ensures var run := Organize(disk, outputDir, false, results, clock, fails, |results|);
      var back := UndoAll(Undone(run.disk, [], []), run.performed, {});
      && back.errors == []
      && back.disk.files == disk.files
      && back.moves == Backs(run.performed)
  {
    var run := Organize(disk, outputDir, false, results, clock, fails, |results|);
    OrganizeDirs(disk, outputDir, results, clock, fails, |results|);
    forall i | 0 <= i < |results| && results[i].fileInfo.path in run.disk.dirs
      ensures results[i].fileInfo.path in disk.dirs
    {
      if results[i].fileInfo.path !in disk.dirs {
        assert false;
      }
    }
    assert Disk(run.disk.files, run.disk.dirs) == run.disk;
    UndoOrganized(disk, outputDir, results, clock, fails, |results|, run.disk.dirs, [], []);
  }

  // ---------------------------------------------------------------------------
  // The mover

  class FileMover {
    const outputDir: Path
    const config: Config
    const dryRun: bool
    const undoLog: UndoLog
    const fs: FileSystem
    /** `_current_session`: the session being recorded into, shared with the log's list. */
    var currentSession: Option<Session>

    ghost predicate Valid()
      reads this, fs
    {
      fs.disk.Valid()
    }

    /** The session objects a move may change: the current one, if any. */
    function Recording(): set<object>
      reads this
    {
      if currentSession.Some? then {currentSession.value} else {}
    }

    /** The mover once its undo log is open (see `NewFileMover`). */
    constructor (outputDir: Path, config: Config, dryRun: bool, undoLog: UndoLog, fs: FileSystem)
      ensures this.outputDir == outputDir && this.config == config && this.dryRun == dryRun
      ensures this.undoLog == undoLog && this.fs == fs
      ensures currentSession == None
    {
      this.outputDir := outputDir;
      this.config := config;
      this.dryRun := dryRun;
      this.undoLog := undoLog;
      this.fs := fs;
      currentSession := None;
    }

    /** `start_session`: outside dry-run, a new session in the log becomes the current one. */
    method StartSession(sourceDir: Path, sessionId: string, timestamp: string)
      modifies this, undoLog
      ensures dryRun ==> currentSession == old(currentSession) && unchanged(undoLog)
      ensures !dryRun ==> currentSession.Some? && fresh(currentSession.value)
      ensures !dryRun ==> currentSession.value.Record()
                          == SessionRecord(sessionId, timestamp, ToText(sourceDir), ToText(outputDir), [], false)
      ensures !dryRun ==> undoLog.sessions == old(undoLog.sessions) + [currentSession.value]
      ensures !dryRun ==> undoLog.stored == undoLog.Saved()
    {
      if !dryRun {
        var session := undoLog.CreateSession(ToText(sourceDir), ToText(outputDir), sessionId, timestamp);
        currentSession := Some(session);
      }
    }

    /** `end_session`: outside dry-run, the current session is marked complete. */
    method EndSession()
      modifies undoLog, Recording()
      ensures undoLog.sessions == old(undoLog.sessions)
      ensures currentSession.Some? ==> currentSession.value.operations == old(currentSession.value.operations)
      ensures currentSession.Some? && !dryRun ==> currentSession.value.completed && undoLog.stored == undoLog.Saved()
      ensures currentSession.None? || dryRun ==> unchanged(undoLog) && unchanged(Recording())
    {
      if currentSession.Some? && !dryRun {
        undoLog.CompleteSession(currentSession.value);
      }
    }

    /** One pass of `organize_files`' loop: the move of the `i`-th file extends the run by one step. */
    method OrganizeNextFile(results: seq<AnalysisResult>, clock: seq<string>, fails: set<nat>, i: nat,
                            ghost start: Disk, ghost before: Run, ghost logged: seq<MoveOperation>)
      returns (op: Option<MoveOperation>, ghost after: Run)
      requires start.Valid() && |clock| == |results| && i < |results|
      requires before == Organize(start, outputDir, dryRun, results, clock, fails, i) && fs.disk == before.disk
      requires currentSession.Some? && !dryRun ==> currentSession.value.operations == logged + before.performed
      modifies fs, undoLog, Recording()
      ensures after == Organize(start, outputDir, dryRun, results, clock, fails, i + 1)
      ensures fs.disk == after.disk && after.ops == before.ops + [op]
      ensures currentSession == old(currentSession)
      ensures undoLog.sessions == old(undoLog.sessions)
      ensures currentSession.Some? ==> currentSession.value.completed == old(currentSession.value.completed)
      ensures currentSession.Some? && !dryRun ==> currentSession.value.operations == logged + after.performed
      ensures currentSession.None? || dryRun ==> unchanged(undoLog) && unchanged(Recording())
    {
      OrganizeValid(start, outputDir, dryRun, results, clock, fails, i);
      op := MoveFile(results[i], clock[i], i in fails);
      after := Organize(start, outputDir, dryRun, results, clock, fails, i + 1);
      assert after.performed == before.performed + Moved(op);
      AppendAssoc(logged, before.performed, Moved(op));
    }

    /**
     * `organize_files`: `move_file` for each result in turn, proved against
     * `Organize`; every move performed outside dry-run is appended to the
     * current session, in order.
     */
    method OrganizeFiles(results: seq<AnalysisResult>, clock: seq<string>, fails: set<nat>)
      returns (ops: seq<Option<MoveOperation>>)
      requires Valid() && |clock| == |results|
      modifies fs, undoLog, Recording()
      ensures Valid()
      ensures var run := Organize(old(fs.disk), outputDir, dryRun, results, clock, fails, |results|);
        && fs.disk == run.disk && ops == run.ops
        && (currentSession.Some? && !dryRun ==>
              currentSession.value.operations == old(currentSession.value.operations) + run.performed)
      ensures currentSession == old(currentSession)
      ensures undoLog.sessions == old(undoLog.sessions)
      ensures currentSession.Some? ==> currentSession.value.completed == old(currentSession.value.completed)
      ensures currentSession.None? || dryRun ==> undoLog.stored == old(undoLog.stored)
      ensures currentSession.Some? && dryRun ==> currentSession.value.operations == old(currentSession.value.operations)
    {
      ops := [];
      ghost var start := fs.disk;
      ghost var run := Run(fs.disk, [], []);
      ghost var logged := if currentSession.Some? then currentSession.value.operations else [];
      var i := 0;
      while i < |results|
        invariant 0 <= i <= |results|
        invariant run == Organize(start, outputDir, dryRun, results, clock, fails, i)
        invariant fs.disk == run.disk && ops == run.ops
        invariant currentSession == old(currentSession)
        invariant undoLog.sessions == old(undoLog.sessions)
        invariant currentSession.Some? ==> currentSession.value.completed == old(currentSession.value.completed)
        invariant currentSession.Some? && !dryRun ==> currentSession.value.operations == logged + run.performed
        invariant currentSession.None? || dryRun ==> undoLog.stored == old(undoLog.stored)
        invariant currentSession.Some? && dryRun ==> currentSession.value.operations == logged
      {
        var op;
        op, run := OrganizeNextFile(results, clock, fails, i, start, run, logged);
        ops := ops + [op];
        i := i + 1;
      }
      OrganizeValid(start, outputDir, dryRun, results, clock, fails, i);
    }

    /** `_get_unique_path`. */
    method GetUniquePath(path: Path) returns (r: Path)
      ensures r == UniquePath(fs.disk, path)
    {
      if !fs.disk.Exists(path) {
        return path;
      }
      var name := Name(path);
      var stem, suffix, parent := Stem(name), Suffix(name), Parent(path);
      var counter := 1;
      while true
        invariant 1 <= counter
        invariant forall j :: 1 <= j < counter ==> fs.disk.Exists(Candidate(path, j))
        invariant FirstFree(fs.disk, path, counter) == FirstFree(fs.disk, path, 1)
        decreases |Occupied(fs.disk)| + 1 - counter
      {
        var newPath := parent + [stem + "_" + Decimal(counter) + suffix];
        if !fs.disk.Exists(newPath) {
          return newPath;
        }
        TakenCandidatesBound(fs.disk, path, counter);
        counter := counter + 1;
      }
    }

    /** The `try` block of `move_file` up to the logging. */
    method Relocate(source: Path, destDir: Path, dest: Path, fail: bool) returns (ok: bool)
      requires Valid()
      modifies fs
      ensures Valid()
      ensures Outcome(fs.disk, ok) == Relocation(old(fs.disk), source, destDir, dest, fail)
    {
      RelocationValid(fs.disk, source, destDir, dest, fail);
      ok := fs.MakeDirs(destDir);
      if ok {
        ok := fs.Move(source, dest, fail);
      }
    }

    /** One turn of the loop of `undo_last_session`, proved against `UndoStep`. */
    method UndoOperation(op: MoveOperation, fail: bool, moves: seq<(string, string)>, errors: seq<string>)
      returns (moves': seq<(string, string)>, errors': seq<string>)
      requires Valid()
      modifies fs
      ensures Valid()
      ensures Undone(fs.disk, moves', errors') == UndoStep(Undone(old(fs.disk), moves, errors), op, fail)
    {
      UndoStepValid(Undone(fs.disk, moves, errors), op, fail);
      moves', errors' := moves, errors;
      var source := FromText(op.source);
      var dest := FromText(op.destination);
      if fs.disk.Exists(dest) {
        var ok := fs.MakeDirs(Parent(source));
        if ok {
          ok := fs.Move(dest, source, fail);
        }
        if ok {
          moves' := moves' + [(ToText(dest), ToText(source))];
        } else {
          errors' := errors' + ["Failed to restore " + Name(dest)];
        }
      } else {
        errors' := errors' + ["File not found: " + ToText(dest)];
      }
    }

    /**
     * `_cleanup_empty_dirs`: depth first, every folder at or below
     * `directory` that has nothing left inside it is removed, except the
     * output folder. Files are never touched.
     */
    method CleanupEmptyDirs(directory: Path)
      requires Valid() && |directory| >= 1
      modifies fs
      ensures Valid()
      ensures fs.disk.files == old(fs.disk.files)
      ensures fs.disk.dirs <= old(fs.disk.dirs)
      ensures forall d :: d in old(fs.disk.dirs) && d !in fs.disk.dirs ==> directory <= d && d != outputDir
      ensures forall d :: d in fs.disk.dirs && directory <= d && d != outputDir ==> fs.disk.HasEntries(d)
      decreases |Below(fs.disk, directory)|
    {
      if directory !in fs.disk.dirs {
        NothingBelowMissing(fs.disk, directory);
        return;
      }
      ghost var start := fs.disk;
      var children := fs.disk.ChildDirs(directory);
      forall d | d in fs.disk.dirs && directory < d ensures d[..|directory| + 1] in children {
        PrefixChild(fs.disk, directory, d);
      }
      while children != {}
        invariant forall c :: c in children ==> |c| == |directory| + 1 && directory < c
        invariant Valid()
        invariant fs.disk.files == start.files && fs.disk.dirs <= start.dirs
        invariant directory in fs.disk.dirs
        invariant forall d :: d in start.dirs && d !in fs.disk.dirs ==>
                    directory < d && d != outputDir && d[..|directory| + 1] !in children
        invariant forall d :: d in fs.disk.dirs && directory < d && d != outputDir && d[..|directory| + 1] !in children ==>
                    fs.disk.HasEntries(d)
        decreases children
      {
        var child :| child in children;
        ghost var pending := children;
        children := children - {child};
        if child in fs.disk.dirs {
          BelowShrinks(start, fs.disk, directory, child);
          ghost var before := fs.disk;
          CleanupEmptyDirs(child);
          CleanupStep(start, before, fs.disk, directory, child, pending, outputDir);
        } else {
          forall d | d in fs.disk.dirs && directory < d ensures d[..|directory| + 1] != child {
            PrefixChild(fs.disk, directory, d);
          }
        }
      }
      ghost var swept := fs.disk;
      if directory in fs.disk.dirs && !fs.disk.HasEntries(directory) && directory != outputDir {
        RemoveDirValid(fs.disk, directory);
        fs.RemoveDir(directory);
      }
      CleanupFinish(start, swept, fs.disk, directory, outputDir);
    }

    /**
     * `move_file`: the operation is planned on the disk as it is; in dry-run
     * nothing else happens. Otherwise the folder is made and the file moved;
     * when the operating system refuses either, the result is None and
     * nothing is logged; when the move happens it is appended to the current
     * session, if there is one.
     */
    method MoveFile(result: AnalysisResult, timestamp: string, fail: bool) returns (r: Option<MoveOperation>)
      requires Valid()
      modifies fs, undoLog, Recording()
      ensures Valid()
      ensures currentSession == old(currentSession)
      ensures undoLog.sessions == old(undoLog.sessions)
      ensures Step(fs.disk, r) == MoveStep(old(fs.disk), outputDir, dryRun, result, timestamp, fail)
      ensures currentSession.Some? ==> currentSession.value.completed == old(currentSession.value.completed)
      ensures currentSession.Some? ==>
                currentSession.value.operations == old(currentSession.value.operations) + (if dryRun then [] else Moved(r))
      ensures currentSession.Some? && r.Some? && !dryRun ==> undoLog.stored == undoLog.Saved()
      ensures currentSession.None? || r.None? || dryRun ==> unchanged(undoLog) && unchanged(Recording())
    {
      var source := result.fileInfo.path;
      var destDir := Under(outputDir, result.category.path);
      var destFile := destDir + [Name(source)];
      destFile := GetUniquePath(destFile);
      var operation := MoveOperation(ToText(source), ToText(destFile), result.category.name, result.reasoning, timestamp);
      if !dryRun {
        var ok := Relocate(source, destDir, destFile, fail);
        if !ok {
          return None;
        }
        if currentSession.Some? {
          undoLog.AddOperation(currentSession.value, operation);
        }
      }
      return Some(operation);
    }

    /** The loop of `undo_last_session`, proved against `UndoAll`. */
    method UndoOperations(operations: seq<MoveOperation>, fails: set<nat>) returns (moves: seq<(string, string)>, errors: seq<string>)
      requires Valid()
      modifies fs
      ensures Valid()
      ensures Undone(fs.disk, moves, errors) == UndoAll(Undone(old(fs.disk), [], []), operations, fails)
    {
      moves, errors := [], [];
      var i := |operations|;
      assert operations[..i] == operations;
      while i > 0
        invariant 0 <= i <= |operations|
        invariant Valid()
        invariant UndoAll(Undone(fs.disk, moves, errors), operations[..i], fails)
                  == UndoAll(Undone(old(fs.disk), [], []), operations, fails)
      {
        assert operations[..i][..i - 1] == operations[..i - 1];
        i := i - 1;
        moves, errors := UndoOperation(operations[i], i in fails, moves, errors);
      }
    }

    /**
     * `undo_last_session`: the operations of the last completed session are
     * undone last first, the emptied folders below the session's output
     * folder are cleaned up, and the session leaves the log. `fails` holds
     * the positions in the session's list whose move back the operating
     * system refuses.
     */
    method UndoLastSession(fails: set<nat>) returns (success: bool, message: string, moves: seq<(string, string)>)
      requires Valid()
      modifies fs, undoLog
      ensures Valid()
      ensures old(LastCompleted(undoLog.sessions)).None? ==>
                && !success && message == "No sessions to undo" && moves == []
                && fs.disk == old(fs.disk) && unchanged(undoLog)
      ensures old(LastCompleted(undoLog.sessions)).Some? ==>
                var session := old(LastCompleted(undoLog.sessions)).value;
                var u := UndoAll(Undone(old(fs.disk), [], []), session.operations, fails);
                var top := FromText(session.outputDirectory);
                && moves == u.moves
                && (success <==> u.errors == [])
                && message == (if u.errors == [] then "Successfully undid " + Decimal(|u.moves|) + " file moves"
                               else "Undo completed with " + Decimal(|u.errors|) + " errors")
                && fs.disk.files == u.disk.files && fs.disk.dirs <= u.disk.dirs
                && (forall d :: d in u.disk.dirs && d !in fs.disk.dirs ==> top <= d && d != outputDir)
                && (forall d :: d in fs.disk.dirs && top <= d && d != outputDir ==> fs.disk.HasEntries(d))
                && undoLog.sessions == Without(old(undoLog.sessions), session.sessionId)
                && undoLog.stored == undoLog.Saved()
    {
      var last := undoLog.GetLastSession();
      if last.None? {
        return false, "No sessions to undo", [];
      }
      var session := last.value;
      var errors;
      moves, errors := UndoOperations(session.operations, fails);
      CleanupEmptyDirs(FromText(session.outputDirectory));
      undoLog.RemoveSession(session);
      if errors != [] {
        return false, "Undo completed with " + Decimal(|errors|) + " errors", moves;
      }
      return true, "Successfully undid " + Decimal(|moves|) + " file moves", moves;
    }
  }

  /**
   * `FileMover.__init__`: a missing config means `DEFAULT_CONFIG`, and the
   * undo log is opened at `undo_log_file` inside the output folder, whose
   * contents are `file`; None when loading that log raises.
   */
  method NewFileMover(outputDir: Path, config: Option<Config>, dryRun: bool, file: Stored, fs: FileSystem)
    returns (mover: Option<FileMover>)
    ensures mover.None? <==> LoadLog(file) == Crashed
    ensures mover.Some? ==>
              && fresh(mover.value)
              && mover.value.outputDir == outputDir && mover.value.dryRun == dryRun
              && mover.value.config == config.GetOr(DefaultConfig)
              && mover.value.fs == fs && mover.value.currentSession == None
              && mover.value.undoLog.logPath == Under(outputDir, config.GetOr(DefaultConfig).undoLogFile)
              && RecordsOf(mover.value.undoLog.sessions) == LoadLog(file).records
  {
    var c := config.GetOr(DefaultConfig);
    var log := OpenUndoLog(Under(outputDir, c.undoLogFile), file);
    if log.None? {
      return None;
    }
    var m := new FileMover(outputDir, c, dryRun, log.value, fs);
    mover := Some(m);
  }
}
