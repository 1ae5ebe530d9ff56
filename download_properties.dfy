/**
 * What a `download` run promises, stated over its outcome: when it fails,
 * that the target directory comes first, what each combination of `raw` and
 * `merge` leaves on disk, and that running it again changes nothing.
 */
module DownloadProperties {
  import opened Wrappers
  import opened Storage
  import opened Paths
  import opened FileSystem
  import opened Downloader

  /** The disk once the optional `os.makedirs` has run. */
  lemma SetupDisk(args: Args, disk: Disk)
    ensures Replay(disk, Setup(args))
         == Disk(if args.newDir then disk.dirs + {args.target} else disk.dirs, disk.files)
  {
    if args.newDir {
      ReplayStep(disk, [], MakeDirs(args.target));
    }
  }

  /** Every planned effect is a write into the target directory. */
  lemma PlanWritesIntoTarget(listing: seq<Object>, args: Args)
    ensures forall e :: e in Plan(listing, args) ==> e.Write? && e.path.dir == args.target
  {
    PerObjectWritesAt(listing, args.target);
  }

  /**
   * A run fails exactly when it has something to write, the target directory
   * is missing and it was not asked to create it; a failed run leaves the disk
   * as it was and has done nothing.
   */
  lemma DownloadFailure(objects: seq<Object>, args: Args, disk: Disk)
    ensures Outcome(objects, args, disk).failure != None
        <==> !args.newDir && args.target !in disk.dirs && (args.merge || Listing(objects, args.prefix) != [])
    ensures Outcome(objects, args, disk).failure != None ==>
      Outcome(objects, args, disk).disk == disk && Outcome(objects, args, disk).journal == []
  {
    SetupDisk(args, disk);
  }

  /**
   * The directory is created first, and only when asked for; every other
   * effect is a write of a file inside the target directory.
   */
  lemma DirectoryBeforeWrites(objects: seq<Object>, args: Args, disk: Disk)
    ensures var journal := Outcome(objects, args, disk).journal;
      forall k :: 0 <= k < |journal| ==>
        (journal[k].MakeDirs? <==> k == 0 && args.newDir) &&
        (journal[k].MakeDirs? ==> journal[k].dir == args.target) &&
        (journal[k].Write? ==> journal[k].path.dir == args.target)
  {
    var listing := Listing(objects, args.prefix);
    PlanWritesIntoTarget(listing, args);
    var journal := Outcome(objects, args, disk).journal;
    forall k | 0 <= k < |journal|
      ensures (journal[k].MakeDirs? <==> k == 0 && args.newDir) &&
              (journal[k].MakeDirs? ==> journal[k].dir == args.target) &&
              (journal[k].Write? ==> journal[k].path.dir == args.target)
    {
      if k >= |Setup(args)| {
        assert journal[k] == Plan(listing, args)[k - |Setup(args)|];
        assert journal[k] in Plan(listing, args);
      }
    }
  }

  /**
   * With `raw` and `merge`, a successful run writes one file, the merged
   * file, holding every listed payload followed by a newline, in order.
   */
  lemma RawMergeWritesOneFile(objects: seq<Object>, args: Args, disk: Disk)
    requires args.raw && args.merge
    ensures var run := Outcome(objects, args, disk);
      run.failure == None ==>
        run.journal == Setup(args) + [Write(MergedPath(args), MergedContent(Listing(objects, args.prefix)))] &&
        run.disk.files == disk.files[MergedPath(args) := MergedContent(Listing(objects, args.prefix))]
  {
    var run := Outcome(objects, args, disk);
    if run.failure == None {
      var w := Write(MergedPath(args), MergedContent(Listing(objects, args.prefix)));
      ReplayStep(disk, Setup(args), w);
      SetupDisk(args, disk);
    }
  }

  /** The files written one per object are exactly the objects' own files. */
  lemma PerObjectPaths(listing: seq<Object>, target: string)
    ensures PathsWritten(PerObjectWrites(listing, target)) == set o | o in listing :: FileFor(target, o)
  {
    var writes := PerObjectWrites(listing, target);
    PerObjectWritesAt(listing, target);
    forall p | p in PathsWritten(writes) ensures exists o :: o in listing && p == FileFor(target, o) {
      var e :| e in writes && e.Write? && e.path == p;
      var k :| 0 <= k < |writes| && writes[k] == e;
      assert listing[k] in listing;
    }
    forall o | o in listing ensures FileFor(target, o) in PathsWritten(writes) {
      var k :| 0 <= k < |listing| && listing[k] == o;
      assert writes[k] in writes;
    }
  }

  /**
   * Writing one file per object onto `start`: every object's file exists,
   * holds the payload of the last object with that basename, and every other
   * file keeps its content.
   */
  lemma PerObjectFiles(listing: seq<Object>, target: string, start: Disk)
    ensures var files := Replay(start, PerObjectWrites(listing, target)).files;
      files.Keys == start.files.Keys + (set o | o in listing :: FileFor(target, o)) &&
      (forall k :: 0 <= k < |listing| &&
         (forall j :: k < j < |listing| ==> Basename(listing[j].key) != Basename(listing[k].key))
         ==> files[FileFor(target, listing[k])] == listing[k].payload) &&
      (forall p :: p in start.files && (forall o :: o in listing ==> FileFor(target, o) != p)
         ==> files[p] == start.files[p])
  {
    var writes := PerObjectWrites(listing, target);
    ReplayNet(start, writes);
    PerObjectPaths(listing, target);
    NetWritesPaths(writes);
    PerObjectWritesAt(listing, target);
    forall k | 0 <= k < |listing| &&
        (forall j :: k < j < |listing| ==> Basename(listing[j].key) != Basename(listing[k].key))
      ensures NetWrites(writes)[FileFor(target, listing[k])] == listing[k].payload
    {
      NetWritesLast(writes, k);
    }
  }

  /** Without `merge` the `raw` flag makes no difference to a run. */
  lemma RawIrrelevantWithoutMerge(objects: seq<Object>, args: Args, disk: Disk)
    requires !args.merge
    ensures Outcome(objects, args.(raw := !args.raw), disk) == Outcome(objects, args, disk)
  {
    var listing := Listing(objects, args.prefix);
    assert Plan(listing, args.(raw := !args.raw)) == Plan(listing, args);
  }

  /**
   * Without `merge`, a successful run gives every listed object a file
   * `target/basename(key)` holding the payload of the last listed object with
   * that basename, and leaves every other file on the disk as it was.
   */
  lemma SeparateFiles(objects: seq<Object>, args: Args, disk: Disk)
    requires !args.merge
    ensures var run, listing := Outcome(objects, args, disk), Listing(objects, args.prefix);
      run.failure == None ==>
        run.disk.files.Keys == disk.files.Keys + (set o | o in listing :: FileFor(args.target, o)) &&
        (forall k :: 0 <= k < |listing| &&
           (forall j :: k < j < |listing| ==> Basename(listing[j].key) != Basename(listing[k].key))
           ==> run.disk.files[FileFor(args.target, listing[k])] == listing[k].payload) &&
        (forall p :: p in disk.files && (forall o :: o in listing ==> FileFor(args.target, o) != p)
           ==> run.disk.files[p] == disk.files[p])
  {
    var run, listing := Outcome(objects, args, disk), Listing(objects, args.prefix);
    if run.failure == None {
      var writes := PerObjectWrites(listing, args.target);
      assert Plan(listing, args) == writes;
      ReplayAppend(disk, Setup(args), writes);
      SetupDisk(args, disk);
      PerObjectFiles(listing, args.target, Replay(disk, Setup(args)));
    }
  }

  /**
   * With `merge` but without `raw`, a successful run writes the same files
   * as without `merge` and then an EMPTY merged file: the buffer is only
   * filled on the `raw` path.
   */
  lemma MergeWithoutRawWritesEmptyFile(objects: seq<Object>, args: Args, disk: Disk)
    requires !args.raw && args.merge
    ensures var run, separate := Outcome(objects, args, disk), Outcome(objects, args.(merge := false), disk);
      run.failure == None ==>
        separate.failure == None &&
        run.journal == separate.journal + [Write(MergedPath(args), [])] &&
        run.disk == separate.disk.(files := separate.disk.files[MergedPath(args) := []])
  {
    var run := Outcome(objects, args, disk);
    if run.failure == None {
      var listing := Listing(objects, args.prefix);
      var journal := Setup(args) + PerObjectWrites(listing, args.target);
      assert Plan(listing, args.(merge := false)) == PerObjectWrites(listing, args.target);
      assert MergedPath(args.(merge := false)) == MergedPath(args);
      assert run.journal == journal + [Write(MergedPath(args), [])];
      ReplayStep(disk, journal, Write(MergedPath(args), []));
    }
  }

  /** Running `download` again on the disk a successful run produced changes nothing. */
  lemma DownloadTwice(objects: seq<Object>, args: Args, disk: Disk)
    ensures var run := Outcome(objects, args, disk);
      run.failure == None ==>
        Outcome(objects, args, run.disk).failure == None && Outcome(objects, args, run.disk).disk == run.disk
  {
    var run := Outcome(objects, args, disk);
    if run.failure == None {
      var plan := Plan(Listing(objects, args.prefix), args);
      var ready := Replay(disk, Setup(args));
      ReplayAppend(disk, Setup(args), plan);
      ReplayNet(ready, plan);
      SetupDisk(args, disk);
      SetupDisk(args, run.disk);
      ReplayTwice(disk, Setup(args) + plan);
    }
  }
}
