/**
 * The `download` command: which local files end up holding which bytes.
 *
 * The command lists the objects under a prefix and, per object, either writes
 * its payload to `target/basename(key)` or (with `raw` and `merge`) appends it
 * plus a newline to an in-memory buffer; when `merge` is set, one merged file
 * is written after the loop. The model returns the final disk together with
 * the journal of effects, in the order they happened.
 */
module Downloader {
  import opened Wrappers
  import opened Storage
  import opened Paths
  import opened FileSystem

  /** The command-line arguments of `download` that decide what is written. */
  datatype Args = Args(bucket: string, prefix: string, target: string, newDir: bool, raw: bool, merge: bool)

  /** Why a run stopped: opening `path` for writing found no directory `path.dir`. */
  datatype Failure = NoSuchDirectory(path: Path)

  /** What a run leaves behind: the disk, the effects in order, and the failure that aborted it, if any. */
  datatype Run = Run(disk: Disk, journal: seq<Effect>, failure: Option<Failure>)

  // ---------------------------------------------------------------------------
  // The merge buffer

  /** The merge buffer after the given objects: each payload followed by `b'\n'`, in order. */
  function MergedContent(listing: seq<Object>): Bytes
  {
    if listing == [] then []
    else MergedContent(listing[..|listing| - 1]) + listing[|listing| - 1].payload + [Newline]
  }

  /** The buffer of a concatenation is the concatenation of the buffers. */
  lemma {:induction false} MergedContentAppend(a: seq<Object>, b: seq<Object>)
    ensures MergedContent(a + b) == MergedContent(a) + MergedContent(b)
  {
    if b == [] {
      assert a + b == a;
    } else {
      var init := b[..|b| - 1];
      assert (a + b)[..|a + b| - 1] == a + init;
      MergedContentAppend(a, init);
    }
  }

  /** The buffer holds one line per object. */
  lemma {:induction false} MergedContentLength(listing: seq<Object>)
    ensures |MergedContent(listing)| == |listing| + PayloadBytes(listing)
  {
    if listing != [] {
      MergedContentLength(listing[..|listing| - 1]);
    }
  }

  /** The number of payload bytes of the objects. */
  function PayloadBytes(listing: seq<Object>): nat
  {
    if listing == [] then 0 else PayloadBytes(listing[..|listing| - 1]) + |listing[|listing| - 1].payload|
  }

  /** The payloads of the objects, in listing order. */
  function Payloads(listing: seq<Object>): seq<Bytes>
  {
    if listing == [] then [] else [listing[0].payload] + Payloads(listing[1..])
  }

  /** The index of the first newline byte. */
  function FirstNewline(b: Bytes): (k: nat)
    requires Newline in b
    ensures k < |b| && b[k] == Newline && Newline !in b[..k]
  {
    if b[0] == Newline then 0
    else
      assert Newline in b[1..];
      var k := FirstNewline(b[1..]);
      assert b[..k + 1] == [b[0]] + b[1..][..k];
      k + 1
  }

  /** Reading a merged file back line by line: the newline-terminated pieces, and an unterminated tail if any. */
  function Unmerge(merged: Bytes): seq<Bytes>
    decreases |merged|
  {
    if Newline !in merged then (if merged == [] then [] else [merged])
    else
      var k := FirstNewline(merged);
      [merged[..k]] + Unmerge(merged[k + 1..])
  }

  /** When no payload contains a newline, splitting the merged file into lines gives back every payload, in order. */
  lemma {:induction false} MergedContentRoundTrip(listing: seq<Object>)
    requires forall o :: o in listing ==> Newline !in o.payload
    ensures Unmerge(MergedContent(listing)) == Payloads(listing)
  {
    if listing != [] {
      var o, rest := listing[0], listing[1..];
      assert listing == [o] + rest;
      MergedContentAppend([o], rest);
      assert MergedContent([o]) == o.payload + [Newline] by {
        assert [o][..0] == [];
      }
      var merged := MergedContent(listing);
      assert merged == o.payload + [Newline] + MergedContent(rest);
      assert merged[|o.payload|] == Newline;
      assert Newline in merged;
      var k := FirstNewline(merged);
      if k < |o.payload| {
        assert false;
      } else if k > |o.payload| {
        assert false;
      }
      assert merged[..k] == o.payload;
      assert merged[k + 1..] == MergedContent(rest);
      MergedContentRoundTrip(rest);
      assert Payloads(listing) == [o.payload] + Payloads(rest);
    }
  }

  // ---------------------------------------------------------------------------
  // What a run writes

  /** The file an object is written to: `os.path.join(target, os.path.basename(key))`. */
  function FileFor(target: string, o: Object): Path
  {
    Join(target, Basename(o.key))
  }

  /** The file the merge buffer is written to. */
  function MergedPath(args: Args): Path
  {
    Join(args.target, MergedFileName(args.bucket, args.prefix))
  }

  /** One write per object, in enumeration order, each to the object's own file. */
  function PerObjectWrites(listing: seq<Object>, target: string): seq<Effect>
  {
    if listing == [] then []
    else
      var last := listing[|listing| - 1];
      PerObjectWrites(listing[..|listing| - 1], target) + [Write(FileFor(target, last), last.payload)]
  }

  /** The k-th per-object write is the k-th object's payload, written to that object's file. */
  lemma {:induction false} PerObjectWritesAt(listing: seq<Object>, target: string)
    ensures |PerObjectWrites(listing, target)| == |listing|
    ensures forall k :: 0 <= k < |listing| ==>
      PerObjectWrites(listing, target)[k] == Write(FileFor(target, listing[k]), listing[k].payload)
  {
    if listing != [] {
      PerObjectWritesAt(listing[..|listing| - 1], target);
    }
  }

  /** The effect of the optional directory creation before the loop. */
  function Setup(args: Args): seq<Effect>
  {
    if args.newDir then [MakeDirs(args.target)] else []
  }

  /** The writes the loop performs: one per object, unless both `raw` and `merge` are set. */
  function LoopWrites(listing: seq<Object>, args: Args): seq<Effect>
  {
    if args.raw && args.merge then [] else PerObjectWrites(listing, args.target)
  }

  /** The merge buffer after the loop: filled only when both `raw` and `merge` are set. */
  function Buffer(listing: seq<Object>, args: Args): Bytes
  {
    if args.raw && args.merge then MergedContent(listing) else []
  }

  /**
   * The writes a run performs, in order: the loop's writes, then the merged
   * file whenever `merge` is set. The buffer is filled only on the `raw`
   * path, so with `merge` but without `raw` the merged file is empty.
   */
  function Plan(listing: seq<Object>, args: Args): (writes: seq<Effect>)
    ensures writes == [] <==> !args.merge && listing == []
  {
    LoopWrites(listing, args) + (if args.merge then [Write(MergedPath(args), Buffer(listing, args))] else [])
  }

  /** One more object extends the loop's writes by that object's write. */
  lemma LoopWritesStep(listing: seq<Object>, args: Args, i: nat)
    requires i < |listing| && !(args.raw && args.merge)
    ensures LoopWrites(listing[..i + 1], args)
         == LoopWrites(listing[..i], args) + [Write(FileFor(args.target, listing[i]), listing[i].payload)]
  {
    PerObjectWritesStep(listing, args.target, i);
  }

  /** The file the first write of a run goes to. */
  function FirstPath(listing: seq<Object>, args: Args): Path
  {
    if listing == [] || (args.raw && args.merge) then MergedPath(args) else FileFor(args.target, listing[0])
  }

  /**
   * The outcome of `download` over a bucket's objects, starting from `disk`.
   * Every write goes into the target directory, so if it does not exist (and
   * is not created) the first write fails and nothing is written at all.
   */
  function Outcome(objects: seq<Object>, args: Args, disk: Disk): Run
  {
    var ready := Replay(disk, Setup(args));
    var writes := Plan(Listing(objects, args.prefix), args);
    if writes != [] && args.target !in ready.dirs then
      Run(ready, Setup(args), Some(NoSuchDirectory(FirstPath(Listing(objects, args.prefix), args))))
    else
      Run(Replay(disk, Setup(args) + writes), Setup(args) + writes, None)
  }

  /** Extending the listing by one object adds that object's write. */
  lemma PerObjectWritesStep(listing: seq<Object>, target: string, i: nat)
    requires i < |listing|
    ensures PerObjectWrites(listing[..i + 1], target)
         == PerObjectWrites(listing[..i], target) + [Write(FileFor(target, listing[i]), listing[i].payload)]
  {
    assert listing[..i + 1][..i] == listing[..i];
  }

  /** Extending the listing by one object appends its payload and a newline to the buffer. */
  lemma MergedContentStep(listing: seq<Object>, i: nat)
    requires i < |listing|
    ensures MergedContent(listing[..i + 1]) == MergedContent(listing[..i]) + listing[i].payload + [Newline]
  {
    assert listing[..i + 1][..i] == listing[..i];
  }

  /** A run that meets no missing directory performs every planned write. */
  lemma OutcomeCompleted(objects: seq<Object>, args: Args, disk: Disk)
    requires Plan(Listing(objects, args.prefix), args) == [] || args.target in Replay(disk, Setup(args)).dirs
    ensures Outcome(objects, args, disk)
         == Run(Replay(disk, Setup(args) + Plan(Listing(objects, args.prefix), args)),
                Setup(args) + Plan(Listing(objects, args.prefix), args), None)
  {
  }

  /** A run whose target directory is missing stops at its first write. */
  lemma OutcomeAborted(objects: seq<Object>, args: Args, disk: Disk)
    requires Plan(Listing(objects, args.prefix), args) != [] && args.target !in Replay(disk, Setup(args)).dirs
    ensures Outcome(objects, args, disk)
         == Run(Replay(disk, Setup(args)), Setup(args), Some(NoSuchDirectory(FirstPath(Listing(objects, args.prefix), args))))
  {
  }

  /**
   * `with open(path, 'wb') as file: file.write(content)`: fails, changing
   * nothing, when the directory of `path` does not exist.
   */
  method WriteFile(disk: Disk, path: Path, content: Bytes) returns (after: Disk, ok: bool)
    ensures ok <==> path.dir in disk.dirs
    ensures after == if ok then Apply(disk, Write(path, content)) else disk
  {
    ok := path.dir in disk.dirs;
    after := disk;
    if ok {
      after := disk.(files := disk.files[path := content]);
    }
  }

  /**
   * The loop of `download`, starting on the disk `start` (the target directory
   * already created if asked for). Per object it either writes the payload to
   * the object's own file or, with both `raw` and `merge`, appends the payload
   * and a newline to the merge buffer. Returns the disk, the writes performed
   * and the buffer; a failed write stops the loop.
   */
  method SaveObjects(listing: seq<Object>, args: Args, start: Disk)
    returns (state: Disk, written: seq<Effect>, mergedBytes: Bytes, failure: Option<Failure>)
    ensures state.dirs == start.dirs
    ensures failure == None ==>
      written == LoopWrites(listing, args) && state == Replay(start, written) && mergedBytes == Buffer(listing, args)
    ensures failure == None && LoopWrites(listing, args) != [] ==> args.target in start.dirs
    ensures failure != None ==>
      LoopWrites(listing, args) != [] && args.target !in start.dirs && state == start && written == [] &&
      failure == Some(NoSuchDirectory(FirstPath(listing, args)))
  {
    state, written, mergedBytes, failure := start, [], [], None;
    for i := 0 to |listing|
      invariant written == LoopWrites(listing[..i], args)
      invariant state == Replay(start, written)
      invariant state.dirs == start.dirs
      invariant mergedBytes == Buffer(listing[..i], args)
      invariant !(args.raw && args.merge) && i > 0 ==> args.target in start.dirs
    {
      var o := listing[i];
      var path := Join(args.target, Basename(o.key));
      if !args.raw || !args.merge {
        var ok;
        state, ok := WriteFile(state, path, o.payload);
        if !ok {
          assert written == [] by { assert listing[..0] == []; }
          failure := Some(NoSuchDirectory(path));
          return;
        }
        ReplayStep(start, written, Write(path, o.payload));
        LoopWritesStep(listing, args, i);
        written := written + [Write(path, o.payload)];
      } else {
        MergedContentStep(listing, i);
        mergedBytes := mergedBytes + o.payload + [Newline];
      }
    }
    assert listing[..|listing|] == listing;
  }

  /**
   * The merge step after the loop: with `merge`, the buffer is written to the
   * merged file in the target directory, which fails, changing nothing, when
   * that directory is missing; without `merge` nothing happens.
   */
  method SaveMerged(args: Args, start: Disk, mergedBytes: Bytes)
    returns (state: Disk, written: seq<Effect>, failure: Option<Failure>)
    ensures !args.merge ==> state == start && written == [] && failure == None
    ensures args.merge ==> (failure == None <==> args.target in start.dirs)
    ensures args.merge && failure == None ==>
      written == [Write(MergedPath(args), mergedBytes)] && state == Replay(start, written)
    ensures failure != None ==>
      state == start && written == [] && failure == Some(NoSuchDirectory(MergedPath(args)))
  {
    state, written, failure := start, [], None;
    if args.merge {
      var path := MergedPath(args);
      var ok;
      state, ok := WriteFile(start, path, mergedBytes);
      if !ok {
        failure := Some(NoSuchDirectory(path));
        return;
      }
      ReplayStep(start, [], Write(path, mergedBytes));
      written := [Write(path, mergedBytes)];
    }
  }

  /** The loop's writes followed by the merge step's write make up the plan, replayed in two parts. */
  lemma PlanInTwoParts(disk: Disk, listing: seq<Object>, args: Args, merged: seq<Effect>)
    requires merged == if args.merge then [Write(MergedPath(args), Buffer(listing, args))] else []
    ensures Setup(args) + LoopWrites(listing, args) + merged == Setup(args) + Plan(listing, args)
    ensures Replay(Replay(Replay(disk, Setup(args)), LoopWrites(listing, args)), merged)
         == Replay(disk, Setup(args) + Plan(listing, args))
  {
    var loop := LoopWrites(listing, args);
    assert Setup(args) + loop + merged == Setup(args) + (loop + merged);
    ReplayAppend(disk, Setup(args), loop + merged);
    ReplayAppend(Replay(disk, Setup(args)), loop, merged);
  }

  /** The `download` command, step by step as the source performs it. */
  method Download(objects: seq<Object>, args: Args, disk: Disk) returns (run: Run)
    ensures run == Outcome(objects, args, disk)
  {
    var ready := disk;
    var journal: seq<Effect> := [];
    if args.newDir {
      ready := ready.(dirs := ready.dirs + {args.target});
      journal := [MakeDirs(args.target)];
      ReplayStep(disk, [], MakeDirs(args.target));
    }
    assert ready == Replay(disk, Setup(args)) && journal == Setup(args);
    var listing := Listing(objects, args.prefix);
    var state, loop, mergedBytes, failure := SaveObjects(listing, args, ready);
    if failure != None {
      OutcomeAborted(objects, args, disk);
      run := Run(state, journal, failure);
      return;
    }
    var merged;
    state, merged, failure := SaveMerged(args, state, mergedBytes);
    if failure != None {
      assert loop == [];
      OutcomeAborted(objects, args, disk);
      run := Run(state, journal, failure);
      return;
    }
    PlanInTwoParts(disk, listing, args, merged);
    OutcomeCompleted(objects, args, disk);
    run := Run(state, journal + loop + merged, None);
  }
}
