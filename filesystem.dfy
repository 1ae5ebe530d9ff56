/**
 * The local disk as `download` uses it: a set of existing directories and a
 * map from file path to file content, changed by a journal of effects applied
 * in order.
 */
module FileSystem {
  import opened Storage
  import opened Paths

  datatype Disk = Disk(dirs: set<string>, files: map<Path, Bytes>)

  /**
   * One change to the disk: `os.makedirs(dir, exist_ok=True)`, or opening a
   * file with mode `'wb'` and writing `content` into it (creating or
   * truncating it).
   */
  datatype Effect = MakeDirs(dir: string) | Write(path: Path, content: Bytes)

  function Apply(disk: Disk, e: Effect): Disk
  {
    match e
    case MakeDirs(dir) => disk.(dirs := disk.dirs + {dir})
    case Write(path, content) => disk.(files := disk.files[path := content])
  }

  /** The disk after applying the journal's effects in order, first to last. */
  function Replay(disk: Disk, journal: seq<Effect>): Disk
  {
    if journal == [] then disk
    else Apply(Replay(disk, journal[..|journal| - 1]), journal[|journal| - 1])
  }

  /** Replaying one more effect applies it to the disk replayed so far. */
  lemma ReplayStep(disk: Disk, journal: seq<Effect>, e: Effect)
    ensures Replay(disk, journal + [e]) == Apply(Replay(disk, journal), e)
  {
    assert (journal + [e])[..|journal|] == journal;
  }

  /** The directories a journal creates. */
  function DirsMade(journal: seq<Effect>): set<string>
  {
    set e | e in journal && e.MakeDirs? :: e.dir
  }

  /** The paths a journal writes to. */
  function PathsWritten(journal: seq<Effect>): set<Path>
  {
    set e | e in journal && e.Write? :: e.path
  }

  /** The net effect of a journal's writes: each path written, with the content last written to it. */
  function NetWrites(journal: seq<Effect>): map<Path, Bytes>
  {
    if journal == [] then map[]
    else
      var rest := NetWrites(journal[..|journal| - 1]);
      match journal[|journal| - 1]
      case MakeDirs(_) => rest
      case Write(path, content) => rest[path := content]
  }

  /** The paths NetWrites holds are exactly the paths written to. */
  lemma {:induction false} NetWritesPaths(journal: seq<Effect>)
    ensures NetWrites(journal).Keys == PathsWritten(journal)
  {
    if journal != [] {
      var init := journal[..|journal| - 1];
      NetWritesPaths(init);
      assert journal == init + [journal[|journal| - 1]];
    }
  }

  /** Last write wins: a write no later write overrides is what NetWrites holds for its path. */
  lemma {:induction false} NetWritesLast(journal: seq<Effect>, i: nat)
    requires i < |journal| && journal[i].Write?
    requires forall j :: i < j < |journal| && journal[j].Write? ==> journal[j].path != journal[i].path
    ensures journal[i].path in NetWrites(journal)
    ensures NetWrites(journal)[journal[i].path] == journal[i].content
  {
    if i < |journal| - 1 {
      NetWritesLast(journal[..|journal| - 1], i);
    }
  }

  /** Replaying a journal adds the directories it makes and overlays the files it writes. */
  lemma {:induction false} ReplayNet(disk: Disk, journal: seq<Effect>)
    ensures Replay(disk, journal) == Disk(disk.dirs + DirsMade(journal), disk.files + NetWrites(journal))
  {
    if journal != [] {
      var init := journal[..|journal| - 1];
      ReplayNet(disk, init);
      assert journal == init + [journal[|journal| - 1]];
    }
  }

  /** Replaying two journals one after the other is replaying their concatenation. */
  lemma {:induction false} ReplayAppend(disk: Disk, a: seq<Effect>, b: seq<Effect>)
    ensures Replay(disk, a + b) == Replay(Replay(disk, a), b)
  {
    if b == [] {
      assert a + b == a;
    } else {
      var init := b[..|b| - 1];
      assert (a + b)[..|a + b| - 1] == a + init;
      ReplayAppend(disk, a, init);
    }
  }

  /** Replaying a journal on the disk it produced changes nothing more. */
  lemma ReplayTwice(disk: Disk, journal: seq<Effect>)
    ensures Replay(Replay(disk, journal), journal) == Replay(disk, journal)
  {
    var once := Replay(disk, journal);
    ReplayNet(disk, journal);
    ReplayNet(once, journal);
    var net := NetWrites(journal);
    assert (disk.files + net) + net == disk.files + net;
  }
}
