/** Garbage collection of the shared agent binaries: every directory under the
    shared binary root that no volume uses and that is no tenant's latest
    version is removed, in listing order, stopping at the first failure. */
module SharedImages {
  import opened Wrappers
  import opened Failures
  import opened Paths
  import opened MetadataAccess

  /** One entry of a directory listing. */
  datatype DirEntry = DirEntry(name: string, isDir: bool)

  /** The state of the shared binary root directory itself. */
  datatype RootState = Present | Absent | Unreadable

  ghost predicate DistinctNames(entries: seq<DirEntry>)
  {
    forall j, k :: 0 <= j < k < |entries| ==> entries[j].name != entries[k].name
  }

  /** The entries that survive removing every directory in `gone`. */
  function Removed(entries: seq<DirEntry>, gone: set<Path>): (r: seq<DirEntry>)
    ensures |r| <= |entries|
  {
    if entries == [] then []
    else
      var rest := Removed(entries[1..], gone);
      if SharedBinaryDir(entries[0].name) in gone then rest else [entries[0]] + rest
  }

  /** Removal keeps exactly the entries whose directory is not removed. */
  lemma {:induction false} RemovedMembers(entries: seq<DirEntry>, gone: set<Path>, e: DirEntry)
    ensures e in Removed(entries, gone) <==> e in entries && SharedBinaryDir(e.name) !in gone
  {
    if entries != [] {
      RemovedMembers(entries[1..], gone, e);
      assert e in entries <==> e == entries[0] || e in entries[1..];
    }
  }

  lemma {:induction false} RemovedDistinct(entries: seq<DirEntry>, gone: set<Path>)
    requires DistinctNames(entries)
    ensures DistinctNames(Removed(entries, gone))
  {
    if entries != [] {
      RemovedDistinct(entries[1..], gone);
      var rest := Removed(entries[1..], gone);
      forall e | e in rest ensures e.name != entries[0].name {
        RemovedMembers(entries[1..], gone, e);
        var k :| 0 <= k < |entries[1..]| && entries[1..][k] == e;
        assert entries[k + 1] == e;
      }
    }
  }

  lemma {:induction false} RemovedTwice(entries: seq<DirEntry>, a: set<Path>, b: set<Path>)
    ensures Removed(Removed(entries, a), b) == Removed(entries, a + b)
  {
    if entries != [] {
      RemovedTwice(entries[1..], a, b);
    }
  }

  /** The filesystem as garbage collection sees it: the shared binary root and
      its children, in the order a listing returns them. */
  class FileSystem {
    var root: RootState
    var entries: seq<DirEntry>
    /** The directories whose `RemoveAll` fails. */
    const removeFaults: set<Path>

    ghost predicate Valid()
      reads this
    {
      (root != Present ==> entries == []) && DistinctNames(entries)
    }

    constructor (root: RootState, entries: seq<DirEntry>, removeFaults: set<Path>)
      requires root != Present ==> entries == []
      requires DistinctNames(entries)
      ensures Valid()
      ensures this.root == root && this.entries == entries && this.removeFaults == removeFaults
    {
      this.root := root;
      this.entries := entries;
      this.removeFaults := removeFaults;
    }

    /** Listing of the shared binary root: its entries, or an error that says
        whether the directory is absent. */
    method ReadDirBase() returns (r: Result<seq<DirEntry>, bool>)
      ensures r == match root
        case Present => Success(entries)
        case Absent => Failure(true)
        case Unreadable => Failure(false)
    {
      match root
      case Present => r := Success(entries);
      case Absent => r := Failure(true);
      case Unreadable => r := Failure(false);
    }

    /** Recursive removal. Removing something that does not exist succeeds. */
    method RemoveAll(dir: Path) returns (err: Option<Error>)
      requires Valid()
      modifies this
      ensures Valid()
      ensures err == (if dir in removeFaults then Some(RemoveError(dir)) else None)
      ensures err.Some? ==> root == old(root) && entries == old(entries)
      ensures err.None? && dir == SharedBinaryDirBase ==> root == Absent && entries == []
      ensures err.None? && dir != SharedBinaryDirBase ==> root == old(root) && entries == Removed(old(entries), {dir})
    {
      if dir in removeFaults {
        return Some(RemoveError(dir));
      }
      if dir == SharedBinaryDirBase {
        root, entries := Absent, [];
      } else {
        RemovedDistinct(entries, {dir});
        entries := Removed(entries, {dir});
      }
      return None;
    }
  }

  /** `getSharedImageDirs`: an absent root lists as empty, any other listing
      error is returned. */
  method GetSharedImageDirs(fs: FileSystem) returns (r: Result<seq<DirEntry>, Error>)
    ensures r == ImageDirs(fs.root, fs.entries)
  {
    var listing := fs.ReadDirBase();
    if listing.Failure? && listing.error {
      return Success([]);
    }
    if listing.Failure? {
      return Failure(ReadDirError(SharedBinaryDirBase));
    }
    return Success(listing.value);
  }

  function ImageDirs(root: RootState, entries: seq<DirEntry>): (r: Result<seq<DirEntry>, Error>)
    ensures r.Failure? <==> root == Unreadable
    ensures r.Success? ==> r.value == (if root == Absent then [] else entries)
  {
    match root
    case Present => Success(entries)
    case Absent => Success([])
    case Unreadable => Failure(ReadDirError(SharedBinaryDirBase))
  }

  /** A version is protected when the used-versions set or the latest-versions
      set maps it to true. */
  predicate Protected(name: string, used: map<string, bool>, latest: map<string, bool>)
  {
    (name in used && used[name]) || (name in latest && latest[name])
  }

  /** The shared binary directories of the unprotected directory entries, in
      listing order. */
  function UnusedAgentBins(dirs: seq<DirEntry>, used: map<string, bool>, latest: map<string, bool>): seq<Path>
  {
    if dirs == [] then []
    else
      var last := dirs[|dirs| - 1];
      UnusedAgentBins(dirs[..|dirs| - 1], used, latest)
        + if last.isDir && !Protected(last.name, used, latest) then [SharedBinaryDir(last.name)] else []
  }

  /** A scheduled path is the shared binary directory of an unprotected
      directory entry, and every unprotected directory entry is scheduled. */
  lemma {:induction false} UnusedAgentBinsExactly(dirs: seq<DirEntry>, used: map<string, bool>, latest: map<string, bool>, p: Path)
    ensures p in UnusedAgentBins(dirs, used, latest) <==>
      exists e :: e in dirs && e.isDir && !Protected(e.name, used, latest) && p == SharedBinaryDir(e.name)
  {
    if dirs != [] {
      var init := dirs[..|dirs| - 1];
      UnusedAgentBinsExactly(init, used, latest, p);
      assert dirs == init + [dirs[|dirs| - 1]];
      assert forall e :: e in dirs <==> e in init || e == dirs[|dirs| - 1];
    }
  }

  /** Protected versions are never scheduled. */
  lemma UnusedAgentBinsSpareProtected(dirs: seq<DirEntry>, used: map<string, bool>, latest: map<string, bool>, name: string)
    requires Protected(name, used, latest)
    ensures SharedBinaryDir(name) !in UnusedAgentBins(dirs, used, latest)
  {
    UnusedAgentBinsExactly(dirs, used, latest, SharedBinaryDir(name));
  }

  /** In a listing with distinct names, a file is never scheduled. */
  lemma UnusedAgentBinsSpareFiles(dirs: seq<DirEntry>, used: map<string, bool>, latest: map<string, bool>, i: nat)
    requires DistinctNames(dirs)
    requires i < |dirs| && !dirs[i].isDir
    ensures SharedBinaryDir(dirs[i].name) !in UnusedAgentBins(dirs, used, latest)
  {
    UnusedAgentBinsExactly(dirs, used, latest, SharedBinaryDir(dirs[i].name));
  }

  /** Scheduled paths follow listing order: of two unprotected directories, the
      one listed first is scheduled first. */
  lemma {:induction false} UnusedAgentBinsInOrder(dirs: seq<DirEntry>, used: map<string, bool>, latest: map<string, bool>, i: nat, j: nat)
    requires i < j < |dirs|
    requires dirs[i].isDir && !Protected(dirs[i].name, used, latest)
    requires dirs[j].isDir && !Protected(dirs[j].name, used, latest)
    ensures exists a, b ::
      (0 <= a < b < |UnusedAgentBins(dirs, used, latest)|
       && UnusedAgentBins(dirs, used, latest)[a] == SharedBinaryDir(dirs[i].name)
       && UnusedAgentBins(dirs, used, latest)[b] == SharedBinaryDir(dirs[j].name))
  {
    var init := dirs[..|dirs| - 1];
    var bins := UnusedAgentBins(dirs, used, latest);
    var initBins := UnusedAgentBins(init, used, latest);
    assert bins[..|initBins|] == initBins;
    if j == |dirs| - 1 {
      UnusedAgentBinsExactly(init, used, latest, SharedBinaryDir(dirs[i].name));
      assert init[i] == dirs[i];
      var a :| 0 <= a < |initBins| && initBins[a] == SharedBinaryDir(dirs[i].name);
      assert bins[a] == initBins[a];
      assert bins[|initBins|] == SharedBinaryDir(dirs[j].name);
    } else {
      assert init[i] == dirs[i] && init[j] == dirs[j];
      UnusedAgentBinsInOrder(init, used, latest, i, j);
      var a, b :| 0 <= a < b < |initBins| && initBins[a] == SharedBinaryDir(dirs[i].name) && initBins[b] == SharedBinaryDir(dirs[j].name);
      assert bins[a] == initBins[a] && bins[b] == initBins[b];
    }
  }

  /** `getUsedAgentBins`: the versions of all volumes, or the store's error. */
  method GetUsedAgentBins(db: Store) returns (r: Result<map<string, bool>, Error>)
    ensures r == db.UsedVersionsResult()
    ensures r.Failure? <==> StoreOp.GetAllUsedVersions in db.faults
    ensures r.Failure? ==> r.error == StoreError(StoreOp.GetAllUsedVersions)
    ensures r.Success? ==> forall v :: (v in r.value && r.value[v]) <==> exists id :: id in db.volumes && db.volumes[id].version == v
  {
    r := db.GetAllUsedVersions();
  }

  /** `collectUnusedAgentBins`: reads the latest versions, then the used
      versions, and schedules every unprotected directory. */
  method CollectUnusedAgentBins(db: Store, imageDirs: seq<DirEntry>) returns (r: Result<seq<Path>, Error>)
    ensures r == Schedule(imageDirs, db.LatestVersionsResult(), db.UsedVersionsResult())
  {
    var setAgentBins := db.GetLatestVersions();
    if setAgentBins.Failure? {
      return Failure(setAgentBins.error);
    }
    var usedAgentBins := GetUsedAgentBins(db);
    if usedAgentBins.Failure? {
      return Failure(usedAgentBins.error);
    }
    var toDelete: seq<Path> := [];
    var i := 0;
    while i < |imageDirs|
      invariant 0 <= i <= |imageDirs|
      invariant toDelete == UnusedAgentBins(imageDirs[..i], usedAgentBins.value, setAgentBins.value)
    {
      assert imageDirs[..i + 1][..i] == imageDirs[..i];
      var imageDir := imageDirs[i];
      if imageDir.isDir {
        var agentBin := imageDir.name;
        if !(agentBin in usedAgentBins.value && usedAgentBins.value[agentBin])
          && !(agentBin in setAgentBins.value && setAgentBins.value[agentBin])
        {
          toDelete := toDelete + [SharedBinaryDir(agentBin)];
        }
      }
      i := i + 1;
    }
    assert imageDirs[..|imageDirs|] == imageDirs;
    return Success(toDelete);
  }

  /** What `collectUnusedAgentBins` yields for a listing and the store's answers. */
  function Schedule(dirs: seq<DirEntry>, latest: Result<map<string, bool>, Error>, used: Result<map<string, bool>, Error>): Result<seq<Path>, Error>
  {
    if latest.Failure? then Failure(latest.error)
    else if used.Failure? then Failure(used.error)
    else Success(UnusedAgentBins(dirs, used.value, latest.value))
  }

  /** The index of the first directory whose removal fails, or the length of
      `dirs` when none does. */
  function FirstFailing(dirs: seq<Path>, faults: set<Path>): (k: nat)
    ensures k <= |dirs|
    ensures forall j :: 0 <= j < k ==> dirs[j] !in faults
    ensures k < |dirs| ==> dirs[k] in faults
  {
    if dirs == [] || dirs[0] in faults then 0 else 1 + FirstFailing(dirs[1..], faults)
  }

  function Elements(dirs: seq<Path>): set<Path>
  {
    set j | 0 <= j < |dirs| :: dirs[j]
  }

  lemma FirstFailingAt(dirs: seq<Path>, faults: set<Path>, i: nat)
    requires i <= |dirs|
    requires forall j :: 0 <= j < i ==> dirs[j] !in faults
    requires i == |dirs| || dirs[i] in faults
    ensures FirstFailing(dirs, faults) == i
  {
  }

  lemma ElementsStep(dirs: seq<Path>, i: nat)
    requires i < |dirs|
    ensures Elements(dirs[..i + 1]) == Elements(dirs[..i]) + {dirs[i]}
  {
    var a, b := dirs[..i + 1], dirs[..i];
    assert a == b + [dirs[i]];
    forall p | p in Elements(a) ensures p in Elements(b) + {dirs[i]} {
      var j :| 0 <= j < |a| && a[j] == p;
      if j < i { assert b[j] == p; }
    }
    forall p | p in Elements(b) + {dirs[i]} ensures p in Elements(a) {
      if p == dirs[i] {
        assert a[i] == p;
      } else {
        var j :| 0 <= j < |b| && b[j] == p;
        assert a[j] == p;
      }
    }
  }

  /** `deleteImageDirs`: removes the directories in order; on the first failure
      the earlier ones are gone, the later ones untouched, and its error is
      returned. */
  method DeleteImageDirs(fs: FileSystem, imageDirs: seq<Path>) returns (err: Option<Error>)
    requires fs.Valid()
    requires SharedBinaryDirBase !in imageDirs
    modifies fs
    ensures fs.Valid() && fs.root == old(fs.root)
    ensures var k := FirstFailing(imageDirs, fs.removeFaults);
      && fs.entries == Removed(old(fs.entries), Elements(imageDirs[..k]))
      && err == (if k < |imageDirs| then Some(RemoveError(imageDirs[k])) else None)
  {
    ghost var before := fs.entries;
    assert Elements(imageDirs[..0]) == {};
    RemovedUnchanged(before);
    var i := 0;
    while i < |imageDirs|
      invariant 0 <= i <= |imageDirs|
      invariant fs.Valid() && fs.root == old(fs.root)
      invariant forall j :: 0 <= j < i ==> imageDirs[j] !in fs.removeFaults
      invariant fs.entries == Removed(before, Elements(imageDirs[..i]))
    {
      var dir := imageDirs[i];
      var e := fs.RemoveAll(dir);
      if e.Some? {
        FirstFailingAt(imageDirs, fs.removeFaults, i);
        return e;
      }
      RemovedTwice(before, Elements(imageDirs[..i]), {dir});
      ElementsStep(imageDirs, i);
      i := i + 1;
    }
    FirstFailingAt(imageDirs, fs.removeFaults, i);
    return None;
  }

  /** The directories one pass tries to remove, or the error that stops it
      before it removes anything. */
  function DeletionPlan(root: RootState, entries: seq<DirEntry>, latest: Result<map<string, bool>, Error>, used: Result<map<string, bool>, Error>): Result<seq<Path>, Error>
  {
    var dirs := ImageDirs(root, entries);
    if dirs.Failure? then Failure(dirs.error)
    else if dirs.value == [] then Success([])
    else Schedule(dirs.value, latest, used)
  }

  /** The listing after one pass. */
  function AfterGc(root: RootState, entries: seq<DirEntry>, latest: Result<map<string, bool>, Error>, used: Result<map<string, bool>, Error>, faults: set<Path>): seq<DirEntry>
  {
    var plan := DeletionPlan(root, entries, latest, used);
    if plan.Failure? then entries
    else Removed(entries, Elements(plan.value[..FirstFailing(plan.value, faults)]))
  }

  /** The error one pass returns. */
  function GcError(root: RootState, entries: seq<DirEntry>, latest: Result<map<string, bool>, Error>, used: Result<map<string, bool>, Error>, faults: set<Path>): Option<Error>
  {
    var plan := DeletionPlan(root, entries, latest, used);
    if plan.Failure? then Some(plan.error)
    else
      var k := FirstFailing(plan.value, faults);
      if k < |plan.value| then Some(RemoveError(plan.value[k])) else None
  }

  lemma UnusedAgentBinsAreBinaryDirs(dirs: seq<DirEntry>, used: map<string, bool>, latest: map<string, bool>)
    ensures SharedBinaryDirBase !in UnusedAgentBins(dirs, used, latest)
  {
    UnusedAgentBinsExactly(dirs, used, latest, SharedBinaryDirBase);
  }

  /** `runSharedImagesGarbageCollection`. */
  method RunSharedImagesGarbageCollection(fs: FileSystem, db: Store) returns (err: Option<Error>)
    requires fs.Valid()
    modifies fs
    ensures fs.Valid() && fs.root == old(fs.root)
    ensures fs.entries == AfterGc(old(fs.root), old(fs.entries), db.LatestVersionsResult(), db.UsedVersionsResult(), fs.removeFaults)
    ensures err == GcError(old(fs.root), old(fs.entries), db.LatestVersionsResult(), db.UsedVersionsResult(), fs.removeFaults)
  {
    var imageDirs := GetSharedImageDirs(fs);
    if imageDirs.Failure? {
      return Some(imageDirs.error);
    }
    if |imageDirs.value| == 0 {
      assert Elements([]) == {};
      RemovedUnchanged(fs.entries);
      return None;
    }
    var binsToDelete := CollectUnusedAgentBins(db, imageDirs.value);
    if binsToDelete.Failure? {
      return Some(binsToDelete.error);
    }
    if |binsToDelete.value| == 0 {
      assert Elements([]) == {};
      RemovedUnchanged(fs.entries);
      return None;
    }
    UnusedAgentBinsAreBinaryDirs(imageDirs.value, db.UsedVersionsResult().value, db.LatestVersionsResult().value);
    err := DeleteImageDirs(fs, binsToDelete.value);
  }

  lemma {:induction false} RemovedUnchanged(entries: seq<DirEntry>)
    ensures Removed(entries, {}) == entries
  {
    if entries != [] {
      RemovedUnchanged(entries[1..]);
    }
  }

  lemma ElementsPrefix(dirs: seq<Path>, k: nat, p: Path)
    requires k <= |dirs|
    ensures p in Elements(dirs[..k]) <==> exists j :: 0 <= j < k && dirs[j] == p
  {
    if p in Elements(dirs[..k]) {
      var j :| 0 <= j < k && dirs[..k][j] == p;
      assert dirs[j] == p;
    }
    if exists j :: 0 <= j < k && dirs[j] == p {
      var j :| 0 <= j < k && dirs[j] == p;
      assert dirs[..k][j] == p;
    }
  }

  /** Deleting stops at the first failing directory: an entry is gone exactly
      when its directory comes before that one in the list. */
  lemma DeletionStopsAtFirstFailure(entries: seq<DirEntry>, dirs: seq<Path>, faults: set<Path>, e: DirEntry)
    requires e in entries
    ensures var k := FirstFailing(dirs, faults);
      e !in Removed(entries, Elements(dirs[..k])) <==> exists j :: 0 <= j < k && dirs[j] == SharedBinaryDir(e.name)
  {
    var k := FirstFailing(dirs, faults);
    RemovedMembers(entries, Elements(dirs[..k]), e);
    ElementsPrefix(dirs, k, SharedBinaryDir(e.name));
  }

  /** A pass never removes a directory whose version a volume uses or that is
      some tenant's latest version. */
  lemma GcSparesProtected(root: RootState, entries: seq<DirEntry>, latest: map<string, bool>, used: map<string, bool>, faults: set<Path>, e: DirEntry)
    requires e in entries && Protected(e.name, used, latest)
    ensures e in AfterGc(root, entries, Success(latest), Success(used), faults)
  {
    var plan := DeletionPlan(root, entries, Success(latest), Success(used));
    if plan.Success? {
      var k := FirstFailing(plan.value, faults);
      var dirs := ImageDirs(root, entries).value;
      if dirs != [] {
        UnusedAgentBinsSpareProtected(dirs, used, latest, e.name);
      }
      ElementsPrefix(plan.value, k, SharedBinaryDir(e.name));
      RemovedMembers(entries, Elements(plan.value[..k]), e);
    }
  }

  /** With a readable root, readable store and no failing removal, one pass
      leaves only files and protected directories. */
  lemma GcRemovesUnprotected(entries: seq<DirEntry>, latest: map<string, bool>, used: map<string, bool>, faults: set<Path>, e: DirEntry)
    requires forall d :: d in entries ==> SharedBinaryDir(d.name) !in faults
    requires e in entries && e.isDir && !Protected(e.name, used, latest)
    ensures e !in AfterGc(Present, entries, Success(latest), Success(used), faults)
    ensures GcError(Present, entries, Success(latest), Success(used), faults) == None
  {
    var plan := UnusedAgentBins(entries, used, latest);
    assert DeletionPlan(Present, entries, Success(latest), Success(used)) == Success(plan);
    forall j | 0 <= j < |plan| ensures plan[j] !in faults {
      UnusedAgentBinsExactly(entries, used, latest, plan[j]);
    }
    FirstFailingAt(plan, faults, |plan|);
    assert plan[..|plan|] == plan;
    UnusedAgentBinsExactly(entries, used, latest, SharedBinaryDir(e.name));
    var j :| 0 <= j < |plan| && plan[j] == SharedBinaryDir(e.name);
    DeletionStopsAtFirstFailure(entries, plan, faults, e);
  }

  /** A missing shared root is no error and removes nothing; a failing listing
      or store read is returned and removes nothing. */
  lemma GcFailsBeforeRemoving(root: RootState, entries: seq<DirEntry>, latest: Result<map<string, bool>, Error>, used: Result<map<string, bool>, Error>, faults: set<Path>)
    ensures root == Absent ==>
      AfterGc(root, entries, latest, used, faults) == entries && GcError(root, entries, latest, used, faults) == None
    ensures root == Unreadable ==>
      AfterGc(root, entries, latest, used, faults) == entries
      && GcError(root, entries, latest, used, faults) == Some(ReadDirError(SharedBinaryDirBase))
    ensures root == Present && entries != [] && latest.Failure? ==>
      AfterGc(root, entries, latest, used, faults) == entries && GcError(root, entries, latest, used, faults) == Some(latest.error)
    ensures root == Present && entries != [] && latest.Success? && used.Failure? ==>
      AfterGc(root, entries, latest, used, faults) == entries && GcError(root, entries, latest, used, faults) == Some(used.error)
  {
    if root == Absent {
      assert Elements([]) == {};
      RemovedUnchanged(entries);
    }
  }

  /** When nothing is unprotected the pass changes nothing and succeeds. */
  lemma GcNothingToDelete(entries: seq<DirEntry>, latest: map<string, bool>, used: map<string, bool>, faults: set<Path>)
    requires forall e :: e in entries && e.isDir ==> Protected(e.name, used, latest)
    ensures AfterGc(Present, entries, Success(latest), Success(used), faults) == entries
    ensures GcError(Present, entries, Success(latest), Success(used), faults) == None
  {
    var plan := UnusedAgentBins(entries, used, latest);
    if plan != [] {
      UnusedAgentBinsExactly(entries, used, latest, plan[0]);
    }
    assert Elements([]) == {};
    RemovedUnchanged(entries);
  }
}
