/**
The three-way scan (pkg/fs/daemon_v2_5.go): disk against log against the
previous scan.

Windows path policy is off and files are stable and readable. Deletes go
straight to the log; new and changed files and new directories go through the
outbox, whose drain records them later.
*/
module DiskScan {
  import opened Ordering
  import opened Sorting
  import opened OpsLog

  /** `links` gives the target of those files that are symlinks. */
  datatype Disk = Disk(rootExists: bool, files: map<string, string>, links: map<string, string>,
      emptyDirs: set<string>) {
    /** A missing root scans as an empty drive. */
    predicate Scannable() { !rootExists ==> files == map[] && emptyDirs == {} }

    /** A directory is reported as empty only if nothing below it is scanned. */
    ghost predicate EmptyDirsEmpty() {
      forall q, p :: q in emptyDirs && (p in files || p in emptyDirs) ==> !Under(q, p)
    }
  }

  // ---- What a scan reports ---------------------------------------------------------

  predicate IsChanged(snap: Snapshot, disk: Disk, p: string)
    requires p in disk.files
  {
    && p !in snap.deleted
    && (p !in snap.files || snap.files[p].checksum != disk.files[p])
    && !(p in disk.links && p in snap.files && snap.files[p].linkTarget == disk.links[p])
  }

  function Changed(snap: Snapshot, disk: Disk): set<string> {
    set p | p in disk.files && IsChanged(snap, disk, p)
  }

  /** Known to the log, gone from disk, and seen there by the saved scan. */
  function Vanished(snap: Snapshot, disk: Disk, saved: set<string>): set<string> {
    if disk.rootExists then set p | p in snap.files && p !in disk.files && p in saved else {}
  }

  function NewDirs(snap: Snapshot, disk: Disk): set<string> {
    set q | q in disk.emptyDirs && q !in snap.dirs
  }

  predicate RootGone(snap: Snapshot, disk: Disk) {
    !disk.rootExists && snap.deletedRoot.None?
  }

  predicate Quiet(snap: Snapshot, disk: Disk, saved: set<string>) {
    Changed(snap, disk) == {} && Vanished(snap, disk, saved) == {} && NewDirs(snap, disk) == {} && !RootGone(snap, disk)
  }

  /** One thing a scan asks for. */
  datatype Effect =
    | FileEffect(path: string, checksum: string, link: Option<string>)
    | DeleteEffect(path: string, namespace: string)
    | DirEffect(path: string)
    | RootEffect

  function FileEffectAt(disk: Disk, p: string): Effect
    requires p in disk.files
  {
    FileEffect(p, disk.files[p], if p in disk.links then Some(disk.links[p]) else None)
  }

  function FileEffects(snap: Snapshot, disk: Disk): set<Effect> {
    set p | p in Changed(snap, disk) :: FileEffectAt(disk, p)
  }

  function DeleteEffects(snap: Snapshot, disk: Disk, saved: set<string>): set<Effect> {
    set p | p in Vanished(snap, disk, saved) :: DeleteEffect(p, snap.files[p].namespace)
  }

  function DirEffects(snap: Snapshot, disk: Disk): set<Effect> {
    set q | q in NewDirs(snap, disk) :: DirEffect(q)
  }

  /** Everything a scan asks for: what goes to the log at once, what to the outbox. */
  function Logged(snap: Snapshot, disk: Disk, saved: set<string>): set<Effect> {
    DeleteEffects(snap, disk, saved) + (if RootGone(snap, disk) then {RootEffect} else {})
  }

  function Queued(snap: Snapshot, disk: Disk): set<Effect> {
    FileEffects(snap, disk) + DirEffects(snap, disk)
  }

  /** `es` lists `effects`, each once. */
  ghost predicate Listing(es: seq<Effect>, effects: set<Effect>) {
    (forall e :: e in es <==> e in effects) && forall i, j :: 0 <= i < j < |es| ==> es[i] != es[j]
  }

  /** The log and the disk agree about a file: same content, or the same link target. */
  predicate AgreesAt(snap: Snapshot, disk: Disk, p: string)
    requires p in disk.files
  {
    && p in snap.files
    && (snap.files[p].checksum == disk.files[p] || (p in disk.links && snap.files[p].linkTarget == disk.links[p]))
  }

  /** A scan is quiet exactly when the log agrees with every file on disk it has not
      deleted, has every empty directory, knows of no file gone since the saved scan,
      and knows whether the root is there. */
  lemma QuietIff(snap: Snapshot, disk: Disk, saved: set<string>)
    ensures Quiet(snap, disk, saved) <==>
      && (forall p :: p in disk.files && p !in snap.deleted ==> AgreesAt(snap, disk, p))
      && (forall q :: q in disk.emptyDirs ==> q in snap.dirs)
      && (disk.rootExists ==> forall p :: p in snap.files && p in saved ==> p in disk.files)
      && (disk.rootExists || snap.deletedRoot.Some?)
  {
    if forall p :: p in disk.files && p !in snap.deleted ==> AgreesAt(snap, disk, p) {
      assert Changed(snap, disk) == {};
    }
    forall p | p in disk.files && p !in snap.deleted && !AgreesAt(snap, disk, p) ensures p in Changed(snap, disk) {}
    if forall q :: q in disk.emptyDirs ==> q in snap.dirs { assert NewDirs(snap, disk) == {}; }
    forall q | q in disk.emptyDirs && q !in snap.dirs ensures q in NewDirs(snap, disk) {}
    if disk.rootExists ==> forall p :: p in snap.files && p in saved ==> p in disk.files {
      assert Vanished(snap, disk, saved) == {};
    }
    forall p | disk.rootExists && p in snap.files && p in saved && p !in disk.files
      ensures p in Vanished(snap, disk, saved)
    {}
  }

  /** What a scan asks for: exactly the files the log does not agree with, with their
      content and, if they are links, their target; the files gone since the saved
      scan; the unknown empty directories; the missing root. */
  lemma ReportedIff(snap: Snapshot, disk: Disk, saved: set<string>, p: string, text: string, link: Option<string>)
    ensures FileEffect(p, text, link) in Queued(snap, disk) <==>
      && p in disk.files && p !in snap.deleted && !AgreesAt(snap, disk, p) && text == disk.files[p]
      && (link.Some? <==> p in disk.links) && (link.Some? ==> link.value == disk.links[p])
    ensures DirEffect(p) in Queued(snap, disk) <==> p in disk.emptyDirs && p !in snap.dirs
    ensures DeleteEffect(p, text) in Logged(snap, disk, saved) <==>
      disk.rootExists && p in snap.files && p !in disk.files && p in saved && text == snap.files[p].namespace
    ensures RootEffect in Logged(snap, disk, saved) <==> !disk.rootExists && snap.deletedRoot.None?
    ensures forall e :: e in Queued(snap, disk) ==> e.FileEffect? || e.DirEffect?
    ensures forall e :: e in Logged(snap, disk, saved) ==> e.DeleteEffect? || e.RootEffect?
  {
    assert p in Changed(snap, disk) <==> p in disk.files && p !in snap.deleted && !AgreesAt(snap, disk, p);
    if p in disk.files && FileEffect(p, text, link) == FileEffectAt(disk, p) && p in Changed(snap, disk) {
      assert FileEffect(p, text, link) in FileEffects(snap, disk);
    }
  }

  // ---- The record of the previous scan ------------------------------------------------

  /** The stored path list: sorted, without the empty path. */
  method SaveLocalDiskState(files: map<string, string>) returns (paths: seq<string>)
    ensures Ascending(paths) && (set p | p in paths) == files.Keys - {""}
  {
    paths := SortedKeys(files.Keys - {""});
  }

  method LoadLocalDiskState(paths: seq<string>) returns (saved: set<string>)
    ensures saved == (set p | p in paths) - {""}
  {
    saved := {};
    for i := 0 to |paths|
      invariant saved == (set p | p in paths[..i]) - {""}
    {
      assert paths[..i + 1] == paths[..i] + [paths[i]];
      if paths[i] != "" { saved := saved + {paths[i]}; }
    }
    assert paths[..|paths|] == paths;
  }

  // ---- Whole runs -------------------------------------------------------------------------

  /** One completed scan. The log and the disk it finds are arbitrary; reading or
      writing the stored state may fail. */
  datatype ScanRun = ScanRun(snap: Snapshot, disk: Disk, loadOk: bool, saveOk: bool)

  datatype Memory = Memory(stored: set<string>, lastSeen: set<string>, everSeen: set<string>, deleted: set<string>)

  function Completed(m: Memory, r: ScanRun): Memory {
    var gone := Vanished(r.snap, r.disk, if r.loadOk then m.stored else {});
    var seen := r.disk.files.Keys - {""};
    Memory(if r.saveOk then seen else m.stored, seen, m.everSeen + seen, gone)
  }

  function Scans(rs: seq<ScanRun>): Memory {
    if rs == [] then Memory({}, {}, {}, {}) else Completed(Scans(rs[..|rs| - 1]), rs[|rs| - 1])
  }

  lemma {:induction false} StoredWasSeen(rs: seq<ScanRun>)
    ensures Scans(rs).stored <= Scans(rs).everSeen
    ensures rs == [] || rs[|rs| - 1].saveOk ==> Scans(rs).stored == Scans(rs).lastSeen
  {
    if rs != [] { StoredWasSeen(rs[..|rs| - 1]); }
  }

  /** What a scan deletes: with a readable record, the known files it lists that are no
      longer on disk; and what the next record will hold if it can be stored. */
  lemma {:induction false} ScanMeans(rs: seq<ScanRun>, r: ScanRun, p: string)
    ensures p in Scans(rs + [r]).deleted <==>
      r.loadOk && r.disk.rootExists && p in r.snap.files && p !in r.disk.files && p in Scans(rs).stored
    ensures p in Scans(rs + [r]).lastSeen <==> p in r.disk.files && p != ""
    ensures Scans(rs + [r]).stored == if r.saveOk then Scans(rs + [r]).lastSeen else Scans(rs).stored
  {
    assert (rs + [r])[..|rs|] == rs;
  }

  /** A scan deletes only files that some earlier scan saw on this disk, and none
      that are there now: what is known from elsewhere and was never materialised
      is left alone. */
  lemma {:induction false} DeletesOnlySeenFiles(rs: seq<ScanRun>, r: ScanRun)
    ensures Scans(rs + [r]).deleted <= Scans(rs).everSeen
    ensures Scans(rs + [r]).deleted !! r.disk.files.Keys
  {
    assert (rs + [r])[..|rs|] == rs;
    StoredWasSeen(rs);
  }

  /** Whatever the next scan finds, it deletes only what the last one saw, exactly
      when the stored record holds nothing else. */
  lemma {:induction false} DeletesLastSeenIff(rs: seq<ScanRun>)
    ensures (forall r :: Scans(rs + [r]).deleted <= Scans(rs).lastSeen) <==> Scans(rs).stored <= Scans(rs).lastSeen
  {
    var m := Scans(rs);
    forall r ensures Scans(rs + [r]) == Completed(m, r) { assert (rs + [r])[..|rs|] == rs; }
    if !(m.stored <= m.lastSeen) {
      var p :| p in m.stored && p !in m.lastSeen;
      var known := EmptySnapshot.(files := map[p := FileInfo([], 0, 0, "", "", "", "", 0, "")]);
      var r := ScanRun(known, Disk(true, map[], map[], {}), true, true);
      assert p in Completed(m, r).deleted;
      assert !(Scans(rs + [r]).deleted <= m.lastSeen);
    }
  }

  /** It is enough that the last scan's record was stored. */
  lemma {:induction false} StoredRecordIsEnough(rs: seq<ScanRun>, r: ScanRun)
    requires rs == [] || rs[|rs| - 1].saveOk
    ensures Scans(rs + [r]).deleted <= Scans(rs).lastSeen
  {
    StoredWasSeen(rs);
    DeletesLastSeenIff(rs);
  }

  /** One unstored record is enough for a scan to delete a file the last completed
      scan did not see. */
  lemma {:induction false} UnstoredScanDeletesUnseen(p: string, fi: FileInfo)
    requires p != ""
    ensures
      var there := Disk(true, map[p := fi.checksum], map[], {});
      var gone := Disk(true, map[], map[], {});
      var known := EmptySnapshot.(files := map[p := fi]);
      var m := Scans([ScanRun(known, there, true, true), ScanRun(known, gone, true, false)]);
      p !in m.lastSeen && p in Completed(m, ScanRun(known, gone, true, true)).deleted
  {
    var there, gone := Disk(true, map[p := fi.checksum], map[], {}), Disk(true, map[], map[], {});
    var known := EmptySnapshot.(files := map[p := fi]);
    var r1, r2 := ScanRun(known, there, true, true), ScanRun(known, gone, true, false);
    assert [r1, r2][..1] == [r1] && [r1][..0] == [];
    assert Scans([r1]).stored == {p};
  }

  // ---- The scan ---------------------------------------------------------------------------

  lemma ListMore(es: seq<Effect>, effects: set<Effect>, e: Effect)
    requires Listing(es, effects) && e !in effects
    ensures Listing(es + [e], effects + {e})
  {}

  lemma ListBoth(xs: seq<Effect>, a: set<Effect>, ys: seq<Effect>, b: set<Effect>)
    requires Listing(xs, a) && Listing(ys, b) && a !! b
    ensures Listing(xs + ys, a + b)
  {
    forall i, j | 0 <= i < j < |xs + ys| ensures (xs + ys)[i] != (xs + ys)[j] {
      if i < |xs| <= j { assert xs[i] in a && ys[j - |xs|] in b; }
    }
  }

  /** The loop over the files on disk. */
  method ScanFiles(snap: Snapshot, disk: Disk) returns (es: seq<Effect>)
    ensures Listing(es, FileEffects(snap, disk))
  {
    es := [];
    var pending := disk.files.Keys;
    ghost var found: set<Effect> := {};
    while pending != {}
      invariant pending <= disk.files.Keys && Listing(es, found)
      invariant found == set p | p in disk.files && p !in pending && IsChanged(snap, disk, p) :: FileEffectAt(disk, p)
      decreases pending
    {
      var p :| p in pending;
      pending := pending - {p};
      if IsChanged(snap, disk, p) {
        ListMore(es, found, FileEffectAt(disk, p));
        es, found := es + [FileEffectAt(disk, p)], found + {FileEffectAt(disk, p)};
      }
    }
    assert found == FileEffects(snap, disk);
  }

  /** The loop over the files the log knows. */
  method ScanKnown(snap: Snapshot, disk: Disk, saved: set<string>) returns (es: seq<Effect>)
    requires disk.rootExists
    ensures Listing(es, DeleteEffects(snap, disk, saved))
  {
    es := [];
    var pending := snap.files.Keys;
    ghost var found: set<Effect> := {};
    while pending != {}
      invariant pending <= snap.files.Keys && Listing(es, found)
      invariant found == set p | p in snap.files && p !in pending && p !in disk.files
        && p in saved :: DeleteEffect(p, snap.files[p].namespace)
      decreases pending
    {
      var p :| p in pending;
      pending := pending - {p};
      if p !in disk.files && p in saved {
        ListMore(es, found, DeleteEffect(p, snap.files[p].namespace));
        es, found := es + [DeleteEffect(p, snap.files[p].namespace)],
            found + {DeleteEffect(p, snap.files[p].namespace)};
      }
    }
    assert found == DeleteEffects(snap, disk, saved);
  }

  method ScanDirs(snap: Snapshot, disk: Disk) returns (es: seq<Effect>)
    ensures Listing(es, DirEffects(snap, disk))
  {
    es := [];
    var pending := disk.emptyDirs;
    ghost var found: set<Effect> := {};
    while pending != {}
      invariant pending <= disk.emptyDirs && Listing(es, found)
      invariant found == set q | q in disk.emptyDirs && q !in pending && q !in snap.dirs :: DirEffect(q)
      decreases pending
    {
      var q :| q in pending;
      pending := pending - {q};
      if q !in snap.dirs {
        ListMore(es, found, DirEffect(q));
        es, found := es + [DirEffect(q)], found + {DirEffect(q)};
      }
    }
    assert found == DirEffects(snap, disk);
  }

  /** Files first, then deletes or the root's, then directories; Go visits each
      map in an order of its own. */
  method Scan(snap: Snapshot, disk: Disk, saved: set<string>) returns (logged: seq<Effect>, queued: seq<Effect>)
    ensures Listing(logged, Logged(snap, disk, saved)) && Listing(queued, Queued(snap, disk))
  {
    var files := ScanFiles(snap, disk);
    logged := [];
    if disk.rootExists {
      logged := ScanKnown(snap, disk, saved);
    } else if snap.deletedRoot.None? {
      logged := [RootEffect];
    }
    var dirs := ScanDirs(snap, disk);
    queued := files + dirs;
    ListBoth(files, FileEffects(snap, disk), dirs, DirEffects(snap, disk));
  }
}
