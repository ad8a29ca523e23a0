/**
Scan, drain, scan again on an unchanged disk.

The first scan's effects become log entries, each with whatever clock it was
given. The second scan is quiet exactly when the log accepts each of them, and
whether it does can be read off the snapshot the first scan started from.
*/
module ScanQuiescence {
  import opened Ordering
  import opened OpsLog
  import opened DiskScan

  /** An effect with the clock its log entry is stamped with. */
  datatype Act = Act(effect: Effect, c: Clock)

  /** What the upload of some content stored. */
  type Uploads = string -> (seq<string>, int)

  function PrevOf(view: Snapshot, p: string): string {
    if p in view.files then view.files[p].checksum else ""
  }

  /** The entry appended for an effect, once the drain or the scan records it. */
  function EntryFor(view: Snapshot, a: Act, ns: string, up: Uploads): Entry {
    match a.effect
    case FileEffect(p, sum, None) =>
      Entry(Put, p, up(sum).0, up(sum).1, sum, PrevOf(view, p), "", ns, a.c.device, a.c.ts, a.c.seqNo)
    case FileEffect(p, sum, Some(link)) =>
      Entry(Symlink, p, [], 0, sum, PrevOf(view, p), link, ns, a.c.device, a.c.ts, a.c.seqNo)
    case DeleteEffect(p, pns) => Entry(Delete, p, [], 0, "", "", "", pns, a.c.device, a.c.ts, a.c.seqNo)
    case DirEffect(q) => Entry(CreateDir, q, [], 0, "", "", "", ns, a.c.device, a.c.ts, a.c.seqNo)
    case RootEffect => Entry(DeleteRoot, "", [], 0, "", "", "", ns, a.c.device, a.c.ts, a.c.seqNo)
  }

  ghost function ViewAfter(snap: Snapshot, acts: seq<Act>, ns: string, up: Uploads): Snapshot {
    if acts == [] then snap
    else
      var view := ViewAfter(snap, acts[..|acts| - 1], ns, up);
      Advance(view, EntryFor(view, acts[|acts| - 1], ns, up))
  }

  // ---- When the log accepts an effect -------------------------------------------------

  predicate AfterRoot(snap: Snapshot, c: Clock) {
    snap.deletedRoot.Some? ==> c.Beats(snap.deletedRoot.value.At())
  }

  /** No recorded directory deletion above `p` is as late as `c`. */
  ghost predicate Uncovered(snap: Snapshot, p: string, c: Clock) {
    forall d :: d in snap.deletedDirs && Under(d, p) ==> c.Beats(snap.deletedDirs[d].At())
  }

  /** The conditions a caller can check on the snapshot: the clock is later than
      the tombstones above, the file is not being put back to the content it was
      made from, and a file without a checksum is older. */
  ghost predicate Accepts(snap: Snapshot, a: Act) {
    && AfterRoot(snap, a.c)
    && match a.effect
       case FileEffect(p, sum, _) =>
         && Uncovered(snap, p, a.c)
         && (p in snap.files ==>
               && !Descends(snap.files[p].prevChecksum, sum)
               && (snap.files[p].checksum != "" || a.c.Beats(snap.files[p].At())))
       case DirEffect(q) =>
         && Uncovered(snap, q, a.c)
         && (q in snap.dirs ==> a.c.Beats(snap.dirs[q].At()))
         && (q in snap.deletedDirs ==> a.c.Beats(snap.deletedDirs[q].At()))
       case DeleteEffect(_, _) => true
       case RootEffect => true
  }

  lemma UncoveredMeans(snap: Snapshot, p: string, c: Clock)
    ensures Uncovered(snap, p, c) <==> !Covered(p, c, Load(snap).dirTombs)
  {
    var tombs := Load(snap).dirTombs;
    if !Uncovered(snap, p, c) {
      var d :| d in snap.deletedDirs && Under(d, p) && !c.Beats(snap.deletedDirs[d].At());
      assert d in tombs;
    }
  }

  lemma FileAdvance(view: Snapshot, a: Act, ns: string, up: Uploads)
    requires a.effect.FileEffect? && a.effect.path !in view.deleted
    ensures var e := EntryFor(view, a, ns, up);
      Advance(view, e) == if Accepts(view, a) then view.(files := view.files[e.path := FileOf(e)]) else view
  {
    var e, st := EntryFor(view, a, ns, up), Load(view);
    var p, sum := e.path, e.checksum;
    UncoveredMeans(view, p, a.c);
    assert e.At() == a.c && e.Writes() && (p in st.clocks <==> p in view.files);
    assert p in view.files ==> st.clocks[p] == view.files[p].At();
    assert view.deleted - {p} == view.deleted;
    hide Covered, Uncovered;
    assert PutLoses(st, e) <==>
      (p in view.files && (Descends(view.files[p].prevChecksum, sum)
          || (view.files[p].checksum == "" && !a.c.Beats(view.files[p].At()))));
  }

  lemma DirAdvance(view: Snapshot, a: Act, ns: string, up: Uploads)
    requires a.effect.DirEffect?
    ensures var e := EntryFor(view, a, ns, up);
      Advance(view, e) == if Accepts(view, a)
          then view.(dirs := view.dirs[e.path := DirOf(e)], deletedDirs := view.deletedDirs - {e.path}) else view
  {
    var e, st := EntryFor(view, a, ns, up), Load(view);
    assert e.At() == a.c && e.typ.CreateDir?;
    CreateTakesMeans(view, e);
    hide CreateTakes, Uncovered;
  }

  lemma CreateTakesMeans(view: Snapshot, e: Entry)
    ensures CreateTakes(Load(view), e) <==>
      && Uncovered(view, e.path, e.At())
      && (e.path in view.dirs ==> e.At().Beats(view.dirs[e.path].At()))
      && (e.path in view.deletedDirs ==> e.At().Beats(view.deletedDirs[e.path].At()))
  {
    UncoveredMeans(view, e.path, e.At());
    hide Covered, Uncovered;
    var q, st := e.path, Load(view);
    assert q in st.dirTombs <==> q in view.deletedDirs;
    assert q in st.dirClocks <==> q in view.dirs || q in view.deletedDirs;
    if q in view.deletedDirs && q in view.dirs && view.deletedDirs[q].At().Beats(view.dirs[q].At()) {
      if e.At().Beats(view.deletedDirs[q].At()) {
        BeatsTransitive(e.At(), view.deletedDirs[q].At(), view.dirs[q].At());
      }
    }
  }

  lemma DeleteAdvance(view: Snapshot, a: Act, ns: string, up: Uploads)
    requires a.effect.DeleteEffect?
    ensures var e := EntryFor(view, a, ns, up); var v := Advance(view, e);
      v == view || v == view.(files := view.files - {e.path}, deleted := view.deleted[e.path := TombOf(e)])
  {}

  // ---- How far the view has moved --------------------------------------------------------

  ghost predicate SameFile(s: Snapshot, t: Snapshot, p: string) {
    && (p in s.files <==> p in t.files) && (p in s.files ==> s.files[p] == t.files[p])
    && (p in s.deleted <==> p in t.deleted)
  }

  ghost predicate SameDir(s: Snapshot, t: Snapshot, q: string) {
    && (q in s.dirs <==> q in t.dirs) && (q in s.dirs ==> s.dirs[q] == t.dirs[q])
    && (q in s.deletedDirs <==> q in t.deletedDirs) && (q in s.deletedDirs ==> s.deletedDirs[q] == t.deletedDirs[q])
  }

  predicate OnFile(a: Act, p: string) { (a.effect.FileEffect? || a.effect.DeleteEffect?) && a.effect.path == p }

  predicate OnDir(a: Act, q: string) { a.effect.DirEffect? && a.effect.path == q }

  /** Tombstones only disappear, and only where an act creates their directory. */
  ghost predicate TombsFade(snap: Snapshot, view: Snapshot, acts: seq<Act>) {
    && view.deletedRoot == snap.deletedRoot
    && (forall d :: d in view.deletedDirs ==> d in snap.deletedDirs && view.deletedDirs[d] == snap.deletedDirs[d])
    && (forall d :: d in snap.deletedDirs && d !in view.deletedDirs ==>
        exists a :: a in acts && a.effect == DirEffect(d))
  }

  predicate FreeFile(acts: seq<Act>, p: string) { forall a :: a in acts ==> !OnFile(a, p) }

  predicate FreeDir(acts: seq<Act>, q: string) { forall a :: a in acts ==> !OnDir(a, q) }

  ghost predicate Untouched(snap: Snapshot, view: Snapshot, acts: seq<Act>) {
    && (forall p :: FreeFile(acts, p) ==> SameFile(snap, view, p))
    && (forall q :: FreeDir(acts, q) ==> SameDir(snap, view, q))
  }

  /** The view shows an accepted effect and nothing of a rejected one. */
  ghost predicate Shows(snap: Snapshot, view: Snapshot, a: Act) {
    match a.effect
    case FileEffect(p, sum, link) =>
      if Accepts(snap, a) then
        p in view.files && p !in view.deleted && view.files[p].checksum == sum
            && (link.Some? ==> view.files[p].linkTarget == link.value)
      else SameFile(snap, view, p)
    case DirEffect(q) => if Accepts(snap, a) then q in view.dirs else (q in snap.dirs <==> q in view.dirs)
    case DeleteEffect(_, _) => true
    case RootEffect => true
  }

  ghost predicate Moved(snap: Snapshot, view: Snapshot, acts: seq<Act>) {
    TombsFade(snap, view, acts) && Untouched(snap, view, acts) && forall a :: a in acts ==> Shows(snap, view, a)
  }

  /** Acts of one scan: one per path, nothing on deleted files, nothing below a new directory. */
  ghost predicate Proper(snap: Snapshot, acts: seq<Act>) {
    && (forall a, b :: a in acts && b in acts ==> !Shelters(a, b))
    && (forall i, j :: 0 <= i < j < |acts| && !acts[i].effect.RootEffect? && !acts[j].effect.RootEffect? ==>
          acts[i].effect.path != acts[j].effect.path || acts[i].effect.DirEffect? != acts[j].effect.DirEffect?)
    && (forall a :: a in acts ==> !a.effect.RootEffect? && (a.effect.FileEffect? ==> a.effect.path !in snap.deleted))
  }

  /** `a` creates a directory above what `b` brings. */
  predicate Shelters(a: Act, b: Act) {
    a.effect.DirEffect? && (b.effect.FileEffect? || b.effect.DirEffect?) && Under(a.effect.path, b.effect.path)
  }

  /** Tombstones of directories that are not above a path do not matter to it. */
  lemma UncoveredStable(snap: Snapshot, view: Snapshot, acts: seq<Act>, p: string, c: Clock)
    requires TombsFade(snap, view, acts) && forall a :: a in acts && a.effect.DirEffect? ==> !Under(a.effect.path, p)
    ensures Uncovered(view, p, c) <==> Uncovered(snap, p, c)
  {
    if Uncovered(view, p, c) {
      forall d | d in snap.deletedDirs && Under(d, p) ensures c.Beats(snap.deletedDirs[d].At()) {
        assert d in view.deletedDirs;
      }
    }
  }

  lemma AcceptsStable(snap: Snapshot, view: Snapshot, acts: seq<Act>, a: Act)
    requires Moved(snap, view, acts) && Proper(snap, acts + [a])
    ensures Accepts(view, a) <==> Accepts(snap, a)
    ensures a.effect.FileEffect? ==> SameFile(snap, view, a.effect.path)
    ensures a.effect.DirEffect? ==> SameDir(snap, view, a.effect.path)
  {
    ApartFrom(snap, acts, a);
    if a.effect.FileEffect? || a.effect.DirEffect? { UncoveredStable(snap, view, acts, a.effect.path, a.c); }
    if a.effect.FileEffect? { assert SameFile(snap, view, a.effect.path); }
    if a.effect.DirEffect? { assert SameDir(snap, view, a.effect.path); }
  }

  /** The last act of a proper sequence is on its own path, below none of the others. */
  lemma ApartFrom(snap: Snapshot, acts: seq<Act>, a: Act)
    requires Proper(snap, acts + [a])
    ensures !a.effect.RootEffect? && (a.effect.FileEffect? ==> a.effect.path !in snap.deleted)
    ensures forall x :: x in acts ==> !Shelters(x, a) && !x.effect.RootEffect?
    ensures a.effect.FileEffect? || a.effect.DeleteEffect? ==> FreeFile(acts, a.effect.path)
    ensures a.effect.DirEffect? ==> FreeDir(acts, a.effect.path)
  {
    var all := acts + [a];
    assert all[|acts|] == a && a in all;
    forall x | x in acts ensures !Shelters(x, a) && !x.effect.RootEffect?
      && (a.effect.path != x.effect.path || a.effect.DirEffect? != x.effect.DirEffect?)
    {
      assert x in all;
      var i :| 0 <= i < |acts| && acts[i] == x;
      assert all[i] == x;
    }
  }

  lemma StepTombs(snap: Snapshot, view: Snapshot, view': Snapshot, acts: seq<Act>, a: Act)
    requires TombsFade(snap, view, acts) && view'.deletedRoot == view.deletedRoot
    requires view'.deletedDirs == view.deletedDirs
      || (a.effect.DirEffect? && view'.deletedDirs == view.deletedDirs - {a.effect.path})
    ensures TombsFade(snap, view', acts + [a])
  {
    assert a in acts + [a];
    forall d | d in snap.deletedDirs && d !in view'.deletedDirs
      ensures exists x :: x in acts + [a] && x.effect == DirEffect(d)
    {
      if d !in view.deletedDirs {
        var x :| x in acts && x.effect == DirEffect(d);
        assert x in acts + [a];
      } else {
        assert a.effect == DirEffect(d);
      }
    }
  }

  /** An act changes only its own path. */
  ghost predicate OnlyAt(view: Snapshot, view': Snapshot, a: Act) {
    && (forall p :: !OnFile(a, p) ==> SameFile(view, view', p))
    && (forall q :: !OnDir(a, q) ==> SameDir(view, view', q))
  }

  lemma StepUntouched(snap: Snapshot, view: Snapshot, view': Snapshot, acts: seq<Act>, a: Act)
    requires Untouched(snap, view, acts) && OnlyAt(view, view', a)
    ensures Untouched(snap, view', acts + [a])
  {
    assert a in acts + [a];
    assert forall x :: x in acts ==> x in acts + [a];
    forall p | FreeFile(acts + [a], p) ensures SameFile(snap, view', p) { assert FreeFile(acts, p) && !OnFile(a, p); }
    forall q | FreeDir(acts + [a], q) ensures SameDir(snap, view', q) { assert FreeDir(acts, q) && !OnDir(a, q); }
  }

  lemma StepShows(snap: Snapshot, view: Snapshot, view': Snapshot, acts: seq<Act>, a: Act, x: Act)
    requires Proper(snap, acts + [a]) && x in acts && Shows(snap, view, x) && OnlyAt(view, view', a)
    ensures Shows(snap, view', x)
  {
    hide Accepts;
    ApartFrom(snap, acts, a);
    match x.effect
    case FileEffect(p, _, _) => assert SameFile(view, view', p);
    case DirEffect(q) => assert SameDir(view, view', q);
    case DeleteEffect(_, _) =>
    case RootEffect =>
  }

  lemma {:induction false} ViewMoves(snap: Snapshot, acts: seq<Act>, ns: string, up: Uploads)
    requires Proper(snap, acts)
    ensures Moved(snap, ViewAfter(snap, acts, ns, up), acts)
  {
    if acts != [] {
      var n := |acts| - 1;
      var front, a := acts[..n], acts[n];
      var view := ViewAfter(snap, front, ns, up);
      var view' := Advance(view, EntryFor(view, a, ns, up));
      assert ViewAfter(snap, acts, ns, up) == view' by { hide Advance, EntryFor, Moved, Proper; }
      ProperFront(snap, acts);
      hide ViewAfter, Advance, Moved, Proper, EntryFor;
      ViewMoves(snap, front, ns, up);
      assert acts == front + [a];
      MoveOne(snap, view, front, a, ns, up, view');
    } else {
      NothingMoved(snap);
    }
  }

  lemma NothingMoved(snap: Snapshot)
    ensures Moved(snap, snap, [])
  {}

  lemma ProperFront(snap: Snapshot, acts: seq<Act>)
    requires Proper(snap, acts) && acts != []
    ensures Proper(snap, acts[..|acts| - 1])
  {
    assert forall x :: x in acts[..|acts| - 1] ==> x in acts;
  }

  lemma MoveOne(snap: Snapshot, view: Snapshot, acts: seq<Act>, a: Act, ns: string, up: Uploads, view': Snapshot)
    requires Moved(snap, view, acts) && Proper(snap, acts + [a]) && view' == Advance(view, EntryFor(view, a, ns, up))
    ensures Moved(snap, view', acts + [a])
  {
    hide Advance;
    AcceptsStable(snap, view, acts, a);
    ApartFrom(snap, acts, a);
    OneAct(snap, view, a, ns, up, view');
    hide EntryFor, Accepts, OnlyAt;
    StepTombs(snap, view, view', acts, a);
    StepUntouched(snap, view, view', acts, a);
    forall x | x in acts + [a] ensures Shows(snap, view', x) {
      if x in acts { StepShows(snap, view, view', acts, a, x); }
    }
  }

  lemma OneAct(snap: Snapshot, view: Snapshot, a: Act, ns: string, up: Uploads, view': Snapshot)
    requires view' == Advance(view, EntryFor(view, a, ns, up)) && !a.effect.RootEffect?
    requires (Accepts(view, a) <==> Accepts(snap, a)) && (a.effect.FileEffect? ==> a.effect.path !in snap.deleted)
    requires a.effect.FileEffect? ==> SameFile(snap, view, a.effect.path)
    requires a.effect.DirEffect? ==> SameDir(snap, view, a.effect.path)
    ensures OnlyAt(view, view', a) && Shows(snap, view', a) && view'.deletedRoot == view.deletedRoot
    ensures view'.deletedDirs == view.deletedDirs
      || (a.effect.DirEffect? && view'.deletedDirs == view.deletedDirs - {a.effect.path})
  {
    hide Advance, Uncovered;
    match a.effect
    case FileEffect(p, sum, link) => FileAdvance(view, a, ns, up);
    case DirEffect(q) => DirAdvance(view, a, ns, up);
    case DeleteEffect(p, pns) => DeleteAdvance(view, a, ns, up);
  }

  // ---- Scanning again ------------------------------------------------------------------------

  /** The acts are one scan's effects, recorded in some order with some clocks. */
  ghost predicate Recorded(snap: Snapshot, disk: Disk, saved: set<string>, acts: seq<Act>) {
    Listing(seq(|acts|, i requires 0 <= i < |acts| => acts[i].effect), Logged(snap, disk, saved) + Queued(snap, disk))
  }

  lemma RecordedEffects(snap: Snapshot, disk: Disk, saved: set<string>, acts: seq<Act>)
    requires Recorded(snap, disk, saved, acts)
    ensures forall a :: a in acts ==> a.effect in Logged(snap, disk, saved) + Queued(snap, disk)
    ensures forall e :: e in Logged(snap, disk, saved) + Queued(snap, disk) ==> exists a :: a in acts && a.effect == e
    ensures forall i, j :: 0 <= i < j < |acts| ==> acts[i].effect != acts[j].effect
  {
    var es := seq(|acts|, i requires 0 <= i < |acts| => acts[i].effect);
    forall a | a in acts ensures a.effect in Logged(snap, disk, saved) + Queued(snap, disk) {
      var i :| 0 <= i < |acts| && acts[i] == a;
      assert es[i] in es;
    }
    forall e | e in Logged(snap, disk, saved) + Queued(snap, disk) ensures exists a :: a in acts && a.effect == e {
      var i :| 0 <= i < |es| && es[i] == e;
      assert acts[i] in acts;
    }
    forall i, j | 0 <= i < j < |acts| ensures acts[i].effect != acts[j].effect { assert es[i] != es[j]; }
  }

  /** No two effects of a scan are on one file or one directory. */
  lemma EffectsApart(snap: Snapshot, disk: Disk, saved: set<string>, e: Effect, f: Effect)
    requires disk.rootExists && e != f
    requires e in Logged(snap, disk, saved) + Queued(snap, disk) && f in Logged(snap, disk, saved) + Queued(snap, disk)
    ensures !e.RootEffect? && (e.FileEffect? ==> e.path !in snap.deleted)
    ensures !f.RootEffect? && (e.path != f.path || e.DirEffect? != f.DirEffect?)
  {}

  lemma RecordedIsProper(snap: Snapshot, disk: Disk, saved: set<string>, acts: seq<Act>)
    requires disk.rootExists && disk.EmptyDirsEmpty() && Recorded(snap, disk, saved, acts)
    ensures Proper(snap, acts)
  {
    RecordedEffects(snap, disk, saved, acts);
    ActsOnDisk(snap, disk, saved, acts);
    assert forall a, b :: a in acts && b in acts ==> !Shelters(a, b);
    hide Recorded, Logged, Queued, Shelters, Disk.EmptyDirsEmpty;
    forall i, j | 0 <= i < j < |acts|
      ensures acts[i].effect.path != acts[j].effect.path || acts[i].effect.DirEffect? != acts[j].effect.DirEffect?
    {
      assert acts[i] in acts && acts[j] in acts && acts[i].effect != acts[j].effect;
      EffectsApart(snap, disk, saved, acts[i].effect, acts[j].effect);
    }
  }

  /** A changed file has one effect, and an unchanged one has none. */
  lemma EffectOfFile(snap: Snapshot, disk: Disk, saved: set<string>, acts: seq<Act>, p: string)
    requires disk.rootExists && Recorded(snap, disk, saved, acts) && p in disk.files
    ensures IsChanged(snap, disk, p) ==> exists a :: a in acts && a.effect == FileEffectAt(disk, p)
    ensures !IsChanged(snap, disk, p) ==> FreeFile(acts, p)
    ensures forall a, b ::
        a in acts && b in acts && a.effect.FileEffect? && b.effect.FileEffect? && a.effect.path == b.effect.path ==>
        a == b
  {
    RecordedEffects(snap, disk, saved, acts);
    hide Recorded, IsChanged;
    assert IsChanged(snap, disk, p) ==> FileEffectAt(disk, p) in FileEffects(snap, disk);
    forall a, b | a in acts && b in acts && a.effect.FileEffect? && b.effect.FileEffect?
        && a.effect.path == b.effect.path ensures a == b {
      assert a.effect in FileEffects(snap, disk) && b.effect in FileEffects(snap, disk);
      SameAct(acts, a, b);
    }
    forall a | a in acts && OnFile(a, p) ensures IsChanged(snap, disk, p) {
      if a.effect.FileEffect? { assert a.effect in FileEffects(snap, disk); }
    }
  }

  /** A scanned file is reported again exactly when its effect was not accepted. */
  lemma FileAgain(snap: Snapshot, disk: Disk, saved: set<string>, acts: seq<Act>, view: Snapshot, p: string)
    requires disk.rootExists && Recorded(snap, disk, saved, acts) && Moved(snap, view, acts) && p in disk.files
    ensures IsChanged(view, disk, p) <==>
        exists a :: a in acts && a.effect.FileEffect? && a.effect.path == p && !Accepts(snap, a)
  {
    EffectOfFile(snap, disk, saved, acts, p);
    hide Accepts, Recorded, TombsFade;
    if IsChanged(snap, disk, p) {
      var a :| a in acts && a.effect == FileEffectAt(disk, p);
      assert Shows(snap, view, a);
      hide Untouched, Moved;
      FileShown(snap, disk, view, a);
      hide IsChanged, Shows;
    } else {
      assert SameFile(snap, view, p);
      hide Moved;
    }
  }

  /** A changed file is unchanged in the view exactly when its effect was accepted. */
  lemma FileShown(snap: Snapshot, disk: Disk, view: Snapshot, a: Act)
    requires a.effect.FileEffect? && a.effect.path in disk.files && a.effect == FileEffectAt(disk, a.effect.path)
    requires Shows(snap, view, a) && IsChanged(snap, disk, a.effect.path)
    ensures IsChanged(view, disk, a.effect.path) <==> !Accepts(snap, a)
  {
    hide Accepts;
  }

  lemma SameAct(acts: seq<Act>, a: Act, b: Act)
    requires a in acts && b in acts && a.effect == b.effect
    requires forall i, j :: 0 <= i < j < |acts| ==> acts[i].effect != acts[j].effect
    ensures a == b
  {}

  lemma DirAgain(snap: Snapshot, disk: Disk, saved: set<string>, acts: seq<Act>, view: Snapshot, q: string)
    requires disk.rootExists && Recorded(snap, disk, saved, acts) && Moved(snap, view, acts) && q in disk.emptyDirs
    ensures q !in view.dirs <==> exists a :: a in acts && a.effect == DirEffect(q) && !Accepts(snap, a)
  {
    RecordedEffects(snap, disk, saved, acts);
    hide Accepts, Recorded;
    if q !in snap.dirs {
      assert DirEffect(q) in DirEffects(snap, disk);
      var a :| a in acts && a.effect == DirEffect(q);
      assert Shows(snap, view, a);
      forall b | b in acts && b.effect == DirEffect(q) ensures b == a { SameAct(acts, a, b); }
    } else {
      assert FreeDir(acts, q);
    }
  }

  /** What the second scan reports are the effects that were not accepted. */
  lemma ReportedAgain(snap: Snapshot, disk: Disk, saved: set<string>, acts: seq<Act>, view: Snapshot)
    requires disk.rootExists && Recorded(snap, disk, saved, acts) && Moved(snap, view, acts)
    ensures forall p :: p in Changed(view, disk) <==>
        exists a :: a in acts && a.effect.FileEffect? && a.effect.path == p && !Accepts(snap, a)
    ensures forall q :: q in NewDirs(view, disk) <==>
        exists a :: a in acts && a.effect == DirEffect(q) && !Accepts(snap, a)
  {
    ActsOnDisk(snap, disk, saved, acts);
    hide Accepts, Moved, Recorded, IsChanged;
    forall p ensures p in Changed(view, disk) <==>
        exists a :: a in acts && a.effect.FileEffect? && a.effect.path == p && !Accepts(snap, a) {
      if p in disk.files { FileAgain(snap, disk, saved, acts, view, p); }
    }
    forall q ensures q in NewDirs(view, disk) <==>
        exists a :: a in acts && a.effect == DirEffect(q) && !Accepts(snap, a) {
      if q in disk.emptyDirs { DirAgain(snap, disk, saved, acts, view, q); }
    }
  }

  lemma ActsOnDisk(snap: Snapshot, disk: Disk, saved: set<string>, acts: seq<Act>)
    requires Recorded(snap, disk, saved, acts)
    ensures forall a :: a in acts && a.effect.FileEffect? ==>
        a.effect.path in disk.files && a.effect.path !in snap.deleted
    ensures forall a :: a in acts && a.effect.DirEffect? ==> a.effect.path in disk.emptyDirs
    ensures disk.rootExists ==> forall a :: a in acts ==> !a.effect.RootEffect?
  {
    RecordedEffects(snap, disk, saved, acts);
  }

  /** After the drain, a second scan of the same disk is quiet exactly when every
      file and directory effect is acceptable to the snapshot it was made from. */
  lemma SecondScanQuietIff(snap: Snapshot, disk: Disk, saved: set<string>, acts: seq<Act>, ns: string, up: Uploads)
    requires disk.rootExists && disk.EmptyDirsEmpty() && Recorded(snap, disk, saved, acts)
    ensures Quiet(ViewAfter(snap, acts, ns, up), disk, disk.files.Keys - {""})
            <==> forall a :: a in acts && !a.effect.DeleteEffect? ==> Accepts(snap, a)
  {
    RecordedIsProper(snap, disk, saved, acts);
    ViewMoves(snap, acts, ns, up);
    ActsOnDisk(snap, disk, saved, acts);
    var view := ViewAfter(snap, acts, ns, up);
    ReportedAgain(snap, disk, saved, acts, view);
    assert Vanished(view, disk, disk.files.Keys - {""}) == {} && !RootGone(view, disk);
    hide ViewAfter, Accepts, Moved, Recorded, Changed, NewDirs, Vanished, RootGone;
    if Quiet(view, disk, disk.files.Keys - {""}) {
      forall a | a in acts && !a.effect.DeleteEffect? ensures Accepts(snap, a) {
        if a.effect.FileEffect? { assert a.effect.path !in Changed(view, disk); }
        if a.effect.DirEffect? { assert a.effect.path !in NewDirs(view, disk); }
      }
    } else {
      var x :| x in Changed(view, disk) || x in NewDirs(view, disk);
    }
  }

  /** With the root missing, one delete_root and the next scan has nothing to say. */
  lemma MissingRootSettles(snap: Snapshot, disk: Disk, saved: set<string>, c: Clock, ns: string, up: Uploads)
    requires !disk.rootExists && disk.Scannable()
    ensures var acts := if RootGone(snap, disk) then [Act(RootEffect, c)] else [];
      Logged(snap, disk, saved) + Queued(snap, disk) == (set a | a in acts :: a.effect)
      && Quiet(ViewAfter(snap, acts, ns, up), disk, {})
  {
    var a := Act(RootEffect, c);
    if RootGone(snap, disk) {
      assert [a][..0] == [];
      assert ViewAfter(snap, [], ns, up) == snap;
      assert ViewAfter(snap, [a], ns, up) == Advance(snap, EntryFor(snap, a, ns, up));
      assert (set x | x in [a] :: x.effect) == {RootEffect};
    }
  }

  /** One scan and the recording of its effects. */
  datatype Round = Round(saved: set<string>, acts: seq<Act>)

  ghost function ViewRounds(snap: Snapshot, rounds: seq<Round>, ns: string, up: Uploads): Snapshot {
    if rounds == [] then snap
    else ViewAfter(ViewRounds(snap, rounds[..|rounds| - 1], ns, up), rounds[|rounds| - 1].acts, ns, up)
  }

  ghost predicate ScannedAndDrained(snap: Snapshot, disk: Disk, rounds: seq<Round>, ns: string, up: Uploads) {
    rounds != [] ==>
      var n := |rounds| - 1;
      && ScannedAndDrained(snap, disk, rounds[..n], ns, up)
      && Recorded(ViewRounds(snap, rounds[..n], ns, up), disk, rounds[n].saved, rounds[n].acts)
  }

  /** The disk has the content that the known version was edited from. */
  predicate Reverted(snap: Snapshot, disk: Disk, p: string) {
    && p in disk.files && p in snap.files && IsChanged(snap, disk, p)
    && disk.files[p] != "" && snap.files[p].prevChecksum == disk.files[p]
  }

  lemma RevertOneRound(snap: Snapshot, disk: Disk, r: Round, ns: string, up: Uploads, p: string)
    requires disk.rootExists && disk.EmptyDirsEmpty() && Recorded(snap, disk, r.saved, r.acts)
      && Reverted(snap, disk, p)
    ensures var view := ViewAfter(snap, r.acts, ns, up); Reverted(view, disk, p) && view.files[p] == snap.files[p]
  {
    RecordedIsProper(snap, disk, r.saved, r.acts);
    ViewMoves(snap, r.acts, ns, up);
    RecordedEffects(snap, disk, r.saved, r.acts);
    assert FileEffectAt(disk, p) in FileEffects(snap, disk);
    var a :| a in r.acts && a.effect == FileEffectAt(disk, p);
    assert !Accepts(snap, a) && Shows(snap, ViewAfter(snap, r.acts, ns, up), a);
  }

  /** Putting a file back to the content it was edited from is never recorded: however
      often the disk is scanned and the outbox drained, the log still shows the edit
      and the next scan reports the file again. */
  lemma {:induction false} RevertNeverSettles(
        snap: Snapshot, disk: Disk, rounds: seq<Round>, ns: string, up: Uploads, p: string)
    requires disk.rootExists && disk.EmptyDirsEmpty() && Reverted(snap, disk, p)
    requires ScannedAndDrained(snap, disk, rounds, ns, up)
    ensures var view := ViewRounds(snap, rounds, ns, up);
      p in Changed(view, disk) && p in view.files && view.files[p] == snap.files[p] && Reverted(view, disk, p)
  {
    if rounds != [] {
      var n := |rounds| - 1;
      RevertNeverSettles(snap, disk, rounds[..n], ns, up, p);
      RevertOneRound(ViewRounds(snap, rounds[..n], ns, up), disk, rounds[n], ns, up, p);
    }
  }
}
