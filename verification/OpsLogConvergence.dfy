/**
What the replayed log means, independently of arrival order.

For logs without delete_root a write that outlives every other entry at its path,
one by one, is what every order shows there; a path whose latest entry removes it
shows nothing; directories belong to their latest entries. Clocks need not be unique.
*/
module OpsLogConvergence {
  import opened Ordering
  import opened OpsLog

  // ---- The order-free specification --------------------------------------

  predicate Touches(e: Entry, p: string) {
    (e.path == p && (e.Writes() || e.typ.Delete?)) || (e.typ.DeleteDir? && Under(e.path, p))
  }

  predicate TouchesDir(e: Entry, q: string) {
    (e.path == q && (e.typ.CreateDir? || e.typ.DeleteDir?)) || (e.typ.DeleteDir? && Under(e.path, q))
  }

  /** `e` writes `p` and nothing that touches `p` is later. */
  ghost predicate LeadsFile(es: set<Entry>, p: string, e: Entry) {
    && e in es && e.Writes() && e.path == p
    && forall x :: x in es && Touches(x, p) ==> !x.At().Beats(e.At())
  }

  ghost predicate LeadsDir(es: set<Entry>, q: string, e: Entry) {
    && e in es && e.typ.CreateDir? && e.path == q
    && forall x :: x in es && TouchesDir(x, q) ==> !x.At().Beats(e.At())
  }

  ghost predicate NoRootDelete(es: set<Entry>) {
    forall x :: x in es ==> !x.typ.DeleteRoot?
  }

  /** Two writes that leave the same file behind. */
  predicate SameFile(x: Entry, w: Entry) {
    x.Writes() && w.Writes() && x.path == w.path && FileOf(x) == FileOf(w)
  }

  predicate SameDir(x: Entry, w: Entry) {
    x.typ.CreateDir? && w.typ.CreateDir? && x.path == w.path && DirOf(x) == DirOf(w)
  }

  /** The tombstone of `x` names the content of `w` and keeps out other devices' writes of it. */
  predicate Blocks(x: Entry, w: Entry) {
    Descends(x.prevChecksum, w.checksum) && x.device != "" && x.device != w.device
  }

  /** The write `w` outlives `x` in either order. A write may give way to a successor
      with an earlier clock; a delete_dir leaves a tombstone that blocks `w` only if
      it can have removed a write of the same path. */
  ghost predicate Yields(es: set<Entry>, x: Entry, w: Entry) {
    if x.Writes() then
      !Descends(x.prevChecksum, w.checksum) && (Descends(w.prevChecksum, x.checksum) || w.At().Beats(x.At()))
    else
      && w.At().Beats(x.At())
      && (x.typ.Delete? ==> !Descends(x.prevChecksum, w.checksum))
      && (x.typ.DeleteDir? && Blocks(x, w) ==>
            forall z :: z in es && z.Writes() && z.path == w.path ==> !x.At().Beats(z.At()))
  }

  /** `w` writes `p` and outlives every other entry that touches `p`. */
  ghost predicate Dominates(es: set<Entry>, p: string, w: Entry) {
    && w in es && w.Writes() && w.path == p
    && forall x :: x in es && Touches(x, p) ==> SameFile(x, w) || Yields(es, x, w)
  }

  ghost predicate LeadersDominate(es: set<Entry>) {
    forall p, w :: LeadsFile(es, p, w) ==> Dominates(es, p, w)
  }

  /** No other entry with the clock of a path's latest creation touches that directory. */
  ghost predicate DirsUntied(es: set<Entry>) {
    forall q, w, x :: LeadsDir(es, q, w) && x in es && TouchesDir(x, q) && x.At() == w.At() ==> SameDir(x, w)
  }

  // ---- What every step keeps ----------------------------------------------

  ghost predicate TombsInv(st: State, es: set<Entry>) {
    && st.root.None?
    && (forall d :: d in st.dirTombs ==>
          exists x :: x in es && x.typ.DeleteDir? && x.path == d && x.At() == st.dirTombs[d])
    && (forall x :: x in es && x.typ.DeleteDir? ==>
          x.path in st.dirTombs && !x.At().Beats(st.dirTombs[x.path]))
  }

  ghost predicate SameFileAt(st: State, st': State, p: string) {
    && (p in st'.snap.files <==> p in st.snap.files)
    && (p in st.snap.files ==> st'.snap.files[p] == st.snap.files[p])
    && (p in st'.snap.deleted <==> p in st.snap.deleted)
    && (p in st.snap.deleted ==> st'.snap.deleted[p] == st.snap.deleted[p])
    && (p in st'.clocks <==> p in st.clocks)
    && (p in st.clocks ==> st'.clocks[p] == st.clocks[p])
  }

  lemma SweepFrame(st: State, e: Entry, p: string)
    requires p !in Swept(st, e)
    ensures SameFileAt(st, ApplyDeleteDir(st, e), p)
  {}

  /** Away from the paths an entry touches, a step changes no file state. */
  lemma FileFrame(st: State, e: Entry, p: string)
    requires !e.typ.DeleteRoot? && !Touches(e, p)
    ensures SameFileAt(st, Apply(st, e), p)
  {
    match e.typ
    case DeleteDir => SweepFrame(st, e, p);
    case Put => assert p != e.path;
    case Symlink => assert p != e.path;
    case Delete => assert p != e.path;
    case CreateDir =>
    case Unknown(_) =>
  }

  /** The only table of directory tombstones a step writes is the entry's own slot. */
  lemma TombFrame(st: State, e: Entry, d: string)
    requires !e.typ.DeleteRoot? && st.root.None?
    ensures var st' := Apply(st, e);
      && st'.root.None?
      && (d in st.dirTombs ==> d in st'.dirTombs)
      && (d in st'.dirTombs ==>
            (d in st.dirTombs && st'.dirTombs[d] == st.dirTombs[d])
            || (e.typ.DeleteDir? && d == e.path && st'.dirTombs[d] == e.At() && !Stale(e.At(), d, st.dirTombs)))
      && (e.typ.DeleteDir? && d == e.path ==> d in st'.dirTombs && !e.At().Beats(st'.dirTombs[d]))
  {
    BeatsTrichotomy(e.At(), e.At());
  }

  lemma TombsStep(st: State, es: set<Entry>, e: Entry)
    requires NoRootDelete(es + {e}) && TombsInv(st, es)
    ensures TombsInv(Apply(st, e), es + {e})
  {
    var es', st' := es + {e}, Apply(st, e);
    TombFrame(st, e, e.path);
    forall d | d in st'.dirTombs
      ensures exists x :: x in es' && x.typ.DeleteDir? && x.path == d && x.At() == st'.dirTombs[d]
    {
      TombFrame(st, e, d);
      if d in st.dirTombs && st'.dirTombs[d] == st.dirTombs[d] {
        var x :| x in es && x.typ.DeleteDir? && x.path == d && x.At() == st.dirTombs[d];
        assert x in es';
      } else {
        assert e in es';
      }
    }
    forall x | x in es' && x.typ.DeleteDir?
      ensures x.path in st'.dirTombs && !x.At().Beats(st'.dirTombs[x.path])
    {
      TombFrame(st, e, x.path);
      if x in es && st'.dirTombs[x.path] != st.dirTombs[x.path] {
        BeatsTrichotomy(x.At(), e.At());
        BeatsTrichotomy(e.At(), st.dirTombs[x.path]);
        if x.At().Beats(e.At()) { BeatsTransitive(x.At(), e.At(), st.dirTombs[x.path]); }
      }
    }
  }

  // ---- Files ---------------------------------------------------------------

  ghost predicate LiveFrom(st: State, p: string, x: Entry) {
    && x.Writes() && x.path == p
    && p in st.snap.files && st.snap.files[p] == FileOf(x)
    && p in st.clocks && st.clocks[p] == x.At()
  }

  /** `p` was removed by `d`; a delete_dir removes only what its clock beats. */
  ghost predicate GoneFrom(st: State, es: set<Entry>, p: string, d: Entry) {
    && Touches(d, p) && !d.Writes()
    && p in st.snap.deleted && st.snap.deleted[p] == TombOf(d)
    && p in st.clocks && st.clocks[p] == d.At()
    && (d.typ.DeleteDir? ==> exists z :: z in es && z.Writes() && z.path == p && d.At().Beats(z.At()))
  }

  /** What the tables say about `p` comes from entries in `es`. */
  ghost predicate FileInv(st: State, es: set<Entry>, p: string) {
    && (p in st.clocks ==> p in st.snap.files || p in st.snap.deleted)
    && (p in st.snap.files ==> p !in st.snap.deleted && exists x :: x in es && LiveFrom(st, p, x))
    && (p in st.snap.deleted ==> exists d :: d in es && GoneFrom(st, es, p, d))
  }

  lemma FileStep(st: State, es: set<Entry>, e: Entry, p: string)
    requires NoRootDelete(es + {e}) && st.root.None? && FileInv(st, es, p)
    ensures FileInv(Apply(st, e), es + {e}, p)
  {
    var es', st' := es + {e}, Apply(st, e);
    assert e in es';
    if !Touches(e, p) {
      FileFrame(st, e, p);
      hide Apply;
      FileKept(st, st', es, e, p);
    } else if e.Writes() {
      if PutTakes(st, e) { assert LiveFrom(st', p, e); } else { FileKept(st, st, es, e, p); }
    } else if e.typ.Delete? {
      if DeleteTakes(st, e) { assert GoneFrom(st', es', p, e); } else { FileKept(st, st, es, e, p); }
    } else {
      FileSwept(st, es, e, p);
    }
  }

  lemma FileSwept(st: State, es: set<Entry>, e: Entry, p: string)
    requires e.typ.DeleteDir? && Under(e.path, p) && st.root.None? && FileInv(st, es, p)
    ensures FileInv(Apply(st, e), es + {e}, p)
  {
    var es', st' := es + {e}, Apply(st, e);
    assert e in es' && st' == ApplyDeleteDir(st, e);
    hide Apply;
    if p in Swept(st, e) {
      var z :| z in es && LiveFrom(st, p, z);
      assert z in es';
      SweepAt(st, e, p);
      hide ApplyDeleteDir;
      assert GoneFrom(st', es', p, e);
    } else {
      SweepFrame(st, e, p);
      hide ApplyDeleteDir;
      FileKept(st, st', es, e, p);
    }
  }

  lemma FileKept(st: State, st': State, es: set<Entry>, e: Entry, p: string)
    requires SameFileAt(st, st', p) && FileInv(st, es, p)
    ensures FileInv(st', es + {e}, p)
  {
    if p in st.snap.files {
      var x :| x in es && LiveFrom(st, p, x);
      assert x in es + {e} && LiveFrom(st', p, x);
    }
    if p in st.snap.deleted {
      var d :| d in es && GoneFrom(st, es, p, d);
      assert d in es + {e} && GoneFrom(st', es + {e}, p, d);
    }
  }

  lemma SweepAt(st: State, e: Entry, p: string)
    requires e.typ.DeleteDir? && p in Swept(st, e)
    ensures var st' := ApplyDeleteDir(st, e);
      && p !in st'.snap.files && p in st'.snap.deleted && st'.snap.deleted[p] == TombOf(e)
      && p in st'.clocks && st'.clocks[p] == e.At()
  {}

  lemma DominatorUncovered(all: set<Entry>, st: State, es: set<Entry>, w: Entry)
    requires Dominates(all, w.path, w) && es <= all && TombsInv(st, es)
    ensures !Covered(w.path, w.At(), st.dirTombs)
  {
    forall d | d in st.dirTombs && Under(d, w.path) ensures w.At().Beats(st.dirTombs[d]) {
      var x :| x in es && x.typ.DeleteDir? && x.path == d && x.At() == st.dirTombs[d];
      assert Touches(x, w.path) && Yields(all, x, w);
    }
  }

  /** The dominating write takes effect when it first arrives. */
  lemma DominatorTakes(all: set<Entry>, st: State, es: set<Entry>, w: Entry, e: Entry)
    requires Dominates(all, w.path, w) && SameFile(e, w) && es <= all && forall x :: x in es ==> !SameFile(x, w)
    requires TombsInv(st, es) && FileInv(st, es, w.path)
    ensures LiveFrom(Apply(st, e), w.path, w)
  {
    var p := w.path;
    assert e.At() == FileOf(e).At() == FileOf(w).At() == w.At();
    assert FileOf(e).checksum == e.checksum && FileOf(e).prevChecksum == e.prevChecksum;
    DominatorUncovered(all, st, es, w);
    hide Covered;
    if p in st.snap.files {
      var x :| x in es && LiveFrom(st, p, x);
      assert Touches(x, p) && Yields(all, x, w);
    } else if p in st.snap.deleted {
      var d :| d in es && GoneFrom(st, es, p, d);
      assert Touches(d, p) && Yields(all, d, w);
    }
    assert PutTakes(st, e);
  }

  lemma DominatorStays(all: set<Entry>, st: State, w: Entry, e: Entry)
    requires Dominates(all, w.path, w) && e in all && NoRootDelete(all) && st.root.None? && LiveFrom(st, w.path, w)
    ensures LiveFrom(Apply(st, e), w.path, w)
  {
    var p := w.path;
    BeatsTrichotomy(e.At(), w.At());
    if !Touches(e, p) {
      FileFrame(st, e, p);
    } else if SameFile(e, w) {
      assert e.At() == FileOf(e).At() == FileOf(w).At();
    } else {
      assert Yields(all, e, w);
      match e.typ
      case DeleteDir => SweepFrame(st, e, p);
      case _ =>
    }
  }

  /** `m` removes `p`, beats every write of it, and no other removal is later. */
  ghost predicate RemovesLast(es: set<Entry>, p: string, m: Entry) {
    && m in es && Touches(m, p) && !m.Writes()
    && forall x :: x in es && Touches(x, p) ==> m.At().Beats(x.At()) || (!x.Writes() && x.At() == m.At())
  }

  ghost predicate Removed(st: State, p: string, m: Entry) {
    && p !in st.snap.files
    && (m.typ.Delete? ==> p in st.clocks && st.clocks[p] == m.At())
    && (m.typ.DeleteDir? ==> m.path in st.dirTombs && !m.At().Beats(st.dirTombs[m.path]))
  }

  lemma RemovalTakes(all: set<Entry>, st: State, es: set<Entry>, p: string, m: Entry)
    requires RemovesLast(all, p, m) && es <= all && st.root.None? && FileInv(st, es, p)
    ensures Removed(Apply(st, m), p, m)
  {
    if p in st.snap.files {
      var x :| x in es && LiveFrom(st, p, x);
      assert Touches(x, p) && m.At().Beats(x.At());
    } else if p in st.snap.deleted {
      var d :| d in es && GoneFrom(st, es, p, d);
    }
    if m.typ.DeleteDir? {
      TombFrame(st, m, m.path);
      if p in Swept(st, m) { SweepAt(st, m, p); } else { SweepFrame(st, m, p); }
    }
  }

  lemma RemovalStays(all: set<Entry>, st: State, p: string, m: Entry, e: Entry)
    requires RemovesLast(all, p, m) && e in all && NoRootDelete(all) && st.root.None? && Removed(st, p, m)
    ensures Removed(Apply(st, e), p, m)
  {
    BeatsTrichotomy(e.At(), m.At());
    if m.typ.DeleteDir? {
      TombFrame(st, e, m.path);
      LaterTomb(m.At(), st.dirTombs[m.path], e.At());
    }
    if !Touches(e, p) {
      FileFrame(st, e, p);
    } else if e.typ.DeleteDir? {
      SweepFrame(st, e, p);
    } else if e.Writes() {
      if m.typ.DeleteDir? { assert Covered(p, e.At(), st.dirTombs); }
      assert !PutTakes(st, e);
    }
  }

  lemma LaterTomb(m: Clock, t: Clock, e: Clock)
    requires !m.Beats(t)
    ensures m.Beats(e) ==> !e.Beats(t)
  {
    if m.Beats(e) && e.Beats(t) { BeatsTransitive(m, e, t); }
  }

  // ---- Directories ---------------------------------------------------------

  ghost predicate DirFrom(st: State, q: string, x: Entry) {
    && x.typ.CreateDir? && x.path == q
    && q in st.snap.dirs && st.snap.dirs[q] == DirOf(x)
    && q in st.dirClocks && st.dirClocks[q] == x.At()
  }

  ghost predicate DirInv(st: State, es: set<Entry>, q: string) {
    && (q in st.snap.dirs ==> exists x :: x in es && DirFrom(st, q, x))
    && (q in st.dirClocks ==> exists x :: x in es && TouchesDir(x, q) && st.dirClocks[q] == x.At())
  }

  ghost predicate SameDirAt(st: State, st': State, q: string) {
    && (q in st'.snap.dirs <==> q in st.snap.dirs)
    && (q in st.snap.dirs ==> st'.snap.dirs[q] == st.snap.dirs[q])
    && (q in st'.dirClocks <==> q in st.dirClocks)
    && (q in st.dirClocks ==> st'.dirClocks[q] == st.dirClocks[q])
  }

  lemma DirFrame(st: State, e: Entry, q: string)
    requires !e.typ.DeleteRoot? && !TouchesDir(e, q)
    ensures SameDirAt(st, Apply(st, e), q)
  {
    match e.typ
    case DeleteDir =>
    case Put =>
    case Symlink =>
    case Delete =>
    case CreateDir => assert q != e.path;
    case Unknown(_) =>
  }

  /** What a delete_dir does to the directory tables at one path. */
  lemma DirSweepAt(st: State, e: Entry, q: string)
    requires e.typ.DeleteDir?
    ensures var st' := ApplyDeleteDir(st, e);
      && (q in st'.snap.dirs <==> q in st.snap.dirs && q !in SweptDirs(st, e))
      && (q in st'.snap.dirs ==> st'.snap.dirs[q] == st.snap.dirs[q])
      && (q in st'.dirClocks && st'.dirClocks[q] != e.At() ==>
            q in st.dirClocks && st'.dirClocks[q] == st.dirClocks[q])
      && (q in st.dirClocks && !e.At().Beats(st.dirClocks[q]) ==>
            q in st'.dirClocks && st'.dirClocks[q] == st.dirClocks[q])
  {}

  lemma DirStep(st: State, es: set<Entry>, e: Entry, q: string)
    requires NoRootDelete(es + {e}) && st.root.None? && DirInv(st, es, q)
    ensures DirInv(Apply(st, e), es + {e}, q)
  {
    var es', st' := es + {e}, Apply(st, e);
    assert e in es';
    if !TouchesDir(e, q) {
      DirFrame(st, e, q);
      hide Apply;
      DirKept(st, st', es, e, q);
    } else if e.typ.CreateDir? {
      if CreateTakes(st, e) { assert DirFrom(st', q, e); } else { DirKept(st, st, es, e, q); }
    } else {
      assert st' == ApplyDeleteDir(st, e);
      hide Apply;
      DirSweepAt(st, e, q);
      hide ApplyDeleteDir;
      if q in st'.snap.dirs {
        var x :| x in es && DirFrom(st, q, x);
        assert x in es' && DirFrom(st', q, x);
      }
      if q in st'.dirClocks && st'.dirClocks[q] != e.At() {
        var x :| x in es && TouchesDir(x, q) && st.dirClocks[q] == x.At();
        assert x in es';
      }
    }
  }

  lemma DirKept(st: State, st': State, es: set<Entry>, e: Entry, q: string)
    requires SameDirAt(st, st', q) && DirInv(st, es, q)
    ensures DirInv(st', es + {e}, q)
  {
    if q in st.snap.dirs {
      var x :| x in es && DirFrom(st, q, x);
      assert x in es + {e} && DirFrom(st', q, x);
    }
    if q in st.dirClocks {
      var x :| x in es && TouchesDir(x, q) && st.dirClocks[q] == x.At();
      assert x in es + {e};
    }
  }

  /** `w` creates `q` and beats everything else that touches it. */
  ghost predicate DominatesDir(es: set<Entry>, q: string, w: Entry) {
    && w in es && w.typ.CreateDir? && w.path == q
    && forall x :: x in es && TouchesDir(x, q) ==> SameDir(x, w) || w.At().Beats(x.At())
  }

  lemma LeaderDominatesDir(es: set<Entry>, q: string, w: Entry)
    requires DirsUntied(es) && LeadsDir(es, q, w)
    ensures DominatesDir(es, q, w)
  {
    forall x | x in es && TouchesDir(x, q) ensures SameDir(x, w) || w.At().Beats(x.At()) {
      BeatsTrichotomy(x.At(), w.At());
    }
  }

  lemma DirTakes(all: set<Entry>, st: State, es: set<Entry>, w: Entry, e: Entry)
    requires DominatesDir(all, w.path, w) && SameDir(e, w) && es <= all && forall x :: x in es ==> !SameDir(x, w)
    requires TombsInv(st, es) && DirInv(st, es, w.path)
    ensures DirFrom(Apply(st, e), w.path, w)
  {
    var q := w.path;
    assert e.At() == DirOf(e).At() == DirOf(w).At() == w.At();
    forall d | d in st.dirTombs && (d == q || Under(d, q)) ensures w.At().Beats(st.dirTombs[d]) {
      var x :| x in es && x.typ.DeleteDir? && x.path == d && x.At() == st.dirTombs[d];
      assert TouchesDir(x, q);
    }
    assert !Stale(e.At(), q, st.dirTombs) && !Covered(q, e.At(), st.dirTombs);
    hide Covered;
    assert CreateTakes(st, e);
  }

  /** Nothing but a later entry displaces a directory. */
  lemma DirStays(all: set<Entry>, st: State, w: Entry, e: Entry)
    requires LeadsDir(all, w.path, w) && e in all && NoRootDelete(all) && st.root.None? && DirFrom(st, w.path, w)
    ensures DirFrom(Apply(st, e), w.path, w)
  {
    if !TouchesDir(e, w.path) {
      DirFrame(st, e, w.path);
    } else if e.typ.DeleteDir? {
      DirSweepAt(st, e, w.path);
    } else {
      assert !CreateTakes(st, e);
    }
  }

  /** `q` is gone, and a tombstone at or above it is at least as late as `m`. */
  ghost predicate DirGone(st: State, q: string, m: Entry) {
    q !in st.snap.dirs && m.path in st.dirTombs && !m.At().Beats(st.dirTombs[m.path])
  }

  ghost predicate OutlastsCreates(es: set<Entry>, q: string, m: Entry) {
    && m in es && m.typ.DeleteDir? && TouchesDir(m, q)
    && forall x :: x in es && x.typ.CreateDir? && x.path == q ==> !x.At().Beats(m.At())
  }

  lemma DirDropped(all: set<Entry>, st: State, es: set<Entry>, q: string, m: Entry)
    requires OutlastsCreates(all, q, m) && es <= all && st.root.None? && DirInv(st, es, q)
    requires forall x :: x in es && x.typ.CreateDir? && x.path == q ==> m.At().Beats(x.At())
    ensures DirGone(Apply(st, m), q, m)
  {
    TombFrame(st, m, m.path);
    DirSweepAt(st, m, q);
  }

  lemma DirStaysGone(all: set<Entry>, st: State, q: string, m: Entry, e: Entry)
    requires OutlastsCreates(all, q, m) && e in all && NoRootDelete(all) && st.root.None? && DirGone(st, q, m)
    ensures DirGone(Apply(st, e), q, m)
  {
    TombFrame(st, e, m.path);
    LaterTomb(m.At(), st.dirTombs[m.path], e.At());
    if !TouchesDir(e, q) {
      DirFrame(st, e, q);
    } else if e.typ.DeleteDir? {
      DirSweepAt(st, e, q);
    } else {
      var t := st.dirTombs[m.path];
      if e.At().Beats(t) { BeatsEither(e.At(), m.At(), t); }
      assert m.path == q || Covered(q, e.At(), st.dirTombs);
      assert !CreateTakes(st, e);
    }
  }

  // ---- The theorems ---------------------------------------------------------

  function Entries(log: seq<Entry>): set<Entry> {
    set e | e in log
  }

  /** The state after `log`, of which `w` or `m` may be a part. */
  lemma {:induction false} ReplayInv(log: seq<Entry>)
    requires NoRootDelete(Entries(log))
    ensures TombsInv(Replay(Load(EmptySnapshot), log), Entries(log))
    ensures forall p :: FileInv(Replay(Load(EmptySnapshot), log), Entries(log), p)
  {
    if log != [] {
      var n := |log| - 1;
      LastEntry(log);
      ReplayInv(log[..n]);
      var st := Replay(Load(EmptySnapshot), log[..n]);
      TombsStep(st, Entries(log[..n]), log[n]);
      forall p { FileStep(st, Entries(log[..n]), log[n], p); }
    }
  }

  lemma LastEntry(log: seq<Entry>)
    requires log != []
    ensures Entries(log) == Entries(log[..|log| - 1]) + {log[|log| - 1]}
  {
    assert log == log[..|log| - 1] + [log[|log| - 1]];
  }

  lemma {:induction false} DirReplayInv(log: seq<Entry>)
    requires NoRootDelete(Entries(log))
    ensures forall q :: DirInv(Replay(Load(EmptySnapshot), log), Entries(log), q)
  {
    if log != [] {
      var n := |log| - 1;
      LastEntry(log);
      DirReplayInv(log[..n]);
      ReplayInv(log[..n]);
      var st := Replay(Load(EmptySnapshot), log[..n]);
      hide DirInv, Apply;
      forall q { DirStep(st, Entries(log[..n]), log[n], q); }
    }
  }

  lemma {:induction false} DominatorShown(all: set<Entry>, log: seq<Entry>, w: Entry)
    requires Dominates(all, w.path, w) && NoRootDelete(all) && Entries(log) <= all
    requires exists x :: x in Entries(log) && SameFile(x, w)
    ensures LiveFrom(Replay(Load(EmptySnapshot), log), w.path, w)
  {
    var n := |log| - 1;
    var es, e, st := Entries(log[..n]), log[n], Replay(Load(EmptySnapshot), log[..n]);
    LastEntry(log);
    ReplayInv(log[..n]);
    assert e in Entries(log) && es <= all;
    hide Dominates, LiveFrom, FileInv, Apply, SameFile, Entries;
    if x :| x in es && SameFile(x, w) {
      DominatorShown(all, log[..n], w);
      DominatorStays(all, st, w, e);
    } else {
      DominatorTakes(all, st, es, w, e);
    }
  }

  lemma {:induction false} DirShown(all: set<Entry>, log: seq<Entry>, w: Entry)
    requires DominatesDir(all, w.path, w) && LeadsDir(all, w.path, w) && NoRootDelete(all) && Entries(log) <= all
    requires exists x :: x in Entries(log) && SameDir(x, w)
    ensures DirFrom(Replay(Load(EmptySnapshot), log), w.path, w)
  {
    var n := |log| - 1;
    var es, e, st := Entries(log[..n]), log[n], Replay(Load(EmptySnapshot), log[..n]);
    LastEntry(log);
    ReplayInv(log[..n]);
    DirReplayInv(log[..n]);
    assert e in Entries(log) && es <= all;
    hide DominatesDir, LeadsDir, DirFrom, DirInv, Apply, SameDir, Entries;
    if x :| x in es && SameDir(x, w) {
      DirShown(all, log[..n], w);
      DirStays(all, st, w, e);
    } else {
      DirTakes(all, st, es, w, e);
    }
  }

  lemma {:induction false} DropShown(all: set<Entry>, log: seq<Entry>, q: string, m: Entry)
    requires OutlastsCreates(all, q, m) && NoRootDelete(all) && Entries(log) <= all && m in log
    requires forall x :: x in all && x.typ.CreateDir? && x.path == q ==> m.At().Beats(x.At())
    ensures DirGone(Replay(Load(EmptySnapshot), log), q, m)
  {
    var n := |log| - 1;
    var es, e, st := Entries(log[..n]), log[n], Replay(Load(EmptySnapshot), log[..n]);
    LastEntry(log);
    ReplayInv(log[..n]);
    DirReplayInv(log[..n]);
    assert m in Entries(log) && e in Entries(log) && es <= all;
    hide OutlastsCreates, DirGone, DirInv, Apply;
    if m in es {
      DropShown(all, log[..n], q, m);
      DirStaysGone(all, st, q, m, e);
    } else {
      DirDropped(all, st, es, q, m);
    }
  }

  lemma {:induction false} RemovalShown(all: set<Entry>, log: seq<Entry>, p: string, m: Entry)
    requires RemovesLast(all, p, m) && NoRootDelete(all) && Entries(log) <= all && m in log
    ensures Removed(Replay(Load(EmptySnapshot), log), p, m)
  {
    var n := |log| - 1;
    var es, e, st := Entries(log[..n]), log[n], Replay(Load(EmptySnapshot), log[..n]);
    LastEntry(log);
    ReplayInv(log[..n]);
    assert m in Entries(log) && e in Entries(log);
    hide RemovesLast, Removed, FileInv, Apply;
    if m in es {
      RemovalShown(all, log[..n], p, m);
      RemovalStays(all, st, p, m, e);
    } else {
      RemovalTakes(all, st, es, p, m);
    }
  }

  lemma {:induction false} LatestOf(s: set<Entry>) returns (m: Entry)
    requires s != {}
    ensures m in s && forall x :: x in s ==> !x.At().Beats(m.At())
    decreases s
  {
    m :| m in s;
    BeatsTrichotomy(m.At(), m.At());
    if s != {m} {
      var n := LatestOf(s - {m});
      BeatsTrichotomy(m.At(), n.At());
      if n.At().Beats(m.At()) { m := n; }
      else { forall x | x in s - {m} && x.At().Beats(m.At()) ensures false { BeatsEither(x.At(), n.At(), m.At()); } }
    }
  }

  lemma BeatsEither(a: Clock, b: Clock, c: Clock)
    requires a.Beats(c) && !b.Beats(c)
    ensures a.Beats(b)
  {
    BeatsTrichotomy(b, c);
    if c.Beats(b) { BeatsTransitive(a, c, b); }
  }

  /** If the latest entries at a path are all removals nothing is shown, in any order. */
  lemma NoLeaderNothingShown(log: seq<Entry>, p: string)
    requires NoRootDelete(Entries(log)) && forall w :: !LeadsFile(Entries(log), p, w)
    ensures p !in Rebuild(log).files
  {
    var es, st := Entries(log), Replay(Load(EmptySnapshot), log);
    ReplayInv(log);
    if p in st.snap.files {
      assert FileInv(st, es, p);
      var x :| x in es && LiveFrom(st, p, x);
      var touching := set e | e in es && Touches(e, p);
      assert x in touching;
      var m := LatestOf(touching);
      LatestRemoves(es, p, m, touching);
      assert m in log;
      RemovalShown(es, log, p, m);
    }
  }

  lemma LatestRemoves(es: set<Entry>, p: string, m: Entry, touching: set<Entry>)
    requires (forall w :: !LeadsFile(es, p, w)) && (forall e :: e in touching <==> e in es && Touches(e, p))
    requires m in touching && forall x :: x in touching ==> !x.At().Beats(m.At())
    ensures RemovesLast(es, p, m)
  {
    forall e | e in es && Touches(e, p) ensures m.At().Beats(e.At()) || (!e.Writes() && e.At() == m.At()) {
      assert e in touching;
      BeatsTrichotomy(e.At(), m.At());
      assert e.At() == m.At() && e.Writes() ==> LeadsFile(es, p, e);
    }
    assert m.Writes() ==> LeadsFile(es, p, m);
  }

  lemma NoLeaderNoDir(log: seq<Entry>, q: string)
    requires NoRootDelete(Entries(log)) && forall w :: !LeadsDir(Entries(log), q, w)
    ensures q !in Rebuild(log).dirs
  {
    var es, st := Entries(log), Replay(Load(EmptySnapshot), log);
    DirReplayInv(log);
    if q in st.snap.dirs {
      assert DirInv(st, es, q);
      var x :| x in es && DirFrom(st, q, x);
      var touching := set e | e in es && TouchesDir(e, q);
      assert x in touching;
      var m := LatestOf(touching);
      LatestDrops(es, q, m, touching);
      assert m in log;
      DropShown(es, log, q, m);
    }
  }

  lemma LatestDrops(es: set<Entry>, q: string, m: Entry, touching: set<Entry>)
    requires (forall w :: !LeadsDir(es, q, w)) && (forall e :: e in touching <==> e in es && TouchesDir(e, q))
    requires m in touching && forall x :: x in touching ==> !x.At().Beats(m.At())
    ensures OutlastsCreates(es, q, m)
    ensures forall x :: x in es && x.typ.CreateDir? && x.path == q ==> m.At().Beats(x.At())
  {
    forall x | x in es && x.typ.CreateDir? && x.path == q ensures m.At().Beats(x.At()) && !x.At().Beats(m.At()) {
      assert x in touching;
      BeatsTrichotomy(x.At(), m.At());
      assert x.At() == m.At() ==> LeadsDir(es, q, x);
    }
    assert m.typ.CreateDir? ==> LeadsDir(es, q, m);
  }

  ghost predicate ShowsLatestFiles(es: set<Entry>, files: map<string, FileInfo>) {
    && (forall p :: p in files <==> exists e :: LeadsFile(es, p, e))
    && (forall p, e :: LeadsFile(es, p, e) ==> p in files && files[p] == FileOf(e))
  }

  ghost predicate ShowsLatestDirs(es: set<Entry>, dirs: map<string, DirInfo>) {
    && (forall q :: q in dirs <==> exists e :: LeadsDir(es, q, e))
    && (forall q, e :: LeadsDir(es, q, e) ==> q in dirs && dirs[q] == DirOf(e))
  }

  /** The files of every order are exactly the latest writes of their paths, if those
      dominate. */
  lemma FilesAreLatest(log: seq<Entry>)
    requires NoRootDelete(Entries(log)) && LeadersDominate(Entries(log))
    ensures ShowsLatestFiles(Entries(log), Rebuild(log).files)
  {
    var es := Entries(log);
    forall p, e | LeadsFile(es, p, e) ensures p in Rebuild(log).files && Rebuild(log).files[p] == FileOf(e) {
      assert Dominates(es, p, e) && SameFile(e, e);
      DominatorShown(es, log, e);
    }
    forall p | p in Rebuild(log).files ensures exists e :: LeadsFile(es, p, e) {
      if forall e :: !LeadsFile(es, p, e) { NoLeaderNothingShown(log, p); }
    }
  }

  /** The directories of every order are exactly the latest creations of their paths,
      if no other entry has their clocks. */
  lemma DirsAreLatest(log: seq<Entry>)
    requires NoRootDelete(Entries(log)) && DirsUntied(Entries(log))
    ensures ShowsLatestDirs(Entries(log), Rebuild(log).dirs)
  {
    var es := Entries(log);
    forall q, e | LeadsDir(es, q, e) ensures q in Rebuild(log).dirs && Rebuild(log).dirs[q] == DirOf(e) {
      assert SameDir(e, e);
      LeaderDominatesDir(es, q, e);
      DirShown(es, log, e);
    }
    forall q | q in Rebuild(log).dirs ensures exists e :: LeadsDir(es, q, e) {
      if forall e :: !LeadsDir(es, q, e) { NoLeaderNoDir(log, q); }
    }
  }
}
