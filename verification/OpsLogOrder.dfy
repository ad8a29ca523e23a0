/**
Exactly which entries replay alike in every order.

Arrival orders may repeat entries. A write is shown by every order exactly when it
outlives each other entry at its path one by one, and every order shows the latest
writes exactly when those dominate.
*/
module OpsLogOrder {
  import opened Ordering
  import opened OpsLog
  import opened OpsLogConvergence
  import opened OpsLogRoots
  import opened OpsLogLimits

  ghost predicate Shows(st: State, p: string, w: Entry) {
    p in st.snap.files && st.snap.files[p] == FileOf(w)
  }

  ghost predicate AlwaysShown(es: set<Entry>, p: string, w: Entry) {
    forall log :: Entries(log) == es ==> Shows(Replay(Load(EmptySnapshot), log), p, w)
  }

  // ---- A write that is displaced is not shown ------------------------------------

  lemma OnlyItsWrite(st: State, e: Entry, p: string, w: Entry)
    requires !Shows(st, p, w) && w.Writes() && w.path == p && !SameFile(e, w)
    ensures !Shows(Apply(st, e), p, w)
  {
    match e.typ
    case Put =>
    case Symlink =>
    case Delete =>
    case CreateDir =>
    case DeleteDir =>
    case DeleteRoot =>
    case Unknown(_) =>
  }

  lemma {:induction false} NotBroughtBack(st: State, rest: seq<Entry>, p: string, w: Entry)
    requires !Shows(st, p, w) && w.Writes() && w.path == p && forall e :: e in rest ==> !SameFile(e, w)
    ensures !Shows(Replay(st, rest), p, w)
  {
    if rest != [] {
      assert rest[|rest| - 1] in rest;
      NotBroughtBack(st, rest[..|rest| - 1], p, w);
      hide Shows, Apply, SameFile;
      OnlyItsWrite(Replay(st, rest[..|rest| - 1]), rest[|rest| - 1], p, w);
    }
  }

  /** Repeating a write, or writing the same file again, changes nothing. */
  lemma CopyIdle(st: State, w: Entry, c: Entry)
    requires SameFile(c, w)
    ensures Apply(Apply(st, w), c) == Apply(st, w)
  {
    assert c.At() == FileOf(c).At() == FileOf(w).At() == w.At();
    assert c.checksum == FileOf(c).checksum && c.prevChecksum == FileOf(c).prevChecksum && c.device == FileOf(c).device;
    BeatsTrichotomy(w.At(), w.At());
    var st' := Apply(st, w);
    if st' == st {
      assert w.At() == c.At() && (PutTakes(st, w) <==> PutTakes(st, c));
    } else {
      assert st'.snap.files[w.path] == FileOf(w);
      assert Apply(st', c) == st';
    }
  }

  lemma {:induction false} CopiesIdle(st: State, w: Entry, copies: seq<Entry>)
    requires forall c :: c in copies ==> SameFile(c, w)
    ensures Replay(Apply(st, w), copies) == Apply(st, w)
  {
    if copies != [] {
      var n := |copies| - 1;
      assert copies[n] in copies;
      CopiesIdle(st, w, copies[..n]);
      hide Apply, SameFile;
      CopyIdle(st, w, copies[n]);
    }
  }

  /** What every order shows is shown as soon as it arrived: nothing but the write
      itself could bring it back. */
  lemma ShownAtOnce(es: set<Entry>, w: Entry, before: seq<Entry>, after: seq<Entry>)
    requires AlwaysShown(es, w.path, w) && w in es && w.Writes()
    requires forall e :: e in before || e in after ==> e in es && !SameFile(e, w)
    ensures Shows(Replay(Load(EmptySnapshot), before + [w] + after), w.path, w)
  {
    var s0 := Load(EmptySnapshot);
    var copies, rest := CopiesAndRest(es, w, before, after);
    ReplayOne(s0, before, w);
    ReplayAppend(s0, before + [w], copies);
    hide AlwaysShown, Shows, SameFile, Apply, Entries;
    CopiesIdle(Replay(s0, before), w, copies);
    ReplayAppend(s0, before + [w], after);
    ReplayAppend(s0, before + [w] + copies, after + rest);
    ReplayAppend(Replay(s0, before + [w]), after, rest);
    AlwaysShownIn(es, w, before + [w] + copies + (after + rest));
    if !Shows(Replay(s0, before + [w] + after), w.path, w) {
      NotBroughtBack(Replay(s0, before + [w] + after), rest, w.path, w);
    }
  }

  lemma AlwaysShownIn(es: set<Entry>, w: Entry, log: seq<Entry>)
    requires AlwaysShown(es, w.path, w) && Entries(log) == es
    ensures Shows(Replay(Load(EmptySnapshot), log), w.path, w)
  {}

  lemma CopiesAndRest(es: set<Entry>, w: Entry, before: seq<Entry>, after: seq<Entry>)
    returns (copies: seq<Entry>, rest: seq<Entry>)
    requires w in es && forall e :: e in before || e in after ==> e in es
    ensures (forall c :: c in copies ==> SameFile(c, w)) && (forall e :: e in rest ==> !SameFile(e, w))
    ensures Entries(before + [w] + copies + (after + rest)) == es
  {
    copies := ListSet(set e | e in es && SameFile(e, w));
    rest := ListSet(set e | e in es && !SameFile(e, w));
    assert forall e :: (e in copies <==> e in Entries(copies)) && (e in rest <==> e in Entries(rest));
    assert forall e :: e in before + [w] + copies + (after + rest) <==> e in es;
  }

  lemma WriteYields(es: set<Entry>, x: Entry, w: Entry)
    requires x.Writes() && w.Writes() && x.path == w.path && !SameFile(x, w)
    requires Shows(Replay(Load(EmptySnapshot), [x, w]), w.path, w)
    ensures Yields(es, x, w)
  {
    SecondWrite(x, w);
  }

  /** The state after one delete on an empty log. */
  lemma FirstDelete(x: Entry)
    requires x.typ.Delete?
    ensures var st := Apply(Load(EmptySnapshot), x);
      && st.snap.files == map[] && st.snap.deleted == map[x.path := TombOf(x)] && st.clocks == map[x.path := x.At()]
      && st.dirTombs == map[] && st.root.None?
  {}

  lemma DeleteYields(es: set<Entry>, x: Entry, w: Entry)
    requires x.typ.Delete? && w.Writes() && x.path == w.path
    requires Shows(Replay(Load(EmptySnapshot), [x, w]), w.path, w)
    requires Shows(Replay(Load(EmptySnapshot), [w, x]), w.path, w)
    ensures Yields(es, x, w)
  {
    ReplayTwo(x, w);
    ReplayTwo(w, x);
    FirstDelete(x);
    FirstWrite(w);
    assert !Stale(w.At(), w.path, Apply(Load(EmptySnapshot), x).clocks);
    assert !DeleteTakes(Apply(Load(EmptySnapshot), w), x);
  }

  /** The state after one delete_dir on an empty log. */
  lemma FirstDrop(x: Entry)
    requires x.typ.DeleteDir?
    ensures var st := Apply(Load(EmptySnapshot), x);
      st.snap.files == map[] && st.dirTombs == map[x.path := x.At()] && st.root.None?
  {}

  lemma DropThenWrite(x: Entry, w: Entry)
    requires x.typ.DeleteDir? && w.Writes() && Under(x.path, w.path)
    requires Shows(Replay(Load(EmptySnapshot), [x, w]), w.path, w)
    ensures w.At().Beats(x.At())
  {
    ReplayTwo(x, w);
    FirstDrop(x);
    var st := Apply(Load(EmptySnapshot), x);
    assert x.path in st.dirTombs && st.dirTombs[x.path] == x.At();
    assert Apply(st, w) == st || !Covered(w.path, w.At(), st.dirTombs);
  }

  lemma TombstoneBlocks(st: State, x: Entry, w: Entry)
    requires w.Writes() && w.path !in st.snap.files && Blocks(x, w)
    requires w.path in st.snap.deleted && st.snap.deleted[w.path] == TombOf(x)
    ensures Apply(st, w) == st
  {}

  /** A delete_dir that removed another write blocks `w` for good. */
  lemma SweptThenBlocked(z: Entry, x: Entry, w: Entry)
    requires z.Writes() && x.typ.DeleteDir? && w.Writes() && z.path == w.path && Under(x.path, w.path)
    requires x.At().Beats(z.At()) && Blocks(x, w)
    ensures !Shows(Replay(Load(EmptySnapshot), [z, x, w]), w.path, w)
  {
    var s0, p := Load(EmptySnapshot), w.path;
    ReplayTwo(z, x);
    ReplayOne(s0, [z, x], w);
    assert [z, x] + [w] == [z, x, w];
    FirstWrite(z);
    var st := Apply(s0, z);
    assert Apply(st, x) == ApplyDeleteDir(st, x);
    assert p in Swept(st, x);
    SweepAt(st, x, p);
    hide ApplyDeleteDir, Swept, Apply;
    TombstoneBlocks(ApplyDeleteDir(st, x), x, w);
  }

  lemma DropYields(es: set<Entry>, x: Entry, w: Entry)
    requires AlwaysShown(es, w.path, w) && x in es && w in es
    requires x.typ.DeleteDir? && w.Writes() && Under(x.path, w.path)
    ensures Yields(es, x, w)
  {
    ShownAtOnce(es, w, [x], []);
    assert [x] + [w] + [] == [x, w];
    DropThenWrite(x, w);
    forall z | z in es && z.Writes() && z.path == w.path && x.At().Beats(z.At()) ensures !Blocks(x, w) {
      assert !SameFile(z, w) by {
        if SameFile(z, w) {
          assert z.At() == FileOf(z).At() == FileOf(w).At() == w.At();
          BeatsTrichotomy(x.At(), w.At());
        }
      }
      ShownAtOnce(es, w, [z, x], []);
      assert [z, x] + [w] + [] == [z, x, w];
      if Blocks(x, w) { SweptThenBlocked(z, x, w); }
    }
  }

  // ---- Directories ----------------------------------------------------------------

  /** A latest creation that arrives first stays. */
  lemma {:induction false} FirstLeaderStays(es: set<Entry>, w: Entry, rest: seq<Entry>)
    requires LeadsDir(es, w.path, w) && NoRootDelete(es) && forall e :: e in rest ==> e in es
    ensures DirFrom(Replay(Load(EmptySnapshot), [w] + rest), w.path, w)
    ensures Replay(Load(EmptySnapshot), [w] + rest).root.None?
  {
    var s0, n := Load(EmptySnapshot), |rest| - 1;
    ReplayOne(s0, [], w);
    assert [] + [w] == [w];
    if rest == [] {
      assert [w] + rest == [w] && CreateTakes(s0, w);
    } else {
      assert rest[n] in rest && [w] + rest == ([w] + rest[..n]) + [rest[n]];
      FirstLeaderStays(es, w, rest[..n]);
      ReplayOne(s0, [w] + rest[..n], rest[n]);
      DirStays(es, Replay(s0, [w] + rest[..n]), w, rest[n]);
      RootOnlyByRoot(Replay(s0, [w] + rest[..n]), rest[n]);
    }
  }

  /** A removal as late as every creation that arrives first hides the directory. */
  lemma {:induction false} FirstDropHides(es: set<Entry>, q: string, m: Entry, rest: seq<Entry>)
    requires OutlastsCreates(es, q, m) && NoRootDelete(es) && forall e :: e in rest ==> e in es
    ensures DirGone(Replay(Load(EmptySnapshot), [m] + rest), q, m)
    ensures Replay(Load(EmptySnapshot), [m] + rest).root.None?
  {
    var s0, n := Load(EmptySnapshot), |rest| - 1;
    ReplayOne(s0, [], m);
    assert [] + [m] == [m];
    if rest == [] {
      assert [m] + rest == [m];
      BeatsTrichotomy(m.At(), m.At());
    } else {
      assert rest[n] in rest && [m] + rest == ([m] + rest[..n]) + [rest[n]];
      FirstDropHides(es, q, m, rest[..n]);
      ReplayOne(s0, [m] + rest[..n], rest[n]);
      DirStaysGone(es, Replay(s0, [m] + rest[..n]), q, m, rest[n]);
      RootOnlyByRoot(Replay(s0, [m] + rest[..n]), rest[n]);
    }
  }

  /** Two different latest entries at a directory: whichever arrives first decides. */
  lemma TieSplits(es: set<Entry>, w: Entry, x: Entry) returns (log: seq<Entry>, other: seq<Entry>)
    requires NoRootDelete(es) && LeadsDir(es, w.path, w) && x in es && TouchesDir(x, w.path)
    requires x.At() == w.At() && !SameDir(x, w)
    ensures Entries(log) == es && Entries(other) == es
    ensures w.path in Rebuild(log).dirs && Rebuild(log).dirs[w.path] == DirOf(w)
    ensures !(w.path in Rebuild(other).dirs && Rebuild(other).dirs[w.path] == DirOf(w))
  {
    var all := ListSet(es);
    assert forall e :: e in all <==> e in Entries(all);
    log, other := [w] + all, [x] + all;
    assert Entries(log) == es && Entries(other) == es by {
      assert forall e :: (e in log <==> e in es) && (e in other <==> e in es);
    }
    FirstLeaderStays(es, w, all);
    if x.typ.CreateDir? {
      assert LeadsDir(es, w.path, x);
      FirstLeaderStays(es, x, all);
    } else {
      assert OutlastsCreates(es, w.path, x);
      FirstDropHides(es, w.path, x, all);
    }
  }

  // ---- The theorems ---------------------------------------------------------------

  /** Every order shows `w` exactly when `w` dominates its path. */
  lemma AlwaysShownIff(es: set<Entry>, w: Entry)
    requires NoRootDelete(es) && w in es && w.Writes()
    ensures AlwaysShown(es, w.path, w) <==> Dominates(es, w.path, w)
  {
    var p := w.path;
    if Dominates(es, p, w) {
      forall log | Entries(log) == es ensures Shows(Replay(Load(EmptySnapshot), log), p, w) {
        assert SameFile(w, w);
        DominatorShown(es, log, w);
      }
    }
    if AlwaysShown(es, p, w) {
      forall x | x in es && Touches(x, p) && !SameFile(x, w) ensures Yields(es, x, w) {
        hide AlwaysShown, Yields, Shows;
        OneYields(es, x, w);
      }
    }
  }

  lemma OneYields(es: set<Entry>, x: Entry, w: Entry)
    requires AlwaysShown(es, w.path, w) && x in es && w in es && w.Writes()
    requires Touches(x, w.path) && !SameFile(x, w)
    ensures Yields(es, x, w)
  {
    hide AlwaysShown, Yields, Shows, Replay, Apply, Load, SameFile;
    if x.typ.DeleteDir? {
      DropYields(es, x, w);
    } else {
      ShownAtOnce(es, w, [x], []);
      ShownAtOnce(es, w, [], [x]);
      assert [x] + [w] + [] == [x, w] && [] + [w] + [x] == [w, x];
      if x.Writes() { WriteYields(es, x, w); } else { DeleteYields(es, x, w); }
    }
  }

  lemma TieNotOrderFree(es: set<Entry>, w: Entry, x: Entry)
    requires NoRootDelete(es) && LeadsDir(es, w.path, w) && x in es && TouchesDir(x, w.path)
    requires x.At() == w.At() && !SameDir(x, w)
    ensures !OrderFree(es)
  {
    var log, other := TieSplits(es, w, x);
    assert !SameView(log, other);
  }

  lemma TieNotLatest(es: set<Entry>, w: Entry, x: Entry)
    requires NoRootDelete(es) && LeadsDir(es, w.path, w) && x in es && TouchesDir(x, w.path)
    requires x.At() == w.At() && !SameDir(x, w)
    ensures exists log :: Entries(log) == es && !ShowsLatest(es, Rebuild(log))
  {
    var log, other := TieSplits(es, w, x);
    assert !ShowsLatest(es, Rebuild(other));
  }

  ghost predicate ShowsLatest(es: set<Entry>, snap: Snapshot) {
    ShowsLatestFiles(es, snap.files) && ShowsLatestDirs(es, snap.dirs)
  }

  /** Every order shows the latest write or creation at every path, and nothing where
      a removal is later, exactly when those writes dominate and no such creation
      shares its clock with another entry. */
  lemma LastWriterWinsIff(es: set<Entry>)
    requires NoRootDelete(es)
    ensures (forall log :: Entries(log) == es ==> ShowsLatest(es, Rebuild(log))) <==>
      LeadersDominate(es) && DirsUntied(es)
  {
    if LeadersDominate(es) && DirsUntied(es) {
      forall log | Entries(log) == es ensures ShowsLatest(es, Rebuild(log)) {
        FilesAreLatest(log);
        DirsAreLatest(log);
      }
    }
    if forall log :: Entries(log) == es ==> ShowsLatest(es, Rebuild(log)) {
      forall p, w | LeadsFile(es, p, w) ensures Dominates(es, p, w) {
        forall log | Entries(log) == es ensures Shows(Replay(Load(EmptySnapshot), log), p, w) {
          assert ShowsLatest(es, Rebuild(log));
        }
        AlwaysShownIff(es, w);
      }
      forall q, w, x | LeadsDir(es, q, w) && x in es && TouchesDir(x, q) && x.At() == w.At() ensures SameDir(x, w) {
        if !SameDir(x, w) { TieNotLatest(es, w, x); }
      }
    }
  }

  /** A path whose latest entries include a write has a dominating one, not necessarily
      among them. */
  ghost predicate Agreed(es: set<Entry>) {
    forall p, w :: LeadsFile(es, p, w) ==> exists v :: Dominates(es, p, v)
  }

  ghost predicate Convergent(es: set<Entry>) {
    if NoRootDelete(es) then Agreed(es) && DirsUntied(es) else exists r :: RootLast(es, r)
  }

  /** Any two logs holding the same convergent entries, in any order and with any
      repeats, show the same files and directories. */
  lemma ReplayConverges(log: seq<Entry>, other: seq<Entry>)
    requires Entries(log) == Entries(other) && Convergent(Entries(log))
    ensures SameView(log, other)
  {
    var es := Entries(log);
    if NoRootDelete(es) {
      DirsAreLatest(log);
      DirsAreLatest(other);
      SameDirs(es, Rebuild(log).dirs, Rebuild(other).dirs);
      forall p ensures p in Rebuild(log).files <==> p in Rebuild(other).files
        ensures p in Rebuild(log).files ==> Rebuild(log).files[p] == Rebuild(other).files[p]
      {
        SameFileShown(log, other, p);
      }
    } else {
      var r :| RootLast(es, r);
      RootOrderFreeIff(es, r);
    }
  }

  lemma SameDirs(es: set<Entry>, dirs: map<string, DirInfo>, others: map<string, DirInfo>)
    requires ShowsLatestDirs(es, dirs) && ShowsLatestDirs(es, others)
    ensures dirs == others
  {
    assert forall q :: q in dirs <==> q in others;
    forall q | q in dirs ensures dirs[q] == others[q] {
      var e :| LeadsDir(es, q, e);
    }
  }

  lemma SameFileShown(log: seq<Entry>, other: seq<Entry>, p: string)
    requires Entries(log) == Entries(other) && NoRootDelete(Entries(log)) && Agreed(Entries(log))
    ensures p in Rebuild(log).files <==> p in Rebuild(other).files
    ensures p in Rebuild(log).files ==> Rebuild(log).files[p] == Rebuild(other).files[p]
  {
    var es := Entries(log);
    if w :| LeadsFile(es, p, w) {
      var v :| Dominates(es, p, v);
      assert SameFile(v, v) && v in Entries(log);
      DominatorShown(es, log, v);
      DominatorShown(es, other, v);
    } else {
      NoLeaderNothingShown(log, p);
      NoLeaderNothingShown(other, p);
    }
  }

  /** A path whose latest entries include a write is shown by some order. */
  ghost predicate KeepsLatest(es: set<Entry>) {
    forall p, w :: LeadsFile(es, p, w) ==> exists log :: Entries(log) == es && p in Rebuild(log).files
  }

  /** Every order shows the same files and directories, and loses no path whose latest
      entries include a write, exactly when every such path has a dominating write and
      directories are untied. */
  lemma OrderFreeAndKeptIff(es: set<Entry>)
    requires NoRootDelete(es)
    ensures OrderFree(es) && KeepsLatest(es) <==> Agreed(es) && DirsUntied(es)
  {
    if Agreed(es) && DirsUntied(es) {
      forall log, other | Entries(log) == es && Entries(other) == es ensures SameView(log, other) {
        ReplayConverges(log, other);
      }
      DominatorsKept(es);
    }
    if OrderFree(es) && KeepsLatest(es) {
      OrderFreeUntied(es);
      forall p, w | LeadsFile(es, p, w) ensures exists v :: Dominates(es, p, v) {
        var log :| Entries(log) == es && p in Rebuild(log).files;
        hide KeepsLatest, LeadsFile;
        ShownDominates(es, log, p);
      }
    }
  }

  lemma DominatorsKept(es: set<Entry>)
    requires NoRootDelete(es) && Agreed(es)
    ensures KeepsLatest(es)
  {
    var log := ListSet(es);
    forall p, w | LeadsFile(es, p, w) ensures exists log :: Entries(log) == es && p in Rebuild(log).files {
      var v :| Dominates(es, p, v);
      assert SameFile(v, v) && v in Entries(log);
      DominatorShown(es, log, v);
    }
  }

  lemma OrderFreeUntied(es: set<Entry>)
    requires NoRootDelete(es) && OrderFree(es)
    ensures DirsUntied(es)
  {
    forall q, w, x | LeadsDir(es, q, w) && x in es && TouchesDir(x, q) && x.At() == w.At() ensures SameDir(x, w) {
      if !SameDir(x, w) { TieNotOrderFree(es, w, x); }
    }
  }

  lemma ShownDominates(es: set<Entry>, log: seq<Entry>, p: string)
    requires NoRootDelete(es) && OrderFree(es) && Entries(log) == es && p in Rebuild(log).files
    ensures exists v :: Dominates(es, p, v)
  {
    ReplayInv(log);
    var st := Replay(Load(EmptySnapshot), log);
    assert FileInv(st, es, p);
    var v :| v in es && LiveFrom(st, p, v);
    forall other | Entries(other) == es ensures Shows(Replay(Load(EmptySnapshot), other), p, v) {
      assert SameView(log, other);
    }
    AlwaysShownIff(es, v);
  }

  // ---- Blocked writes ------------------------------------------------------------

  /** A delete that names the content of a later write by another device, or of a write
      with its own clock. */
  predicate Hides(d: Entry, w: Entry) {
    Blocks(d, w) || (Descends(d.prevChecksum, w.checksum) && d.At() == w.At())
  }

  ghost predicate Unblocked(es: set<Entry>) {
    forall p, w, d :: LeadsFile(es, p, w) && d in es && d.typ.Delete? && d.path == p ==> !Hides(d, w)
  }

  /** Every order shows the same files and directories exactly when the entries are
      convergent, unless a delete hides a latest write. */
  lemma OrderFreeIff(es: set<Entry>)
    requires NoRootDelete(es) ==> Unblocked(es)
    ensures OrderFree(es) <==> Convergent(es)
  {
    if NoRootDelete(es) {
      KeptUnlessBlocked(es);
      OrderFreeAndKeptIff(es);
    } else {
      var roots := set e | e in es && e.typ.DeleteRoot?;
      assert roots != {} by { var x :| x in es && x.typ.DeleteRoot?; assert x in roots; }
      var r := LatestOf(roots);
      assert LatestRoot(es, r) by {
        forall x | x in es && x.typ.DeleteRoot? ensures !x.At().Beats(r.At()) { assert x in roots; }
      }
      RootOrderFreeIff(es, r);
      if s :| RootLast(es, s) { RootOrderFreeIff(es, s); }
    }
  }

  lemma {:induction false} WritesKeepFile(st: State, log: seq<Entry>, p: string)
    requires p in st.snap.files && st.root.None? && forall e :: e in log ==> e.Writes()
    ensures p in Replay(st, log).snap.files && Replay(st, log).root.None?
  {
    if log != [] {
      assert log[|log| - 1] in log;
      WritesKeepFile(st, log[..|log| - 1], p);
    }
  }

  /** The latest write arriving after earlier removals and before others is taken. */
  lemma LeaderTakes(es: set<Entry>, before: seq<Entry>, p: string, w: Entry)
    requires NoRootDelete(es) && LeadsFile(es, p, w) && Unblocked(es) && Entries(before) <= es
    requires forall e :: e in Entries(before) && Touches(e, p) ==> !e.Writes() && w.At().Beats(e.At())
    ensures var st := Apply(Replay(Load(EmptySnapshot), before), w); LiveFrom(st, p, w) && st.root.None?
  {
    var st := Replay(Load(EmptySnapshot), before);
    ReplayInv(before);
    assert FileInv(st, Entries(before), p);
    forall d | d in st.dirTombs && Under(d, p) ensures w.At().Beats(st.dirTombs[d]) {
      var x :| x in Entries(before) && x.typ.DeleteDir? && x.path == d && x.At() == st.dirTombs[d];
      assert Touches(x, p);
    }
    assert !Covered(p, w.At(), st.dirTombs);
    if p in st.snap.deleted {
      var d :| d in Entries(before) && GoneFrom(st, Entries(before), p, d);
      assert d.typ.Delete? && !Hides(d, w) && w.At().Beats(d.At());
    }
    assert p !in st.snap.files;
    assert PutTakes(st, w);
  }

  /** Removals with the same clock leave it alone. */
  lemma {:induction false} TiedRemovalsPass(es: set<Entry>, st: State, p: string, w: Entry, tied: seq<Entry>)
    requires NoRootDelete(es) && LeadsFile(es, p, w) && Unblocked(es) && LiveFrom(st, p, w) && st.root.None?
    requires forall e :: e in tied ==> e in es && Touches(e, p) && !e.Writes() && e.At() == w.At()
    ensures LiveFrom(Replay(st, tied), p, w) && Replay(st, tied).root.None?
  {
    if tied != [] {
      var n := |tied| - 1;
      var e, st' := tied[n], Replay(st, tied[..n]);
      assert e in tied;
      TiedRemovalsPass(es, st, p, w, tied[..n]);
      BeatsTrichotomy(w.At(), w.At());
      if e.typ.DeleteDir? { SweepFrame(st', e, p); } else { assert !Hides(e, w) && !DeleteTakes(st', e); }
    }
  }

  lemma LeaderShownSomewhere(es: set<Entry>, p: string, w: Entry) returns (log: seq<Entry>)
    requires NoRootDelete(es) && LeadsFile(es, p, w) && Unblocked(es)
    ensures Entries(log) == es && p in Rebuild(log).files
  {
    var before, tied, after := Staged(es, p, w);
    var s0 := Load(EmptySnapshot);
    log := before + [w] + tied + after;
    assert Entries(log) == es by { assert forall e :: e in log <==> e in es; }
    LeaderTakes(es, before, p, w);
    ReplayOne(s0, before, w);
    ReplayAppend(s0, before + [w], tied);
    ReplayAppend(s0, before + [w] + tied, after);
    hide Apply, Unblocked, LeadsFile;
    TiedRemovalsPass(es, Replay(s0, before + [w]), p, w, tied);
    WritesKeepFile(Replay(s0, before + [w] + tied), after, p);
  }

  lemma Staged(es: set<Entry>, p: string, w: Entry) returns (before: seq<Entry>, tied: seq<Entry>, after: seq<Entry>)
    requires LeadsFile(es, p, w)
    ensures forall e :: e in es <==> e == w || e in before || e in tied || e in after
    ensures Entries(before) <= es && forall e :: e in after ==> e.Writes()
    ensures forall e :: e in Entries(before) && Touches(e, p) ==> !e.Writes() && w.At().Beats(e.At())
    ensures forall e :: e in tied ==> e in es && Touches(e, p) && !e.Writes() && e.At() == w.At()
  {
    var removals := set e | e in es && Touches(e, p) && !e.Writes() && e.At() == w.At();
    var writes := set e | e in es && Touches(e, p) && e.Writes();
    before := ListSet(es - removals - writes);
    tied := ListSet(removals);
    after := ListSet(writes);
    assert forall e :: (e in tied <==> e in Entries(tied)) && (e in after <==> e in Entries(after));
    assert forall e :: e in before <==> e in Entries(before);
    forall e | e in Entries(before) && Touches(e, p) ensures !e.Writes() && w.At().Beats(e.At()) {
      BeatsTrichotomy(w.At(), e.At());
    }
  }

  /** Only such a delete can make every order lose a path whose latest entries include
      a write. */
  lemma KeptUnlessBlocked(es: set<Entry>)
    requires NoRootDelete(es) && Unblocked(es)
    ensures KeepsLatest(es)
  {
    forall p, w | LeadsFile(es, p, w) ensures exists log :: Entries(log) == es && p in Rebuild(log).files {
      var log := LeaderShownSomewhere(es, p, w);
    }
  }

  /** And it does: a delete on another device hides a later write of the same content
      in every order. */
  lemma BlockedWriteIsLost(w: Entry, d: Entry, log: seq<Entry>)
    requires w.Writes() && d.typ.Delete? && d.path == w.path && Blocks(d, w) && w.At().Beats(d.At())
    requires Entries(log) == {w, d}
    ensures LeadsFile({w, d}, w.path, w) && w.path !in Rebuild(log).files
  {
    BlockedStays(w, d, log);
    BeatsTrichotomy(w.At(), d.At());
    BeatsTrichotomy(w.At(), w.At());
    assert d in Entries(log);
  }

  lemma {:induction false} BlockedStays(w: Entry, d: Entry, log: seq<Entry>)
    requires w.Writes() && d.typ.Delete? && d.path == w.path && Blocks(d, w) && w.At().Beats(d.At())
    requires Entries(log) <= {w, d}
    ensures var st := Replay(Load(EmptySnapshot), log); var p := w.path;
      && st.root.None? && st.dirTombs == map[]
      && (d !in log && p in st.snap.files ==> st.snap.files[p] == FileOf(w))
      && (d !in log && p !in st.snap.files ==> p !in st.clocks && p !in st.snap.deleted)
      && (d in log ==> p !in st.snap.files && p in st.snap.deleted && st.snap.deleted[p] == TombOf(d))
  {
    if log != [] {
      var n := |log| - 1;
      assert log == log[..n] + [log[n]];
      LastEntry(log);
      assert log[n] in Entries(log) && (d in log <==> d in Entries(log[..n]) || d == log[n]);
      BlockedStays(w, d, log[..n]);
    }
  }
}
