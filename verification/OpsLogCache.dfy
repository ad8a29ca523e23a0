/**
The local log's snapshot cache and its compaction (pkg/fs/opslog/local.go).

A warm cache advances one entry at a time from the stored snapshot alone, so it
forgets the clock tables that a full replay would still hold.
*/
module OpsLogCache {
  import opened Ordering
  import opened OpsLog

  // ---- What every replay state satisfies -----------------------------------

  ghost predicate TidyFile(st: State, p: string) {
    && !(p in st.snap.files && p in st.snap.deleted)
    && (p in st.clocks <==> p in st.snap.files || p in st.snap.deleted)
    && (p in st.snap.files ==> st.clocks[p] == st.snap.files[p].At())
    && (p in st.snap.deleted ==> st.clocks[p] == st.snap.deleted[p].At())
    && (p in st.snap.files ==> forall d :: d in st.dirTombs && Under(d, p) ==> !st.dirTombs[d].Beats(st.clocks[p]))
  }

  ghost predicate TidyDir(st: State, q: string) {
    && (q in st.snap.dirs ==>
          && q in st.dirClocks && st.dirClocks[q] == st.snap.dirs[q].At()
          && forall d :: d in st.dirTombs && (d == q || Under(d, q)) ==> !st.dirTombs[d].Beats(st.dirClocks[q]))
    && (q !in st.snap.dirs && q in st.dirClocks ==> Shadowed(st, q, st.dirClocks[q]))
  }

  /** A tombstone at or above `q` is at least as late as `c`. */
  ghost predicate Shadowed(st: State, q: string, c: Clock) {
    exists d :: d in st.dirTombs && (d == q || Under(d, q)) && !c.Beats(st.dirTombs[d])
  }

  ghost predicate TidyTomb(st: State, d: string) {
    d in st.snap.deletedDirs ==> d in st.dirTombs && st.dirTombs[d] == st.snap.deletedDirs[d].At()
  }

  ghost predicate Tidy(st: State) {
    && (forall p :: TidyFile(st, p)) && (forall q :: TidyDir(st, q)) && (forall d :: TidyTomb(st, d))
    && st.root == (if st.snap.deletedRoot.Some? then Some(st.snap.deletedRoot.value.At()) else None)
  }

  lemma TidyFileStep(st: State, e: Entry, p: string)
    requires Tidy(st)
    ensures TidyFile(Apply(st, e), p)
  {
    assert TidyFile(st, p);
    match e.typ
    case Put => TidyPut(st, e, p);
    case Symlink => TidyPut(st, e, p);
    case Delete => if p == e.path {} else {}
    case CreateDir =>
    case DeleteDir => TidySweep(st, e, p);
    case DeleteRoot =>
    case Unknown(_) =>
  }

  lemma TidyPut(st: State, e: Entry, p: string)
    requires TidyFile(st, p) && e.Writes()
    ensures TidyFile(Apply(st, e), p)
  {
    if p == e.path {
      forall d | d in st.dirTombs && e.At().Beats(st.dirTombs[d]) { BeatsTrichotomy(e.At(), st.dirTombs[d]); }
    }
  }

  lemma TidySweep(st: State, e: Entry, p: string)
    requires TidyFile(st, p) && e.typ.DeleteDir?
    ensures TidyFile(Apply(st, e), p)
  {
    if Apply(st, e) != st {
      assert Apply(st, e) == ApplyDeleteDir(st, e);
      if p in Swept(st, e) {} else {}
    }
  }

  lemma TidyTombStep(st: State, e: Entry, d: string)
    requires Tidy(st)
    ensures TidyTomb(Apply(st, e), d)
  {
    assert TidyTomb(st, d);
    match e.typ
    case Put =>
    case Symlink =>
    case Delete =>
    case CreateDir =>
    case DeleteDir =>
    case DeleteRoot =>
    case Unknown(_) =>
  }

  lemma TidyDirStep(st: State, e: Entry, q: string)
    requires Tidy(st)
    ensures TidyDir(Apply(st, e), q)
  {
    assert TidyDir(st, q);
    match e.typ
    case Put =>
    case Symlink =>
    case Delete =>
    case CreateDir => TidyCreate(st, e, q);
    case DeleteDir => if Apply(st, e) != st { TidySweepDir(st, e, q); }
    case DeleteRoot =>
    case Unknown(_) =>
  }

  lemma TidyCreate(st: State, e: Entry, q: string)
    requires TidyDir(st, q) && e.typ.CreateDir?
    ensures TidyDir(Apply(st, e), q)
  {
    if q == e.path {
      forall d | d in st.dirTombs && e.At().Beats(st.dirTombs[d]) { BeatsTrichotomy(e.At(), st.dirTombs[d]); }
    }
  }

  lemma TombsGrow(st: State, e: Entry, d: string)
    requires d in st.dirTombs
    ensures var t := ApplyDeleteDir(st, e).dirTombs; d in t && !st.dirTombs[d].Beats(t[d])
  {
    BeatsTrichotomy(e.At(), st.dirTombs[d]);
    BeatsTrichotomy(st.dirTombs[d], st.dirTombs[d]);
  }

  lemma ShadowGrows(st: State, e: Entry, q: string, c: Clock)
    requires Shadowed(st, q, c)
    ensures Shadowed(ApplyDeleteDir(st, e), q, c)
  {
    var d :| d in st.dirTombs && (d == q || Under(d, q)) && !c.Beats(st.dirTombs[d]);
    TombsGrow(st, e, d);
    var t := ApplyDeleteDir(st, e).dirTombs[d];
    BeatsTrichotomy(st.dirTombs[d], t);
    if c.Beats(t) && t != st.dirTombs[d] { BeatsTransitive(c, t, st.dirTombs[d]); }
  }

  lemma OwnShadow(st: State, e: Entry, q: string)
    requires e.path == q || Under(e.path, q)
    ensures Shadowed(ApplyDeleteDir(st, e), q, e.At())
  {
    BeatsTrichotomy(e.At(), e.At());
    assert e.path in ApplyDeleteDir(st, e).dirTombs;
  }

  lemma TidySweepDir(st: State, e: Entry, q: string)
    requires TidyDir(st, q) && e.typ.DeleteDir?
    ensures TidyDir(ApplyDeleteDir(st, e), q)
  {
    var st' := ApplyDeleteDir(st, e);
    if q in st.snap.dirs {
      if q in SweptDirs(st, e) {
        OwnShadow(st, e, q);
      } else {
        assert q in st'.snap.dirs && st'.dirClocks[q] == st.dirClocks[q];
      }
    } else {
      if q in st.dirClocks { ShadowGrows(st, e, q, st.dirClocks[q]); }
      if q == e.path { OwnShadow(st, e, q); }
    }
  }

  lemma TidyStep(st: State, e: Entry)
    requires Tidy(st)
    ensures Tidy(Apply(st, e))
  {
    forall p { TidyFileStep(st, e, p); }
    forall q { TidyDirStep(st, e, q); }
    forall d { TidyTombStep(st, e, d); }
    match e.typ
    case Put =>
    case Symlink =>
    case Delete =>
    case CreateDir =>
    case DeleteDir =>
    case DeleteRoot =>
    case Unknown(_) =>
  }

  lemma {:induction false} TidyReplay(log: seq<Entry>)
    ensures Tidy(Replay(Load(EmptySnapshot), log))
  {
    if log != [] {
      TidyReplay(log[..|log| - 1]);
      TidyStep(Replay(Load(EmptySnapshot), log[..|log| - 1]), log[|log| - 1]);
    }
  }

  // ---- Warm and cold caches -------------------------------------------------

  /** Every tombstone a full replay still enforces is recorded in the snapshot. */
  ghost predicate Synced(st: State) {
    st.dirTombs.Keys == st.snap.deletedDirs.Keys
  }

  /** A create_dir that is accepted over a recorded delete_dir of the same path. */
  ghost predicate Revives(st: State, e: Entry) {
    && e.typ.CreateDir? && e.path in st.snap.deletedDirs
    && !(st.root.Some? && !e.At().Beats(st.root.value)) && CreateTakes(st, e)
  }

  ghost predicate NeverRevives(log: seq<Entry>) {
    log != [] ==>
      var n := |log| - 1;
      NeverRevives(log[..n]) && !Revives(Replay(Load(EmptySnapshot), log[..n]), log[n])
  }

  /** A step forgets a tombstone exactly when it revives a deleted directory. */
  lemma SyncedStep(st: State, e: Entry)
    requires Tidy(st) && Synced(st)
    ensures Synced(Apply(st, e)) <==> !Revives(st, e)
  {
    match e.typ
    case Put =>
    case Symlink =>
    case Delete =>
    case CreateDir =>
      if Revives(st, e) {
        assert e.path in Apply(st, e).dirTombs && e.path !in Apply(st, e).snap.deletedDirs;
      }
    case DeleteDir =>
    case DeleteRoot =>
    case Unknown(_) =>
  }

  /** Reloading a synced state from its snapshot loses only shadowed directory clocks. */
  lemma Reloaded(st: State)
    requires Tidy(st) && Synced(st)
    ensures var l := Load(st.snap);
      && l.snap == st.snap && l.clocks == st.clocks && l.dirTombs == st.dirTombs && l.root == st.root
      && (forall q :: q in st.snap.dirs ==> q in l.dirClocks && l.dirClocks[q] == st.snap.dirs[q].At())
  {
    var l := Load(st.snap);
    forall p ensures (p in l.clocks <==> p in st.clocks) && (p in l.clocks ==> l.clocks[p] == st.clocks[p]) {
      assert TidyFile(st, p);
    }
    forall d ensures (d in l.dirTombs <==> d in st.dirTombs) && (d in l.dirTombs ==> l.dirTombs[d] == st.dirTombs[d]) {
      assert TidyTomb(st, d);
    }
    forall q | q in st.snap.dirs ensures q in l.dirClocks && l.dirClocks[q] == st.snap.dirs[q].At() {
      assert TidyDir(st, q) && TidyTomb(st, q);
    }
  }

  lemma CreateSurvivesReload(st: State, e: Entry)
    requires Tidy(st) && Synced(st)
    ensures CreateTakes(Load(st.snap), e) <==> CreateTakes(st, e)
  {
    Reloaded(st);
    var q, l := e.path, Load(st.snap);
    assert TidyDir(st, q) && TidyTomb(st, q);
    if q !in st.snap.dirs && !Stale(e.At(), q, st.dirTombs) && !Covered(q, e.At(), st.dirTombs) {
      if q in st.dirClocks {
        var d :| d in st.dirTombs && (d == q || Under(d, q)) && !st.dirClocks[q].Beats(st.dirTombs[d]);
        BeatsTrichotomy(st.dirClocks[q], st.dirTombs[d]);
        if st.dirTombs[d].Beats(st.dirClocks[q]) { BeatsTransitive(e.At(), st.dirTombs[d], st.dirClocks[q]); }
      }
    }
  }

  lemma SweepSurvivesReload(st: State, e: Entry)
    requires Tidy(st) && Synced(st)
    ensures ApplyDeleteDir(Load(st.snap), e).snap == ApplyDeleteDir(st, e).snap
  {
    Reloaded(st);
    forall q | q in st.snap.dirs ensures q in st.dirClocks && st.dirClocks[q] == st.snap.dirs[q].At() {
      assert TidyDir(st, q);
    }
    assert SweptDirs(Load(st.snap), e) == SweptDirs(st, e);
    assert Swept(Load(st.snap), e) == Swept(st, e);
  }

  lemma SameTablesSameSnapshot(a: State, b: State, e: Entry)
    requires a.snap == b.snap && a.clocks == b.clocks && a.dirTombs == b.dirTombs && a.root == b.root
    requires CreateTakes(a, e) <==> CreateTakes(b, e)
    requires ApplyDeleteDir(a, e).snap == ApplyDeleteDir(b, e).snap
    ensures Apply(a, e).snap == Apply(b, e).snap
  {
    hide ApplyDeleteDir, CreateTakes, Covered;
    match e.typ
    case Put => assert PutTakes(a, e) <==> PutTakes(b, e);
    case Symlink => assert PutTakes(a, e) <==> PutTakes(b, e);
    case Delete =>
    case CreateDir =>
    case DeleteDir =>
    case DeleteRoot =>
    case Unknown(_) =>
  }

  /** One entry gives the same snapshot from a synced state and from its reloaded snapshot. */
  lemma AdvanceAgrees(st: State, e: Entry)
    requires Tidy(st) && Synced(st)
    ensures Advance(st.snap, e) == Apply(st, e).snap
  {
    Reloaded(st);
    CreateSurvivesReload(st, e);
    SweepSurvivesReload(st, e);
    SameTablesSameSnapshot(Load(st.snap), st, e);
  }

  /** Directory tombstones are later than the root's, which wiped the earlier ones. */
  ghost predicate TombsAfterRoot(st: State) {
    st.root.Some? ==> forall d :: d in st.dirTombs ==> st.dirTombs[d].Beats(st.root.value)
  }

  lemma TombsAfterRootStep(st: State, e: Entry)
    requires TombsAfterRoot(st)
    ensures TombsAfterRoot(Apply(st, e))
  {
    match e.typ
    case Put =>
    case Symlink =>
    case Delete =>
    case CreateDir =>
    case DeleteDir =>
    case DeleteRoot =>
    case Unknown(_) =>
  }

  lemma {:induction false} TombsAfterRootReplay(log: seq<Entry>)
    ensures TombsAfterRoot(Replay(Load(EmptySnapshot), log))
  {
    if log != [] {
      TombsAfterRootReplay(log[..|log| - 1]);
      TombsAfterRootStep(Replay(Load(EmptySnapshot), log[..|log| - 1]), log[|log| - 1]);
    }
  }

  /** A forgotten tombstone shows when its directory is deleted again at its own clock:
      a replay still has it and records nothing, the reloaded snapshot records it. */
  lemma ForgottenTombShows(st: State, d: string) returns (e: Entry)
    requires Tidy(st) && TombsAfterRoot(st) && d in st.dirTombs && d !in st.snap.deletedDirs
    ensures d in Advance(st.snap, e).deletedDirs && d !in Apply(st, e).snap.deletedDirs
  {
    var c := st.dirTombs[d];
    e := Entry(DeleteDir, d, [], 0, "", "", "", "", c.device, c.ts, c.seqNo);
    BeatsTrichotomy(c, c);
    assert e.At() == c;
    var l := Load(st.snap);
    assert l.root == st.root && d !in l.dirTombs;
    assert Apply(l, e) == ApplyDeleteDir(l, e) && Apply(st, e) == ApplyDeleteDir(st, e);
  }

  /** Every next entry gives the same snapshot from a replay state and from its
      reloaded snapshot, exactly when the snapshot records every tombstone. */
  lemma AdvanceAgreesIff(st: State)
    requires Tidy(st) && TombsAfterRoot(st)
    ensures (forall e :: Advance(st.snap, e) == Apply(st, e).snap) <==> Synced(st)
  {
    if Synced(st) {
      forall e ensures Advance(st.snap, e) == Apply(st, e).snap { AdvanceAgrees(st, e); }
    } else {
      assert forall d :: d in st.snap.deletedDirs ==> d in st.dirTombs by {
        forall d | d in st.snap.deletedDirs ensures d in st.dirTombs { assert TidyTomb(st, d); }
      }
      var d :| d in st.dirTombs && d !in st.snap.deletedDirs;
      var e := ForgottenTombShows(st, d);
      assert Advance(st.snap, e) != Apply(st, e).snap;
    }
  }

  lemma {:induction false} SyncedReplay(log: seq<Entry>)
    requires NeverRevives(log)
    ensures Synced(Replay(Load(EmptySnapshot), log))
  {
    if log != [] {
      var n := |log| - 1;
      SyncedReplay(log[..n]);
      TidyReplay(log[..n]);
      SyncedStep(Replay(Load(EmptySnapshot), log[..n]), log[n]);
    }
  }

  /** A cache warmed at `snap` and advanced over `es`. */
  ghost function Warm(snap: Snapshot, es: seq<Entry>): Snapshot {
    if es == [] then snap else Advance(Warm(snap, es[..|es| - 1]), es[|es| - 1])
  }

  /** However long ago the cache was warmed, it shows what a rebuild would show,
      as long as no entry of the log revived a deleted directory. */
  lemma {:induction false} CacheCoherent(log: seq<Entry>, k: nat)
    requires k <= |log| && NeverRevives(log)
    ensures Warm(Rebuild(log[..k]), log[k..]) == Rebuild(log)
    decreases |log| - k
  {
    if k == |log| {
      assert log[..k] == log;
    } else {
      var n := |log| - 1;
      var init := log[..n];
      assert init[..k] == log[..k] && init[k..] == log[k..][..n - k];
      CacheCoherent(init, k);
      TidyReplay(init);
      SyncedReplay(init);
      AdvanceAgrees(Replay(Load(EmptySnapshot), init), log[n]);
    }
  }

  /** After every prefix of the log, any entry that could come next is shown alike by
      the cache and by a rebuild. */
  ghost predicate Coherent(log: seq<Entry>) {
    forall n, e :: 0 <= n <= |log| ==> Advance(Rebuild(log[..n]), e) == Rebuild(log[..n] + [e])
  }

  lemma CoherentAt(log: seq<Entry>, n: nat)
    requires n <= |log|
    ensures (forall e :: Advance(Rebuild(log[..n]), e) == Rebuild(log[..n] + [e]))
            <==> Synced(Replay(Load(EmptySnapshot), log[..n]))
  {
    var st := Replay(Load(EmptySnapshot), log[..n]);
    TidyReplay(log[..n]);
    TombsAfterRootReplay(log[..n]);
    AdvanceAgreesIff(st);
    forall e ensures Rebuild(log[..n] + [e]) == Apply(st, e).snap { ReplayOne(Load(EmptySnapshot), log[..n], e); }
  }

  lemma {:induction false} SyncedAlong(log: seq<Entry>)
    ensures NeverRevives(log) <==> forall n :: 0 <= n <= |log| ==> Synced(Replay(Load(EmptySnapshot), log[..n]))
  {
    if log == [] {
      assert log[..0] == [];
    } else {
      var last := |log| - 1;
      var front, e := log[..last], log[last];
      var st := Replay(Load(EmptySnapshot), front);
      assert Replay(Load(EmptySnapshot), log) == Apply(st, e);
      SyncedAlong(front);
      TidyReplay(front);
      if Synced(st) { SyncedStep(st, e); }
      hide Synced, Revives, Replay, Apply, Load, Tidy;
      assert forall n :: 0 <= n <= last ==> front[..n] == log[..n];
      assert log[..|log|] == log && front[..last] == front;
    }
  }

  /** The cache is coherent along the log exactly when no entry of it revives a
      deleted directory. */
  lemma CacheCoherentIff(log: seq<Entry>)
    ensures Coherent(log) <==> NeverRevives(log)
  {
    SyncedAlong(log);
    forall n | 0 <= n <= |log|
      ensures (forall e :: Advance(Rebuild(log[..n]), e) == Rebuild(log[..n] + [e])) <==>
          Synced(Replay(Load(EmptySnapshot), log[..n]))
    {
      CoherentAt(log, n);
    }
    hide Synced, Rebuild, Advance, NeverRevives, Replay;
  }

  /** Deleting a directory, creating it again and then learning of an older file
      in it: the warm cache shows the file, a restart does not. */
  lemma RevivedDirectorySplitsCache(drop: Entry, create: Entry, put: Entry)
    requires drop.typ.DeleteDir? && create.typ.CreateDir? && put.typ.Put?
    requires drop.path == create.path && Under(drop.path, put.path)
    requires create.At().Beats(drop.At()) && !put.At().Beats(drop.At())
    ensures put.path in Incremental([drop, create, put]).files
    ensures put.path !in Rebuild([drop, create, put]).files
  {
    var revived := Snapshot(map[], map[create.path := DirOf(create)], map[], map[], None);
    DropThenCreate(drop, create);
    var b := Replay(Load(EmptySnapshot), [drop, create]);
    ReplayOne(Load(EmptySnapshot), [drop, create], put);
    assert [drop, create] + [put] == [drop, create, put] && [drop, create, put][..2] == [drop, create];
    assert Covered(put.path, put.At(), b.dirTombs);
    assert Load(revived).dirTombs == map[] && Load(revived).clocks == map[];
  }

  lemma DropThenCreate(drop: Entry, create: Entry)
    requires drop.typ.DeleteDir? && create.typ.CreateDir?
    requires drop.path == create.path && create.At().Beats(drop.At())
    ensures var b := Replay(Load(EmptySnapshot), [drop, create]);
      && b.dirTombs == map[drop.path := drop.At()]
      && b.snap == Snapshot(map[], map[create.path := DirOf(create)], map[], map[], None)
      && Incremental([drop, create]) == b.snap
  {
    var s0, d := Load(EmptySnapshot), drop.path;
    var a := ApplyDeleteDir(s0, drop);
    ReplayOne(s0, [], drop);
    ReplayOne(s0, [drop], create);
    assert [] + [drop] == [drop] && [drop] + [create] == [drop, create] && [drop, create][..1] == [drop];
    assert Replay(s0, [drop]) == a == Apply(s0, drop);
    assert a.snap == Snapshot(map[], map[], map[], map[d := TombOf(drop)], None);
    assert a.dirTombs == map[d := drop.At()];
    DirClockOfDrop(drop);
    NotUnderSelf(d);
    assert CreateTakes(a, create);
    TidyReplay([drop]);
    AdvanceAgrees(a, create);
    assert Incremental([drop]) == Advance(EmptySnapshot, drop) == a.snap;
  }

  lemma DirClockOfDrop(drop: Entry)
    requires drop.typ.DeleteDir?
    ensures ApplyDeleteDir(Load(EmptySnapshot), drop).dirClocks == map[drop.path := drop.At()]
  {
    var s0 := Load(EmptySnapshot);
    assert SweptDirs(s0, drop) == {} && s0.dirClocks == map[];
  }

  lemma NotUnderSelf(d: string)
    ensures !Under(d, d)
  {}
}
