/** The materialization loop and the cached, compacted local log (pkg/fs/opslog). */
module LocalLog {
  import opened Ordering
  import opened Sorting
  import opened OpsLog
  import opened OpsLogCache
  import opened OpsLogCompaction

  /** The directory half of delete_dir: its own entry first, then a range loop. */
  method SweepDirs(st: State, e: Entry) returns (dirs: map<string, DirInfo>, clocks: map<string, Clock>)
    ensures dirs == st.snap.dirs - SweptDirs(st, e)
    ensures clocks == SetAll(st.dirClocks,
        SweptDirs(st, e) + (if Stale(e.At(), e.path, st.dirClocks) then {} else {e.path}), e.At())
  {
    dirs, clocks := st.snap.dirs, st.dirClocks;
    ghost var own := if Stale(e.At(), e.path, st.dirClocks) then {} else {e.path};
    ghost var total := SweptDirs(st, e) + own;
    assert st.snap.dirs - total == st.snap.dirs - SweptDirs(st, e);
    SweepMore(dirs, {}, e.path, DirOf(e));
    SweepMore(clocks, {}, e.path, e.At());
    assert {} + {e.path} == {e.path};
    if !Stale(e.At(), e.path, clocks) {
      dirs := dirs - {e.path};
      clocks := clocks[e.path := e.At()];
    }
    var pending := dirs.Keys;
    assert total - pending == own;
    assert forall q :: q in pending ==> (q in total <==> Under(e.path, q) && !Stale(e.At(), q, st.dirClocks));
    hide SweptDirs;
    while pending != {}
      invariant forall q :: q in pending ==> (q in total <==> Under(e.path, q) && !Stale(e.At(), q, st.dirClocks))
      invariant dirs == st.snap.dirs - (total - pending)
      invariant clocks == SetAll(st.dirClocks, total - pending, e.At())
      decreases pending
    {
      var q :| q in pending;
      ghost var gone := total - pending;
      assert Stale(e.At(), q, clocks) <==> Stale(e.At(), q, st.dirClocks);
      pending := pending - {q};
      assert total - pending == if q in total then gone + {q} else gone;
      if Under(e.path, q) && !Stale(e.At(), q, clocks) {
        SweepMore(st.snap.dirs, gone, q, DirOf(e));
        SweepMore(st.dirClocks, gone, q, e.At());
        dirs := dirs - {q};
        clocks := clocks[q := e.At()];
      }
    }
    assert total - {} == total;
  }

  /** One round of the replay loop. */
  method Step(st: State, e: Entry) returns (r: State)
    ensures r == Apply(st, e)
  {
    if st.root.Some? && !e.At().Beats(st.root.value) { return st; }
    match e.typ
    case Put | Symlink =>
      if PutLoses(st, e) { return st; }
      var covered := CoveredByDirTombstone(e.path, e.At(), st.dirTombs);
      if covered { return st; }
      r := st.(clocks := st.clocks[e.path := e.At()],
               snap := st.snap.(files := st.snap.files[e.path := FileOf(e)], deleted := st.snap.deleted - {e.path}));
    case Delete =>
      if !DeleteTakes(st, e) { return st; }
      r := st.(clocks := st.clocks[e.path := e.At()],
               snap := st.snap.(files := st.snap.files - {e.path}, deleted := st.snap.deleted[e.path := TombOf(e)]));
    case CreateDir =>
      if Stale(e.At(), e.path, st.dirClocks) || Stale(e.At(), e.path, st.dirTombs) { return st; }
      var covered := CoveredByDirTombstone(e.path, e.At(), st.dirTombs);
      if covered { return st; }
      r := st.(dirClocks := st.dirClocks[e.path := e.At()],
               snap := st.snap.(dirs := st.snap.dirs[e.path := DirOf(e)],
                   deletedDirs := st.snap.deletedDirs - {e.path}));
    case DeleteDir =>
      r := StepDeleteDir(st, e);
    case DeleteRoot =>
      r := State(Snapshot(map[], map[], map[], map[], Some(TombOf(e))), map[], map[], map[], Some(e.At()));
    case Unknown(_) =>
      r := st;
  }

  method StepDeleteDir(st: State, e: Entry) returns (r: State)
    ensures r == ApplyDeleteDir(st, e)
  {
    var tombs, deletedDirs := st.dirTombs, st.snap.deletedDirs;
    if !Stale(e.At(), e.path, tombs) {
      tombs := tombs[e.path := e.At()];
      deletedDirs := deletedDirs[e.path := TombOf(e)];
    }
    var files, deleted, clocks := SweepFiles(st, e);
    var dirs, dirClocks := SweepDirs(st, e);
    r := State(Snapshot(files, dirs, deleted, deletedDirs, st.snap.deletedRoot), clocks, tombs, dirClocks, st.root);
  }

  /** `buildSnapshot`: seed from a base, then one round per entry. */
  method BuildSnapshot(base: Snapshot, es: seq<Entry>) returns (s: Snapshot)
    ensures s == Replay(Load(base), es).snap
  {
    var st := Load(base);
    for i := 0 to |es|
      invariant st == Replay(Load(base), es[..i])
    {
      assert es[..i + 1] == es[..i] + [es[i]];
      ReplayOne(Load(base), es[..i], es[i]);
      st := Step(st, es[i]);
    }
    assert es[..|es|] == es;
    s := st.snap;
  }

  lemma AscendingLists(order: seq<string>, keys: set<string>)
    requires Ascending(order) && (set k | k in order) == keys
    ensures Lists(order, keys)
  {
    forall i, j | 0 <= i < j < |order| ensures order[i] != order[j] { StrTrichotomy(order[i], order[j]); }
    forall p ensures p in order <==> p in keys { assert p in order <==> p in (set k | k in order); }
  }

  class LocalOpsLog {
    const deviceId: string
    var entries: seq<Entry>
    var cache: Option<Snapshot>
    var seqNo: int
    /** How much of the log had been read when the cache was last rebuilt. */
    ghost var warmFrom: nat

    /** A warm cache is a rebuild advanced entry by entry, and is settled. */
    ghost predicate Valid()
      reads this
    {
      cache.Some? ==>
        && warmFrom <= |entries|
        && cache.value == Warm(Rebuild(entries[..warmFrom]), entries[warmFrom..])
        && Settled(cache.value)
    }

    /** What readers of the log are shown. */
    ghost function View(): Snapshot
      reads this
    {
      if cache.Some? then cache.value else Rebuild(entries)
    }

    constructor (deviceId: string)
      ensures Valid() && this.deviceId == deviceId && entries == [] && View() == EmptySnapshot && seqNo == 0
    {
      this.deviceId := deviceId;
      entries, cache, seqNo := [], None, 0;
    }

    /** The tail of both appends: the line is written, then a warm cache advances. */
    method Record(e: Entry)
      requires Valid()
      modifies this`entries, this`cache
      ensures Valid() && entries == old(entries) + [e] && (cache.Some? <==> old(cache.Some?))
      ensures old(cache.Some?) ==> View() == Advance(old(View()), e)
    {
      entries := entries + [e];
      if cache.Some? {
        var next := BuildSnapshot(cache.value, [e]);
        ReplayOne(Load(cache.value), [], e);
        assert [] + [e] == [e];
        SettledAdvance(cache.value, e);
        assert entries[..warmFrom] == old(entries)[..warmFrom];
        assert entries[warmFrom..] == old(entries)[warmFrom..] + [e];
        assert (old(entries)[warmFrom..] + [e])[..|old(entries)| - warmFrom] == old(entries)[warmFrom..];
        cache := Some(next);
      }
    }

    /** A failed write leaves the log and the cache alone. */
    method Append(e: Entry, writeOk: bool) returns (ok: bool)
      requires Valid()
      modifies this`entries, this`cache
      ensures Valid() && ok == writeOk && (cache.Some? <==> old(cache.Some?))
      ensures entries == if ok then old(entries) + [e] else old(entries)
      ensures !ok ==> View() == old(View())
      ensures ok && old(cache.Some?) ==> View() == Advance(old(View()), e)
    {
      if writeOk { Record(e); }
      ok := writeOk;
    }

    /** Local entries are stamped; the counter moves even if the write then fails. */
    method AppendLocal(e: Entry, now: int, writeOk: bool) returns (ok: bool)
      requires Valid()
      modifies this`entries, this`cache, this`seqNo
      ensures Valid() && ok == writeOk && seqNo == old(seqNo) + 1 && (cache.Some? <==> old(cache.Some?))
      ensures var stamped :=
          e.(device := deviceId, seqNo := seqNo, timestamp := if e.timestamp == 0 then now else e.timestamp);
        && entries == (if ok then old(entries) + [stamped] else old(entries))
        && (ok && old(cache.Some?) ==> View() == Advance(old(View()), stamped))
        && (!ok ==> View() == old(View()))
    {
      seqNo := seqNo + 1;
      var stamped := e.(device := deviceId, seqNo := seqNo, timestamp := if e.timestamp == 0 then now else e.timestamp);
      if writeOk { Record(stamped); }
      ok := writeOk;
    }

    /** Rebuilding also raises the counter to every local sequence number in the file. */
    method Rebuilt() returns (s: Snapshot)
      requires Valid() && cache.None?
      modifies this`cache, this`seqNo, this`warmFrom
      ensures Valid() && s == Rebuild(entries) && cache == Some(s)
      ensures seqNo >= old(seqNo)
      ensures forall i :: 0 <= i < |entries| && entries[i].device == deviceId ==> entries[i].seqNo <= seqNo
      ensures seqNo == old(seqNo) || exists i ::
          0 <= i < |entries| && entries[i].device == deviceId && entries[i].seqNo == seqNo
    {
      s := BuildSnapshot(EmptySnapshot, entries);
      var top := seqNo;
      for i := 0 to |entries|
        invariant top >= seqNo
        invariant forall j :: 0 <= j < i && entries[j].device == deviceId ==> entries[j].seqNo <= top
        invariant top == seqNo || exists j :: 0 <= j < i && entries[j].device == deviceId && entries[j].seqNo == top
      {
        if entries[i].device == deviceId && entries[i].seqNo > top { top := entries[i].seqNo; }
      }
      cache, seqNo, warmFrom := Some(s), top, |entries|;
      assert entries[..warmFrom] == entries && entries[warmFrom..] == [];
      RebuiltIsSettled(entries);
    }

    /** Reading never changes what is shown, and shows the log itself unless some
        entry revived a deleted directory. */
    method Current() returns (s: Snapshot)
      requires Valid()
      modifies this`cache, this`seqNo, this`warmFrom
      ensures Valid() && s == old(View()) == View() && cache == Some(s)
      ensures NeverRevives(entries) ==> s == Rebuild(entries)
    {
      if cache.Some? {
        s := cache.value;
        if NeverRevives(entries) { CacheCoherent(entries, warmFrom); }
      } else {
        s := Rebuilt();
      }
    }

    method InvalidateCache()
      modifies this`cache
      ensures Valid() && cache == None && View() == Rebuild(entries)
    {
      cache := None;
    }

    /** The file becomes the compacted form of what was shown; reading it back
        shows the same minus pending uploads, or a root tombstone and nothing else. */
    method Compact()
      requires Valid()
      modifies this`entries, this`cache, this`seqNo, this`warmFrom
      ensures Valid() && cache == None
      ensures old(View()).deletedRoot.None? ==> KeepsUploaded(old(View()), View())
      ensures old(View()).deletedRoot.Some? ==> View() == EmptySnapshot.(deletedRoot := old(View()).deletedRoot)
    {
      var shown := Current();
      var s := Stripped(shown);
      var files := SortedKeys(s.files.Keys);
      var dirs := SortedKeys(s.dirs.Keys);
      var deleted := SortedKeys(s.deleted.Keys);
      var deletedDirs := SortedKeys(s.deletedDirs.Keys);
      AscendingLists(files, s.files.Keys);
      AscendingLists(dirs, s.dirs.Keys);
      AscendingLists(deleted, s.deleted.Keys);
      AscendingLists(deletedDirs, s.deletedDirs.Keys);
      StrippedIff(shown, s);
      CompactionRebuilds(s, Visit(files, dirs, deleted, deletedDirs));
      entries := Puts(s, files) + Creates(s, dirs) + Deletes(s, deleted) + DirDeletes(s, deletedDirs) + RootDeletes(s);
      cache := None;
    }
  }
}
