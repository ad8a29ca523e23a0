/**
Compaction of the local log: one synthetic entry per surviving file, directory
and tombstone, written in that order with the root tombstone last.
*/
module OpsLogCompaction {
  import opened Ordering
  import opened OpsLog
  import opened OpsLogCache

  function PutOf(p: string, fi: FileInfo): (e: Entry)
    ensures e.Writes() && e.path == p && FileOf(e) == fi && (e.typ.Symlink? <==> fi.linkTarget != "")
  {
    Entry(if fi.linkTarget != "" then Symlink else Put, p, fi.chunks, fi.size, fi.checksum,
          fi.prevChecksum, fi.linkTarget, fi.namespace, fi.device, fi.modified, fi.seqNo)
  }

  function CreateOf(q: string, di: DirInfo): (e: Entry)
    ensures e.typ.CreateDir? && e.path == q && DirOf(e) == di
  {
    Entry(CreateDir, q, [], 0, "", "", "", di.namespace, di.device, di.modified, di.seqNo)
  }

  function RemovalOf(typ: EntryType, p: string, t: Tombstone): (e: Entry)
    ensures e.typ == typ && e.path == p && TombOf(e) == t
  {
    Entry(typ, p, [], 0, "", t.prevChecksum, "", t.namespace, t.device, t.modified, t.seqNo)
  }

  /** `order` lists `keys`, each once. */
  ghost predicate Lists(order: seq<string>, keys: set<string>) {
    && (forall p :: p in order <==> p in keys)
    && (forall i, j :: 0 <= i < j < |order| ==> order[i] != order[j])
  }

  /** The key order compaction visits each map in; the code sorts each list. */
  datatype Visit = Visit(files: seq<string>, dirs: seq<string>, deleted: seq<string>, deletedDirs: seq<string>)

  /** The snapshot without puts still waiting for their upload. */
  function Stripped(s: Snapshot): Snapshot {
    s.(files := map p | p in s.files && !s.files[p].Chunkless() :: s.files[p])
  }

  /** `t` is `s` without the files that have neither chunks nor a link target. */
  ghost predicate KeepsUploaded(s: Snapshot, t: Snapshot) {
    && (forall p :: p in t.files <==> p in s.files && (s.files[p].chunks != [] || s.files[p].linkTarget != ""))
    && (forall p :: p in t.files ==> t.files[p] == s.files[p])
    && t.dirs == s.dirs && t.deleted == s.deleted && t.deletedDirs == s.deletedDirs && t.deletedRoot == s.deletedRoot
  }

  /** Stripping keeps uploaded files and links, and nothing else keeps the rest. */
  lemma StrippedIff(s: Snapshot, t: Snapshot)
    ensures t == Stripped(s) <==> KeepsUploaded(s, t)
  {
    if KeepsUploaded(s, t) { assert t.files == Stripped(s).files; }
  }

  /** No put is still waiting for its upload. */
  ghost predicate AllUploaded(s: Snapshot) {
    forall p :: p in s.files ==> s.files[p].chunks != [] || s.files[p].linkTarget != ""
  }

  /** A root tombstone has nothing beside it but puts waiting for their upload. */
  ghost predicate RootAlone(s: Snapshot) {
    && s.dirs == map[] && s.deleted == map[] && s.deletedDirs == map[]
    && forall p :: p in s.files ==> s.files[p].chunks == [] && s.files[p].linkTarget == ""
  }

  ghost predicate Visits(v: Visit, s: Snapshot) {
    && Lists(v.files, s.files.Keys) && Lists(v.dirs, s.dirs.Keys)
    && Lists(v.deleted, s.deleted.Keys) && Lists(v.deletedDirs, s.deletedDirs.Keys)
  }

  function Puts(s: Snapshot, order: seq<string>): (es: seq<Entry>)
    requires forall p :: p in order ==> p in s.files
  {
    seq(|order|, i requires 0 <= i < |order| => PutOf(order[i], s.files[order[i]]))
  }

  function Creates(s: Snapshot, order: seq<string>): (es: seq<Entry>)
    requires forall p :: p in order ==> p in s.dirs
  {
    seq(|order|, i requires 0 <= i < |order| => CreateOf(order[i], s.dirs[order[i]]))
  }

  function Deletes(s: Snapshot, order: seq<string>): (es: seq<Entry>)
    requires forall p :: p in order ==> p in s.deleted
  {
    seq(|order|, i requires 0 <= i < |order| => RemovalOf(Delete, order[i], s.deleted[order[i]]))
  }

  function DirDeletes(s: Snapshot, order: seq<string>): (es: seq<Entry>)
    requires forall p :: p in order ==> p in s.deletedDirs
  {
    seq(|order|, i requires 0 <= i < |order| => RemovalOf(DeleteDir, order[i], s.deletedDirs[order[i]]))
  }

  function RootDeletes(s: Snapshot): seq<Entry> {
    if s.deletedRoot.Some? then [RemovalOf(DeleteRoot, "", s.deletedRoot.value)] else []
  }

  /** The compacted file for a snapshot whose chunkless puts are already stripped. */
  ghost function CompactLog(s: Snapshot, v: Visit): seq<Entry>
    requires Visits(v, s)
  {
    Puts(s, v.files) + Creates(s, v.dirs) + Deletes(s, v.deleted) + DirDeletes(s, v.deletedDirs) + RootDeletes(s)
  }

  /** `t` is no later than the live files and directories it would cover. */
  ghost predicate Spares(files: map<string, FileInfo>, dirs: map<string, DirInfo>, d: string, t: Tombstone) {
    && (forall p :: p in files && Under(d, p) ==> !t.At().Beats(files[p].At()))
    && (forall q :: q in dirs && (d == q || Under(d, q)) ==> !t.At().Beats(dirs[q].At()))
  }

  /** What every replayed snapshot satisfies and compaction relies on. */
  ghost predicate Settled(s: Snapshot) {
    && s.files.Keys !! s.deleted.Keys
    && (forall d :: d in s.deletedDirs ==> Spares(s.files, s.dirs, d, s.deletedDirs[d]))
  }

  lemma TidyIsSettled(st: State)
    requires Tidy(st)
    ensures Settled(st.snap)
  {
    forall p ensures !(p in st.snap.files && p in st.snap.deleted) { assert TidyFile(st, p); }
    forall d | d in st.snap.deletedDirs
      ensures Spares(st.snap.files, st.snap.dirs, d, st.snap.deletedDirs[d])
    {
      assert TidyTomb(st, d);
      var at := st.snap.deletedDirs[d].At();
      forall p | p in st.snap.files && Under(d, p) ensures !at.Beats(st.snap.files[p].At()) { assert TidyFile(st, p); }
      forall q | q in st.snap.dirs && (d == q || Under(d, q)) ensures !at.Beats(st.snap.dirs[q].At()) {
        assert TidyDir(st, q);
      }
    }
  }

  lemma LoadedIsTidy(s: Snapshot)
    requires Settled(s)
    ensures Tidy(Load(s))
  {
    var st := Load(s);
    forall p ensures TidyFile(st, p) {}
    forall q ensures TidyDir(st, q) {
      if q in s.deletedDirs {
        BeatsTrichotomy(s.deletedDirs[q].At(), s.deletedDirs[q].At());
        assert q in st.dirTombs;
      }
    }
    forall d ensures TidyTomb(st, d) {}
  }

  lemma RebuiltIsSettled(log: seq<Entry>)
    ensures Settled(Rebuild(log))
  {
    TidyReplay(log);
    TidyIsSettled(Replay(Load(EmptySnapshot), log));
  }

  /** A warm cache stays settled too, whatever it has forgotten. */
  lemma SettledAdvance(s: Snapshot, e: Entry)
    requires Settled(s)
    ensures Settled(Advance(s, e))
  {
    LoadedIsTidy(s);
    TidyStep(Load(s), e);
    TidyIsSettled(Apply(Load(s), e));
  }

  // ---- Each compacted entry adds back exactly what it stands for -----------

  lemma AddFile(s: Snapshot, p: string, fi: FileInfo)
    requires s.deletedRoot.None? && s.deletedDirs == map[] && p !in s.files && p !in s.deleted
    ensures Apply(Load(s), PutOf(p, fi)) == Load(s.(files := s.files[p := fi]))
  {
    var st, e := Load(s), PutOf(p, fi);
    assert PutTakes(st, e) && s.deleted - {p} == s.deleted;
    LoadWithFile(s, p, fi);
    hide PutTakes;
  }

  lemma LoadWithFile(s: Snapshot, p: string, fi: FileInfo)
    requires p !in s.files && p !in s.deleted
    ensures var l, l' := Load(s), Load(s.(files := s.files[p := fi]));
      l' == State(s.(files := s.files[p := fi]), l.clocks[p := fi.At()], l.dirTombs, l.dirClocks, l.root)
  {
    var more := s.files[p := fi];
    var live, live', gone := (map q | q in s.files :: s.files[q].At()), (map q | q in more :: more[q].At()),
      (map q | q in s.deleted :: s.deleted[q].At());
    assert live' == live[p := fi.At()];
    assert live' + gone == (live + gone)[p := fi.At()];
  }

  lemma AddDir(s: Snapshot, q: string, di: DirInfo)
    requires s.deletedRoot.None? && s.deletedDirs == map[] && q !in s.dirs
    ensures Apply(Load(s), CreateOf(q, di)) == Load(s.(dirs := s.dirs[q := di]))
  {
    var st, e := Load(s), CreateOf(q, di);
    assert CreateTakes(st, e);
    assert Load(s.(dirs := s.dirs[q := di])).dirClocks == st.dirClocks[q := e.At()];
  }

  lemma AddDeleted(s: Snapshot, p: string, t: Tombstone)
    requires s.deletedRoot.None? && p !in s.files && p !in s.deleted
    ensures Apply(Load(s), RemovalOf(Delete, p, t)) == Load(s.(deleted := s.deleted[p := t]))
  {
    var st, e := Load(s), RemovalOf(Delete, p, t);
    assert DeleteTakes(st, e) && s.files - {p} == s.files;
    LoadWithDeleted(s, p, t);
    hide DeleteTakes;
  }

  lemma LoadWithDeleted(s: Snapshot, p: string, t: Tombstone)
    requires p !in s.files && p !in s.deleted
    ensures var l, l' := Load(s), Load(s.(deleted := s.deleted[p := t]));
      l' == State(s.(deleted := s.deleted[p := t]), l.clocks[p := t.At()], l.dirTombs, l.dirClocks, l.root)
  {
    var more := s.deleted[p := t];
    var live, gone, gone' := (map q | q in s.files :: s.files[q].At()), (map q | q in s.deleted :: s.deleted[q].At()),
      (map q | q in more :: more[q].At());
    assert gone' == gone[p := t.At()];
    assert live + gone' == (live + gone)[p := t.At()];
  }

  lemma NothingSwept(s: Snapshot, d: string, t: Tombstone)
    requires s.files.Keys !! s.deleted.Keys && Spares(s.files, s.dirs, d, t)
    requires forall x :: x in s.deletedDirs ==> Spares(s.files, s.dirs, x, s.deletedDirs[x])
    ensures Swept(Load(s), RemovalOf(DeleteDir, d, t)) == {}
    ensures SweptDirs(Load(s), RemovalOf(DeleteDir, d, t)) == {}
  {}

  lemma DirClockAt(s: Snapshot, q: string)
    ensures var c := Load(s).dirClocks;
      && (q in c <==> q in s.dirs || q in s.deletedDirs)
      && (q in c ==> c[q] == if q in s.deletedDirs && (q !in s.dirs || s.deletedDirs[q].At().Beats(s.dirs[q].At()))
                             then s.deletedDirs[q].At() else s.dirs[q].At())
  {}

  lemma DirClocksAfterDelete(s: Snapshot, d: string, t: Tombstone)
    requires d !in s.deletedDirs && Spares(s.files, s.dirs, d, t)
    ensures Load(s.(deletedDirs := s.deletedDirs[d := t])).dirClocks
            == SetAll(Load(s).dirClocks, if d in s.dirs then {} else {d}, t.At())
  {
    assert d in s.dirs ==> !t.At().Beats(s.dirs[d].At());
    hide Spares, Load;
    var s' := s.(deletedDirs := s.deletedDirs[d := t]);
    var l, goal, own := Load(s).dirClocks, Load(s').dirClocks, if d in s.dirs then {} else {d};
    forall q ensures (q in goal <==> q in l || q in own)
        && (q in goal ==> goal[q] == if q in own then t.At() else l[q]) {
      DirClockAt(s, q);
      DirClockAt(s', q);
    }
    SetAllIs(l, own, t.At(), goal);
  }

  lemma SetAllIs(m: map<string, Clock>, keys: set<string>, c: Clock, r: map<string, Clock>)
    requires forall k :: k in r <==> k in m || k in keys
    requires forall k :: k in r ==> r[k] == if k in keys then c else m[k]
    ensures r == SetAll(m, keys, c)
  {}

  lemma TombsAfterDelete(s: Snapshot, d: string, t: Tombstone)
    ensures Load(s.(deletedDirs := s.deletedDirs[d := t])).dirTombs == Load(s).dirTombs[d := t.At()]
  {}

  lemma SweepNothing(st: State, e: Entry, own: set<string>)
    requires Swept(st, e) == {} && SweptDirs(st, e) == {} && e.path !in st.dirTombs
    requires own == if Stale(e.At(), e.path, st.dirClocks) then {} else {e.path}
    ensures ApplyDeleteDir(st, e)
            == State(st.snap.(deletedDirs := st.snap.deletedDirs[e.path := TombOf(e)]), st.clocks,
                     st.dirTombs[e.path := e.At()], SetAll(st.dirClocks, own, e.At()), st.root)
  {
    SweepMore(st.snap.files, {}, e.path, FileOf(e));
    SweepMore(st.snap.dirs, {}, e.path, DirOf(e));
    SweepMore(st.snap.deleted, {}, e.path, TombOf(e));
    SweepMore(st.clocks, {}, e.path, e.At());
    assert {} + own == own;
  }

  lemma AddDeletedDir(s: Snapshot, d: string, t: Tombstone)
    requires s.deletedRoot.None? && d !in s.deletedDirs
    requires s.files.Keys !! s.deleted.Keys && Spares(s.files, s.dirs, d, t)
    requires forall x :: x in s.deletedDirs ==> Spares(s.files, s.dirs, x, s.deletedDirs[x])
    ensures Apply(Load(s), RemovalOf(DeleteDir, d, t)) == Load(s.(deletedDirs := s.deletedDirs[d := t]))
  {
    var st, e := Load(s), RemovalOf(DeleteDir, d, t);
    NothingSwept(s, d, t);
    DirClocksAfterDelete(s, d, t);
    assert Stale(e.At(), d, st.dirClocks) <==> d in s.dirs;
    SweepNothing(st, e, if d in s.dirs then {} else {d});
    TombsAfterDelete(s, d, t);
    assert Apply(st, e) == ApplyDeleteDir(st, e);
  }

  // ---- The phases ------------------------------------------------------------

  /** `m` cut down to the keys listed so far. */
  function Only<V>(m: map<string, V>, keys: seq<string>): map<string, V> {
    map k | k in m && k in keys :: m[k]
  }

  lemma OnlyNext<V>(m: map<string, V>, order: seq<string>, n: nat)
    requires n < |order| && order[n] in m
    requires forall i, j :: 0 <= i < j < |order| ==> order[i] != order[j]
    ensures order[n] !in Only(m, order[..n])
    ensures Only(m, order[..n + 1]) == Only(m, order[..n])[order[n] := m[order[n]]]
  {
    assert order[..n + 1] == order[..n] + [order[n]];
  }

  lemma OnlyAll<V>(m: map<string, V>, order: seq<string>)
    requires Lists(order, m.Keys)
    ensures Only(m, order) == m && Only(m, []) == map[]
  {}

  lemma {:induction false} PutsPhase(s: Snapshot, order: seq<string>, n: nat)
    requires Lists(order, s.files.Keys) && n <= |order|
    ensures Replay(Load(EmptySnapshot), Puts(s, order)[..n])
            == Load(EmptySnapshot.(files := Only(s.files, order[..n])))
  {
    hide Apply, Load;
    if n == 0 {
      assert Only(s.files, order[..0]) == map[];
    } else {
      PutsPhase(s, order, n - 1);
      OnlyNext(s.files, order, n - 1);
      var p := order[n - 1];
      assert p in s.files;
      assert Puts(s, order)[..n] == Puts(s, order)[..n - 1] + [PutOf(p, s.files[p])];
      ReplayOne(Load(EmptySnapshot), Puts(s, order)[..n - 1], PutOf(p, s.files[p]));
      AddFile(EmptySnapshot.(files := Only(s.files, order[..n - 1])), p, s.files[p]);
    }
  }

  lemma {:induction false} CreatesPhase(base: Snapshot, s: Snapshot, order: seq<string>, n: nat)
    requires Lists(order, s.dirs.Keys) && n <= |order|
    requires base == Snapshot(s.files, map[], map[], map[], None)
    ensures Replay(Load(base), Creates(s, order)[..n]) == Load(base.(dirs := Only(s.dirs, order[..n])))
  {
    hide Apply, Load;
    if n == 0 {
      assert Only(s.dirs, order[..0]) == map[];
    } else {
      CreatesPhase(base, s, order, n - 1);
      OnlyNext(s.dirs, order, n - 1);
      var q := order[n - 1];
      assert q in s.dirs;
      assert Creates(s, order)[..n] == Creates(s, order)[..n - 1] + [CreateOf(q, s.dirs[q])];
      ReplayOne(Load(base), Creates(s, order)[..n - 1], CreateOf(q, s.dirs[q]));
      AddDir(base.(dirs := Only(s.dirs, order[..n - 1])), q, s.dirs[q]);
    }
  }

  lemma {:induction false} DeletesPhase(base: Snapshot, s: Snapshot, order: seq<string>, n: nat)
    requires Lists(order, s.deleted.Keys) && n <= |order|
    requires forall i :: 0 <= i < |order| ==> order[i] !in s.files
    requires base == Snapshot(s.files, s.dirs, map[], map[], None)
    ensures Replay(Load(base), Deletes(s, order)[..n]) == Load(base.(deleted := Only(s.deleted, order[..n])))
  {
    hide Apply, Load;
    if n == 0 {
      assert Only(s.deleted, order[..0]) == map[];
    } else {
      DeletesPhase(base, s, order, n - 1);
      var p, es := order[n - 1], Deletes(s, order);
      assert p in order && es[n - 1] == RemovalOf(Delete, p, s.deleted[p]) by { hide Only, Replay; }
      assert es[..n] == es[..n - 1] + [es[n - 1]];
      ReplayOne(Load(base), es[..n - 1], es[n - 1]);
      hide Deletes, Replay;
      OneMoreDeleted(base, s, order, n);
    }
  }

  lemma OneMoreDeleted(base: Snapshot, s: Snapshot, order: seq<string>, n: nat)
    requires Lists(order, s.deleted.Keys) && 0 < n <= |order| && order[n - 1] !in s.files && order[n - 1] in s.deleted
    requires base == Snapshot(s.files, s.dirs, map[], map[], None)
    ensures var p := order[n - 1];
      Apply(Load(base.(deleted := Only(s.deleted, order[..n - 1]))), RemovalOf(Delete, p, s.deleted[p]))
      == Load(base.(deleted := Only(s.deleted, order[..n])))
  {
    hide Apply, Load;
    OnlyNext(s.deleted, order, n - 1);
    hide Only, Lists;
    AddDeleted(base.(deleted := Only(s.deleted, order[..n - 1])), order[n - 1], s.deleted[order[n - 1]]);
  }

  lemma {:induction false} DirDeletesPhase(base: Snapshot, s: Snapshot, order: seq<string>, n: nat)
    requires Settled(s) && Lists(order, s.deletedDirs.Keys) && n <= |order|
    requires base == Snapshot(s.files, s.dirs, s.deleted, map[], None)
    ensures Replay(Load(base), DirDeletes(s, order)[..n]) == Load(base.(deletedDirs := Only(s.deletedDirs, order[..n])))
  {
    hide Apply, Load, Spares;
    if n == 0 {
      assert Only(s.deletedDirs, order[..0]) == map[];
    } else {
      DirDeletesPhase(base, s, order, n - 1);
      OnlyNext(s.deletedDirs, order, n - 1);
      var d := order[n - 1];
      assert d in s.deletedDirs;
      var e := RemovalOf(DeleteDir, d, s.deletedDirs[d]);
      assert DirDeletes(s, order)[..n] == DirDeletes(s, order)[..n - 1] + [e];
      ReplayOne(Load(base), DirDeletes(s, order)[..n - 1], e);
      AddDeletedDir(base.(deletedDirs := Only(s.deletedDirs, order[..n - 1])), d, s.deletedDirs[d]);
    }
  }

  lemma RootlessCompaction(s: Snapshot, v: Visit)
    requires Settled(s) && Visits(v, s)
    ensures Replay(Load(EmptySnapshot),
        Puts(s, v.files) + Creates(s, v.dirs) + Deletes(s, v.deleted) + DirDeletes(s, v.deletedDirs))
            == Load(s.(deletedRoot := None))
  {
    var s0 := Load(EmptySnapshot);
    var a, b, c, d := Puts(s, v.files), Creates(s, v.dirs), Deletes(s, v.deleted), DirDeletes(s, v.deletedDirs);
    OnlyAll(s.files, v.files);
    OnlyAll(s.dirs, v.dirs);
    OnlyAll(s.deleted, v.deleted);
    OnlyAll(s.deletedDirs, v.deletedDirs);
    assert v.files[..|v.files|] == v.files && v.dirs[..|v.dirs|] == v.dirs;
    assert v.deleted[..|v.deleted|] == v.deleted && v.deletedDirs[..|v.deletedDirs|] == v.deletedDirs;
    assert a[..|v.files|] == a && b[..|v.dirs|] == b && c[..|v.deleted|] == c && d[..|v.deletedDirs|] == d;
    PutsPhase(s, v.files, |v.files|);
    CreatesPhase(Snapshot(s.files, map[], map[], map[], None), s, v.dirs, |v.dirs|);
    DeletesPhase(Snapshot(s.files, s.dirs, map[], map[], None), s, v.deleted, |v.deleted|);
    DirDeletesPhase(Snapshot(s.files, s.dirs, s.deleted, map[], None), s, v.deletedDirs, |v.deletedDirs|);
    ReplayAppend(s0, a, b);
    ReplayAppend(s0, a + b, c);
    ReplayAppend(s0, a + b + c, d);
  }

  lemma LoadKeeps(s: Snapshot)
    ensures Load(s).snap == s
  {}

  lemma RootWipes(s: Snapshot)
    requires s.deletedRoot.Some?
    ensures Apply(Load(s.(deletedRoot := None)), RemovalOf(DeleteRoot, "", s.deletedRoot.value)).snap
            == EmptySnapshot.(deletedRoot := s.deletedRoot)
  {}

  /** What reading a compacted log gives back: the snapshot itself, unless a root
      tombstone was written last, which then wipes everything before it. */
  lemma CompactionRebuilds(s: Snapshot, v: Visit)
    requires Settled(s) && Visits(v, s)
    ensures Rebuild(CompactLog(s, v))
            == if s.deletedRoot.None? then s else EmptySnapshot.(deletedRoot := s.deletedRoot)
  {
    hide Apply, Load, Settled, Puts, Creates, Deletes, DirDeletes;
    RootlessCompaction(s, v);
    var body := Puts(s, v.files) + Creates(s, v.dirs) + Deletes(s, v.deleted) + DirDeletes(s, v.deletedDirs);
    if s.deletedRoot.None? {
      assert CompactLog(s, v) == body;
      LoadKeeps(s);
    } else {
      RootWipes(s);
      ReplayOne(Load(EmptySnapshot), body, RemovalOf(DeleteRoot, "", s.deletedRoot.value));
    }
  }

  /** Compaction preserves the snapshot exactly when no root tombstone is set or
      nothing has been written since. */
  lemma CompactionPreservesIff(s: Snapshot, v: Visit)
    requires Settled(s) && Visits(v, s)
    ensures Rebuild(CompactLog(s, v)) == s <==>
        s.deletedRoot.None?
        || (s.files == map[] && s.dirs == map[] && s.deleted == map[] && s.deletedDirs == map[])
  {
    CompactionRebuilds(s, v);
  }

  /** Compacting any log and reading it back shows every uploaded file, link, directory
      and tombstone unchanged and no other file, exactly when no root tombstone
      precedes them. */
  lemma CompactedLogPreserved(log: seq<Entry>, v: Visit)
    requires Visits(v, Stripped(Rebuild(log)))
    ensures var s := Rebuild(log);
      KeepsUploaded(s, Rebuild(CompactLog(Stripped(s), v))) <==> s.deletedRoot.None? || RootAlone(s)
  {
    var s := Rebuild(log);
    RebuiltIsSettled(log);
    CompactionPreservesIff(Stripped(s), v);
    StrippedIff(s, Rebuild(CompactLog(Stripped(s), v)));
    NothingStripped(s);
  }

  lemma NothingStripped(s: Snapshot)
    ensures Stripped(s).files == map[] <==>
      forall p :: p in s.files ==> s.files[p].chunks == [] && s.files[p].linkTarget == ""
    ensures Stripped(s) == s <==> AllUploaded(s)
  {
    StrippedIff(s, s);
    var t := Stripped(s);
    StrippedIff(s, t);
    assert t.files == map[] <==> forall p :: p !in t.files;
  }

  /** Compacting what a compacted log shows changes nothing any more. */
  lemma CompactionIdempotent(s: Snapshot, v: Visit, again: Visit)
    requires Settled(s) && Visits(v, Stripped(s))
    requires Visits(again, Stripped(Rebuild(CompactLog(Stripped(s), v))))
    ensures var once := Rebuild(CompactLog(Stripped(s), v)); Rebuild(CompactLog(Stripped(once), again)) == once
  {
    var once := Rebuild(CompactLog(Stripped(s), v));
    CompactionRebuilds(Stripped(s), v);
    hide Rebuild, CompactLog;
    assert Stripped(once) == once;
    CompactionRebuilds(once, again);
  }

  // ---- After compaction -------------------------------------------------------

  /** The states differ at most in directory clocks. */
  ghost predicate Alike(a: State, b: State) {
    a.snap == b.snap && a.clocks == b.clocks && a.dirTombs == b.dirTombs && a.root == b.root
  }

  /** In a tidy state the directory clocks of missing directories decide nothing. */
  lemma CreateTakesTidy(st: State, e: Entry)
    requires Tidy(st)
    ensures CreateTakes(st, e) <==>
      && (e.path in st.snap.dirs ==> e.At().Beats(st.snap.dirs[e.path].At()))
      && !Stale(e.At(), e.path, st.dirTombs) && !Covered(e.path, e.At(), st.dirTombs)
  {
    var q := e.path;
    assert TidyDir(st, q);
    if q !in st.snap.dirs && q in st.dirClocks && !Stale(e.At(), q, st.dirTombs) && !Covered(q, e.At(), st.dirTombs) {
      var d :| d in st.dirTombs && (d == q || Under(d, q)) && !st.dirClocks[q].Beats(st.dirTombs[d]);
      BeatsTrichotomy(st.dirClocks[q], st.dirTombs[d]);
      if st.dirTombs[d].Beats(st.dirClocks[q]) { BeatsTransitive(e.At(), st.dirTombs[d], st.dirClocks[q]); }
    }
  }

  lemma SweptAlike(a: State, b: State, e: Entry)
    requires Tidy(a) && Tidy(b) && Alike(a, b)
    ensures Alike(ApplyDeleteDir(a, e), ApplyDeleteDir(b, e))
  {
    assert forall q :: TidyDir(a, q) && TidyDir(b, q);
    forall q | q in a.snap.dirs ensures q in a.dirClocks && q in b.dirClocks && a.dirClocks[q] == b.dirClocks[q] {
      assert TidyDir(a, q) && TidyDir(b, q);
    }
    assert SweptDirs(a, e) == SweptDirs(b, e) && Swept(a, e) == Swept(b, e);
  }

  lemma AlikeWrite(a: State, b: State, e: Entry)
    requires Alike(a, b) && e.Writes()
    ensures Alike(Apply(a, e), Apply(b, e))
  {
    hide Covered;
    assert PutLoses(a, e) == PutLoses(b, e);
    assert PutTakes(a, e) == PutTakes(b, e);
    hide PutLoses, PutTakes;
  }

  lemma AlikeDelete(a: State, b: State, e: Entry)
    requires Alike(a, b) && e.typ.Delete?
    ensures Alike(Apply(a, e), Apply(b, e))
  {
    assert DeleteTakes(a, e) == DeleteTakes(b, e);
    hide DeleteTakes;
  }

  lemma AlikeCreate(a: State, b: State, e: Entry)
    requires Alike(a, b) && e.typ.CreateDir? && CreateTakes(a, e) == CreateTakes(b, e)
    ensures Alike(Apply(a, e), Apply(b, e))
  {
    hide CreateTakes;
  }

  lemma AlikeStep(a: State, b: State, e: Entry)
    requires Tidy(a) && Tidy(b) && Alike(a, b)
    ensures Alike(Apply(a, e), Apply(b, e))
  {
    CreateTakesTidy(a, e);
    CreateTakesTidy(b, e);
    SweptAlike(a, b, e);
    hide CreateTakes, Covered, Tidy, ApplyDeleteDir;
    match e.typ
    case Put => AlikeWrite(a, b, e);
    case Symlink => AlikeWrite(a, b, e);
    case Delete => AlikeDelete(a, b, e);
    case CreateDir => AlikeCreate(a, b, e);
    case DeleteDir =>
    case DeleteRoot =>
    case Unknown(_) =>
  }

  lemma {:induction false} AlikeReplay(a: State, b: State, more: seq<Entry>)
    requires Tidy(a) && Tidy(b) && Alike(a, b)
    ensures Tidy(Replay(a, more)) && Tidy(Replay(b, more)) && Alike(Replay(a, more), Replay(b, more))
  {
    if more != [] {
      var n := |more| - 1;
      AlikeReplay(a, b, more[..n]);
      hide Tidy, Alike, Apply;
      AlikeStep(Replay(a, more[..n]), Replay(b, more[..n]), more[n]);
      TidyStep(Replay(a, more[..n]), more[n]);
      TidyStep(Replay(b, more[..n]), more[n]);
    }
  }

  /** Reading a compacted log leaves the state its snapshot loads to. */
  lemma CompactionReplays(s: Snapshot, v: Visit)
    requires Settled(s) && Visits(v, s)
    ensures Replay(Load(EmptySnapshot), CompactLog(s, v)) == Load(Rebuild(CompactLog(s, v)))
  {
    hide Settled, Puts, Creates, Deletes, DirDeletes;
    RootlessCompaction(s, v);
    CompactionRebuilds(s, v);
    var body := Puts(s, v.files) + Creates(s, v.dirs) + Deletes(s, v.deleted) + DirDeletes(s, v.deletedDirs);
    if s.deletedRoot.None? {
      assert CompactLog(s, v) == body;
      assert s.(deletedRoot := None) == s;
    } else {
      RootReloads(s);
      hide Apply, Load;
      ReplayOne(Load(EmptySnapshot), body, RemovalOf(DeleteRoot, "", s.deletedRoot.value));
    }
  }

  lemma RootReloads(s: Snapshot)
    requires s.deletedRoot.Some?
    ensures Apply(Load(s.(deletedRoot := None)), RemovalOf(DeleteRoot, "", s.deletedRoot.value))
            == Load(EmptySnapshot.(deletedRoot := s.deletedRoot))
  {
    var l := Load(EmptySnapshot.(deletedRoot := s.deletedRoot));
    assert l.clocks == map[] && l.dirTombs == map[] && l.dirClocks == map[];
  }

  /** Reading the log and its compacted form gives the same snapshot from then on. */
  ghost predicate Indistinguishable(log: seq<Entry>, other: seq<Entry>) {
    forall more :: Rebuild(other + more) == Rebuild(log + more)
  }

  lemma ReplaysAlike(a: State, log: seq<Entry>, other: seq<Entry>)
    requires a == Replay(Load(EmptySnapshot), log) && Replay(Load(EmptySnapshot), other) == Load(a.snap)
    requires Tidy(a) && Synced(a)
    ensures Indistinguishable(log, other)
  {
    Reloaded(a);
    TidyIsSettled(a);
    LoadedIsTidy(a.snap);
    hide Tidy, Synced, Load;
    forall more ensures Rebuild(other + more) == Rebuild(log + more) {
      ReplayAppend(Load(EmptySnapshot), log, more);
      ReplayAppend(Load(EmptySnapshot), other, more);
      AlikeReplay(Load(a.snap), a, more);
    }
  }

  lemma DistinguishedByOne(a: State, log: seq<Entry>, other: seq<Entry>)
    requires a == Replay(Load(EmptySnapshot), log) && Replay(Load(EmptySnapshot), other) == Load(a.snap)
    requires Tidy(a) && TombsAfterRoot(a) && Indistinguishable(log, other)
    ensures Synced(a)
  {
    forall e ensures Advance(a.snap, e) == Apply(a, e).snap {
      ReplayOne(Load(EmptySnapshot), log, e);
      ReplayOne(Load(EmptySnapshot), other, e);
      assert Rebuild(other + [e]) == Rebuild(log + [e]);
    }
    AdvanceAgreesIff(a);
  }

  /** Compacting a log is invisible, now and after any later entries, exactly when no
      upload is pending, a root tombstone stands alone, and the snapshot records
      every tombstone that a rebuild of the log enforces. */
  lemma CompactionInvisibleIff(log: seq<Entry>, v: Visit)
    requires Visits(v, Stripped(Rebuild(log)))
    ensures var s := Rebuild(log);
      Indistinguishable(log, CompactLog(Stripped(s), v)) <==>
      && AllUploaded(s)
      && (s.deletedRoot.None? || s == EmptySnapshot.(deletedRoot := s.deletedRoot))
      && Synced(Replay(Load(EmptySnapshot), log))
  {
    var a := Replay(Load(EmptySnapshot), log);
    var s, other := a.snap, CompactLog(Stripped(a.snap), v);
    TidyReplay(log);
    TombsAfterRootReplay(log);
    RebuiltIsSettled(log);
    CompactionReplays(Stripped(s), v);
    CompactionRebuilds(Stripped(s), v);
    NothingStripped(s);
    hide AllUploaded, CompactLog, Tidy, Settled, Load, Visits, TombsAfterRoot, Synced;
    if Indistinguishable(log, other) {
      assert log + [] == log && other + [] == other;
      assert Rebuild(other + []) == Rebuild(log + []);
      DistinguishedByOne(a, log, other);
    } else if Stripped(s) == s && (s.deletedRoot.None? || s == EmptySnapshot.(deletedRoot := s.deletedRoot))
        && Synced(a) {
      ReplaysAlike(a, log, other);
    }
  }
}
