/**
The log entries, snapshots and replay of the local ops log (pkg/fs/opslog).

`Apply` is one round of the materialization loop: it works on the visible
snapshot plus the clock tables that the loop keeps only while it runs.
*/
module OpsLog {
  import opened Ordering

  datatype EntryType = Put | Symlink | Delete | CreateDir | DeleteDir | DeleteRoot | Unknown(name: string)

  datatype Entry = Entry(
    typ: EntryType, path: string, chunks: seq<string>, size: int, checksum: string,
    prevChecksum: string, linkTarget: string, namespace: string,
    device: string, timestamp: int, seqNo: int)
  {
    function At(): Clock { Clock(timestamp, device, seqNo) }
    predicate Writes() { typ.Put? || typ.Symlink? }
  }

  datatype FileInfo = FileInfo(
    chunks: seq<string>, size: int, modified: int, checksum: string, prevChecksum: string,
    namespace: string, device: string, seqNo: int, linkTarget: string)
  {
    function At(): Clock { Clock(modified, device, seqNo) }
    /** A put whose upload never produced chunks; compaction strips it. */
    predicate Chunkless() { chunks == [] && linkTarget == "" }
  }

  datatype DirInfo = DirInfo(namespace: string, device: string, seqNo: int, modified: int) {
    function At(): Clock { Clock(modified, device, seqNo) }
  }

  datatype Tombstone = Tombstone(namespace: string, device: string, seqNo: int, modified: int, prevChecksum: string) {
    function At(): Clock { Clock(modified, device, seqNo) }
  }

  datatype Snapshot = Snapshot(
    files: map<string, FileInfo>, dirs: map<string, DirInfo>,
    deleted: map<string, Tombstone>, deletedDirs: map<string, Tombstone>,
    deletedRoot: Option<Tombstone>)

  const EmptySnapshot := Snapshot(map[], map[], map[], map[], None)

  /** The replay loop's variables: the snapshot under construction and its clock tables. */
  datatype State = State(
    snap: Snapshot, clocks: map<string, Clock>, dirTombs: map<string, Clock>,
    dirClocks: map<string, Clock>, root: Option<Clock>)

  function FileOf(e: Entry): FileInfo {
    FileInfo(e.chunks, e.size, e.timestamp, e.checksum, e.prevChecksum, e.namespace, e.device, e.seqNo, e.linkTarget)
  }

  function DirOf(e: Entry): DirInfo {
    DirInfo(e.namespace, e.device, e.seqNo, e.timestamp)
  }

  function TombOf(e: Entry): Tombstone {
    Tombstone(e.namespace, e.device, e.seqNo, e.timestamp, e.prevChecksum)
  }

  /** `p` lies strictly below directory `d`. */
  predicate Under(d: string, p: string) {
    d + "/" <= p
  }

  /** `prev` names `sum` as the content it replaced; empty strings name nothing. */
  predicate Descends(prev: string, sum: string) {
    prev != "" && sum != "" && prev == sum
  }

  predicate Stale(c: Clock, p: string, clocks: map<string, Clock>) {
    p in clocks && !c.Beats(clocks[p])
  }

  /** A directory above `p` was deleted at a clock that `c` does not beat. */
  ghost predicate Covered(p: string, c: Clock, tombs: map<string, Clock>) {
    exists d :: d in tombs && Under(d, p) && !c.Beats(tombs[d])
  }

  /** Seeds the clock tables from a stored snapshot. */
  function Load(base: Snapshot): State {
    State(base,
          (map p | p in base.files :: base.files[p].At()) + (map p | p in base.deleted :: base.deleted[p].At()),
          map d | d in base.deletedDirs :: base.deletedDirs[d].At(),
          map d | d in base.dirs.Keys + base.deletedDirs.Keys ::
            if d in base.deletedDirs && (d !in base.dirs || base.deletedDirs[d].At().Beats(base.dirs[d].At()))
            then base.deletedDirs[d].At() else base.dirs[d].At(),
          if base.deletedRoot.Some? then Some(base.deletedRoot.value.At()) else None)
  }

  /** The lineage and clock tests that make a put or symlink lose at its own path. */
  predicate PutLoses(st: State, e: Entry) {
    if e.path in st.snap.files then
      var local := st.snap.files[e.path];
      Descends(local.prevChecksum, e.checksum)
      || (!Descends(e.prevChecksum, local.checksum) && Stale(e.At(), e.path, st.clocks))
    else if e.path in st.snap.deleted then
      var tomb := st.snap.deleted[e.path];
      (Descends(tomb.prevChecksum, e.checksum) && tomb.device != "" && e.device != tomb.device)
      || Stale(e.At(), e.path, st.clocks)
    else
      Stale(e.At(), e.path, st.clocks)
  }

  ghost predicate PutTakes(st: State, e: Entry) {
    !PutLoses(st, e) && !Covered(e.path, e.At(), st.dirTombs)
  }

  predicate DeleteTakes(st: State, e: Entry) {
    (e.path in st.snap.files && Descends(e.prevChecksum, st.snap.files[e.path].checksum))
    || !Stale(e.At(), e.path, st.clocks)
  }

  ghost predicate CreateTakes(st: State, e: Entry) {
    && !Stale(e.At(), e.path, st.dirClocks)
    && !Stale(e.At(), e.path, st.dirTombs)
    && !Covered(e.path, e.At(), st.dirTombs)
  }

  /** Files a delete_dir removes: below it, and not written at a clock it fails to beat. */
  function Swept(st: State, e: Entry): set<string> {
    set p | p in st.snap.files && Under(e.path, p) && !Stale(e.At(), p, st.clocks)
  }

  function SweptDirs(st: State, e: Entry): set<string> {
    set q | q in st.snap.dirs && (q == e.path || Under(e.path, q)) && !Stale(e.At(), q, st.dirClocks)
  }

  function ApplyDeleteDir(st: State, e: Entry): State {
    var gone := Swept(st, e);
    var goneDirs := SweptDirs(st, e);
    var own := if Stale(e.At(), e.path, st.dirClocks) then {} else {e.path};
    var record := !Stale(e.At(), e.path, st.dirTombs);
    State(
      Snapshot(
        st.snap.files - gone,
        st.snap.dirs - goneDirs,
        SetAll(st.snap.deleted, gone, TombOf(e)),
        if record then st.snap.deletedDirs[e.path := TombOf(e)] else st.snap.deletedDirs,
        st.snap.deletedRoot),
      SetAll(st.clocks, gone, e.At()),
      if record then st.dirTombs[e.path := e.At()] else st.dirTombs,
      SetAll(st.dirClocks, goneDirs + own, e.At()),
      st.root)
  }

  ghost function Apply(st: State, e: Entry): State {
    if e.typ.Unknown? || (st.root.Some? && !e.At().Beats(st.root.value)) then st
    else match e.typ
      case Put | Symlink =>
        if !PutTakes(st, e) then st else
        st.(clocks := st.clocks[e.path := e.At()],
            snap := st.snap.(files := st.snap.files[e.path := FileOf(e)], deleted := st.snap.deleted - {e.path}))
      case Delete =>
        if !DeleteTakes(st, e) then st else
        st.(clocks := st.clocks[e.path := e.At()],
            snap := st.snap.(files := st.snap.files - {e.path}, deleted := st.snap.deleted[e.path := TombOf(e)]))
      case CreateDir =>
        if !CreateTakes(st, e) then st else
        st.(dirClocks := st.dirClocks[e.path := e.At()],
            snap := st.snap.(dirs := st.snap.dirs[e.path := DirOf(e)], deletedDirs := st.snap.deletedDirs - {e.path}))
      case DeleteDir => ApplyDeleteDir(st, e)
      case DeleteRoot =>
        State(Snapshot(map[], map[], map[], map[], Some(TombOf(e))), map[], map[], map[], Some(e.At()))
  }

  ghost function Replay(st: State, es: seq<Entry>): State {
    if es == [] then st else Apply(Replay(st, es[..|es| - 1]), es[|es| - 1])
  }

  /** A cold cache: the snapshot of a log read from the start. */
  ghost function Rebuild(es: seq<Entry>): Snapshot {
    Replay(Load(EmptySnapshot), es).snap
  }

  /** A warm cache: every append replays one entry on top of the cached snapshot. */
  ghost function Advance(snap: Snapshot, e: Entry): Snapshot {
    Apply(Load(snap), e).snap
  }

  ghost function Incremental(es: seq<Entry>): Snapshot {
    if es == [] then EmptySnapshot else Advance(Incremental(es[..|es| - 1]), es[|es| - 1])
  }

  lemma {:induction false} ReplayAppend(st: State, xs: seq<Entry>, ys: seq<Entry>)
    ensures Replay(st, xs + ys) == Replay(Replay(st, xs), ys)
  {
    if ys == [] {
      assert xs + ys == xs;
    } else {
      var n := |ys| - 1;
      assert (xs + ys)[..|xs + ys| - 1] == xs + ys[..n];
      ReplayAppend(st, xs, ys[..n]);
    }
  }

  lemma ReplayOne(st: State, xs: seq<Entry>, e: Entry)
    ensures Replay(st, xs + [e]) == Apply(Replay(st, xs), e)
  {
    assert (xs + [e])[..|xs|] == xs;
  }

  // ---- The ancestor walk --------------------------------------------------

  /** Index of the last '/', or -1. */
  function LastSlash(p: string): (i: int)
    ensures -1 <= i < |p|
    ensures i >= 0 ==> p[i] == '/'
    ensures forall k :: i < k < |p| ==> p[k] != '/'
  {
    if p == [] then -1
    else if p[|p| - 1] == '/' then |p| - 1
    else LastSlash(p[..|p| - 1])
  }

  lemma UnderIndex(d: string, p: string)
    ensures Under(d, p) <==> |d| < |p| && p[|d|] == '/' && p[..|d|] == d
  {
    assert (d + "/")[|d|] == '/';
    assert (d + "/")[..|d|] == d;
    if |d| < |p| && p[|d|] == '/' && p[..|d|] == d {
      assert p[..|d| + 1] == d + "/";
    }
  }

  /** A path's proper ancestors are its parent and the parent's ancestors. */
  lemma UnderParent(d: string, p: string)
    ensures var i := LastSlash(p); Under(d, p) <==> i >= 0 && (d == p[..i] || Under(d, p[..i]))
  {
    var i := LastSlash(p);
    UnderIndex(d, p);
    if i >= 0 {
      UnderIndex(d, p[..i]);
      if |d| < i { assert p[..i][..|d|] == p[..|d|]; }
    }
  }

  /** The upward walk over a path's parents finds exactly the tombstones a
      delete_dir's prefix test would have covered the path with. */
  method CoveredByDirTombstone(path: string, c: Clock, tombs: map<string, Clock>) returns (covered: bool)
    ensures covered <==> Covered(path, c, tombs)
  {
    var dir := path;
    while true
      invariant Covered(path, c, tombs) <==> Covered(dir, c, tombs)
      decreases |dir|
    {
      var i := LastSlash(dir);
      forall d { UnderParent(d, dir); }
      if i < 0 { return false; }
      dir := dir[..i];
      if dir in tombs && !c.Beats(tombs[dir]) { return true; }
    }
  }

  lemma SweepMore<V>(m: map<string, V>, gone: set<string>, p: string, v: V)
    ensures SetAll(m, gone, v)[p := v] == SetAll(m, gone + {p}, v)
    ensures m - gone - {p} == m - (gone + {p})
    ensures SetAll(m, {}, v) == m && m - {} == m
  {}

  /** The nested range loop of delete_dir: visit every file once, in any order,
      deleting the ones below the directory that the entry's clock beats. */
  method SweepFiles(st: State, e: Entry)
    returns (files: map<string, FileInfo>, deleted: map<string, Tombstone>, clocks: map<string, Clock>)
    ensures files == st.snap.files - Swept(st, e)
    ensures deleted == SetAll(st.snap.deleted, Swept(st, e), TombOf(e))
    ensures clocks == SetAll(st.clocks, Swept(st, e), e.At())
  {
    files, deleted, clocks := st.snap.files, st.snap.deleted, st.clocks;
    var pending := st.snap.files.Keys;
    ghost var gone: set<string> := {};
    SweepMore(st.snap.files, {}, e.path, FileOf(e));
    SweepMore(st.snap.deleted, {}, e.path, TombOf(e));
    SweepMore(st.clocks, {}, e.path, e.At());
    while pending != {}
      invariant pending <= st.snap.files.Keys
      invariant gone == Swept(st, e) - pending
      invariant files == st.snap.files - gone
      invariant deleted == SetAll(st.snap.deleted, gone, TombOf(e))
      invariant clocks == SetAll(st.clocks, gone, e.At())
      decreases pending
    {
      var p :| p in pending;
      ghost var swept := Swept(st, e);
      assert p !in gone && (p in swept <==> Under(e.path, p) && !Stale(e.At(), p, clocks));
      assert swept - (pending - {p}) == if p in swept then (swept - pending) + {p} else swept - pending;
      pending := pending - {p};
      if Under(e.path, p) && !Stale(e.At(), p, clocks) {
        SweepMore(st.snap.files, gone, p, FileOf(e));
        SweepMore(st.snap.deleted, gone, p, TombOf(e));
        SweepMore(st.clocks, gone, p, e.At());
        files := files - {p};
        deleted := deleted[p := TombOf(e)];
        clocks := clocks[p := e.At()];
        gone := gone + {p};
      }
    }
    assert gone == Swept(st, e);
  }
}
