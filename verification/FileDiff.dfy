/** Comparing local files with the remote tree (pkg/fs/diff.go). */
module FileDiff {
  import opened Ordering
  import opened OpReplay

  const EmptyHash := "a7ffc6f8bf1ed76651c14756a061d662f580ff4de43b49fa82d80a4b80f8434a"

  datatype Action = Upload | Download | DeleteRemote

  datatype DiffEntry = DiffEntry(path: string, action: Action)

  type Local = map<string, string>

  /** What the comparison of one path calls for. */
  function Wanted(local: Local, remote: Tree, p: string): Option<Action> {
    if p in local then
      if p !in remote then Some(Upload)
      else if local[p] == remote[p].checksum then None
      else if local[p] == EmptyHash && remote[p].size > 0 then Some(Download)
      else Some(Upload)
    else if p in remote then Some(Download)
    else None
  }

  /** One entry for each path where something is wanted. */
  ghost predicate Diffs(ds: seq<DiffEntry>, wanted: string -> Option<Action>) {
    && (forall i, j :: 0 <= i < j < |ds| ==> ds[i].path != ds[j].path)
    && (forall d :: d in ds ==> wanted(d.path) == Some(d.action))
    && (forall p :: wanted(p).Some? ==> DiffEntry(p, wanted(p).value) in ds)
  }

  function ByPath(local: Local, remote: Tree): string -> Option<Action> { p => Wanted(local, remote, p) }

  method DiffLocalRemote(local: Local, remote: Tree) returns (ds: seq<DiffEntry>)
    ensures Diffs(ds, ByPath(local, remote))
  {
    ds := [];
    var pending := local.Keys;
    while pending != {}
      invariant pending <= local.Keys
      invariant forall i, j :: 0 <= i < j < |ds| ==> ds[i].path != ds[j].path
      invariant forall d :: d in ds ==>
          d.path in local && d.path !in pending && Wanted(local, remote, d.path) == Some(d.action)
      invariant forall p :: p in local && p !in pending && Wanted(local, remote, p).Some? ==>
          DiffEntry(p, Wanted(local, remote, p).value) in ds
      decreases pending
    {
      var p :| p in pending;
      pending := pending - {p};
      if p !in remote {
        ds := ds + [DiffEntry(p, Upload)];
      } else if local[p] != remote[p].checksum {
        ds := ds + [DiffEntry(p, if local[p] == EmptyHash && remote[p].size > 0 then Download else Upload)];
      }
    }
    pending := remote.Keys;
    while pending != {}
      invariant pending <= remote.Keys
      invariant forall i, j :: 0 <= i < j < |ds| ==> ds[i].path != ds[j].path
      invariant forall d :: d in ds ==>
          (d.path in local || d.path !in pending) && Wanted(local, remote, d.path) == Some(d.action)
      invariant forall p :: (p in local || (p in remote && p !in pending)) && Wanted(local, remote, p).Some? ==>
          DiffEntry(p, Wanted(local, remote, p).value) in ds
      decreases pending
    {
      var p :| p in pending;
      pending := pending - {p};
      if p !in local { ds := ds + [DiffEntry(p, Download)]; }
    }
  }

  // ---- Acting on a diff -------------------------------------------------------------------

  datatype Sides = Sides(local: Local, remote: Tree)

  /** `stored` is the tree entry an upload of given content creates. */
  function Act(s: Sides, d: DiffEntry, stored: string -> FileEntry): Sides {
    match d.action
    case Upload => if d.path in s.local then s.(remote := s.remote[d.path := stored(s.local[d.path])]) else s
    case Download => if d.path in s.remote then s.(local := s.local[d.path := s.remote[d.path].checksum]) else s
    case DeleteRemote => s.(remote := s.remote - {d.path})
  }

  function ActAll(s: Sides, ds: seq<DiffEntry>, stored: string -> FileEntry): Sides {
    if ds == [] then s else Act(ActAll(s, ds[..|ds| - 1], stored), ds[|ds| - 1], stored)
  }

  predicate SameAt(s: Sides, t: Sides, p: string) {
    At(s.remote, p) == At(t.remote, p) && (p in s.local <==> p in t.local)
        && (p in s.local ==> s.local[p] == t.local[p])
  }

  lemma ActElsewhere(s: Sides, d: DiffEntry, stored: string -> FileEntry, p: string)
    requires d.path != p
    ensures SameAt(Act(s, d, stored), s, p)
  {}

  lemma ActHere(s: Sides, t: Sides, d: DiffEntry, stored: string -> FileEntry)
    requires SameAt(s, t, d.path)
    ensures SameAt(Act(s, d, stored), Act(t, d, stored), d.path)
  {}

  /** Entries act on their own paths only, so each path sees its own entry's effect. */
  lemma {:induction false} ActsApart(s: Sides, ds: seq<DiffEntry>, stored: string -> FileEntry, p: string)
    requires forall i, j :: 0 <= i < j < |ds| ==> ds[i].path != ds[j].path
    ensures (forall d :: d in ds ==> d.path != p) ==> SameAt(ActAll(s, ds, stored), s, p)
    ensures forall d :: d in ds && d.path == p ==> SameAt(ActAll(s, ds, stored), Act(s, d, stored), p)
  {
    if ds != [] {
      var n := |ds| - 1;
      var front, last := ds[..n], ds[n];
      var before := ActAll(s, front, stored);
      ActsApart(s, front, stored, p);
      assert ds == front + [last];
      hide Act;
      if last.path == p {
        forall d | d in front ensures d.path != p { var i :| 0 <= i < n && ds[i] == d; }
        ActHere(before, s, last, stored);
      } else {
        ActElsewhere(before, last, stored, p);
      }
    }
  }

  lemma SomethingWanted(ds: seq<DiffEntry>, wanted: string -> Option<Action>)
    requires Diffs(ds, wanted) && ds != []
    ensures wanted(ds[0].path).Some?
  {
    assert ds[0] in ds;
  }

  lemma NothingWanted(ds: seq<DiffEntry>, wanted: string -> Option<Action>)
    requires Diffs(ds, wanted) && forall p: string :: wanted(p).None?
    ensures ds == []
  {
    if ds != [] { SomethingWanted(ds, wanted); }
  }

  /** After acting on a diff both sides have the same paths and checksums, and a
      second diff is empty. */
  lemma DiffReconciles(s: Sides, ds: seq<DiffEntry>, stored: string -> FileEntry)
    requires Diffs(ds, ByPath(s.local, s.remote)) && forall sum: string :: stored(sum).checksum == sum
    ensures var t := ActAll(s, ds, stored);
      && t.local.Keys == t.remote.Keys && (forall p :: p in t.local ==> t.local[p] == t.remote[p].checksum)
      && forall again :: Diffs(again, ByPath(t.local, t.remote)) ==> again == []
  {
    var t := ActAll(s, ds, stored);
    forall p: string ensures (p in t.local <==> p in t.remote)
        && (p in t.local ==> t.local[p] == t.remote[p].checksum) {
      ActsApart(s, ds, stored, p);
      var w := ByPath(s.local, s.remote)(p);
      if w.Some? {
        assert DiffEntry(p, w.value) in ds;
      } else {
        assert forall d :: d in ds ==> d.path != p;
      }
    }
    forall again | Diffs(again, ByPath(t.local, t.remote)) ensures again == [] {
      NothingWanted(again, ByPath(t.local, t.remote));
    }
  }

  /** Which side wins after acting on a diff: the local file where there is one,
      unless it is empty and the remote one is not; the remote file otherwise. What
      already agreed is left alone. */
  lemma LocalWins(s: Sides, ds: seq<DiffEntry>, stored: string -> FileEntry, p: string)
    requires Diffs(ds, ByPath(s.local, s.remote))
    ensures var t := ActAll(s, ds, stored);
      && (p in s.local && !(p in s.remote && s.local[p] == EmptyHash && s.remote[p].size > 0) ==>
            p in t.local && t.local[p] == s.local[p])
      && (p in s.local && (p in s.remote ==> s.local[p] != s.remote[p].checksum)
          && !(p in s.remote && s.local[p] == EmptyHash && s.remote[p].size > 0) ==>
            p in t.remote && t.remote[p] == stored(s.local[p]))
      && (p in s.remote && (p in s.local ==> s.local[p] == EmptyHash && s.remote[p].size > 0) ==>
            p in t.remote && t.remote[p] == s.remote[p] && p in t.local && t.local[p] == s.remote[p].checksum)
      && (p in s.local && p in s.remote && s.local[p] == s.remote[p].checksum ==> SameAt(t, s, p))
      && (p !in s.local && p !in s.remote ==> SameAt(t, s, p))
  {
    ActsApart(s, ds, stored, p);
    var w := ByPath(s.local, s.remote)(p);
    if w.Some? {
      assert DiffEntry(p, w.value) in ds;
    } else {
      assert forall d :: d in ds ==> d.path != p;
    }
  }

  /** A remote file with content is never replaced by an empty local one. */
  lemma EmptyNeverUploaded(local: Local, remote: Tree, ds: seq<DiffEntry>, d: DiffEntry)
    requires Diffs(ds, ByPath(local, remote)) && d in ds && d.action.Upload?
    ensures d.path in local && (d.path in remote && remote[d.path].size > 0 ==> local[d.path] != EmptyHash)
  {
    assert ByPath(local, remote)(d.path) == Some(d.action);
  }

  function Vanished(previous: Local, current: Local, remote: Tree): string -> Option<Action> {
    p => if p in previous && p !in current && p in remote then Some(DeleteRemote) else None
  }

  method DiffForDeleted(previous: Local, current: Local, remote: Tree) returns (ds: seq<DiffEntry>)
    ensures Diffs(ds, Vanished(previous, current, remote))
  {
    ds := [];
    var pending := previous.Keys;
    while pending != {}
      invariant pending <= previous.Keys
      invariant forall i, j :: 0 <= i < j < |ds| ==> ds[i].path != ds[j].path
      invariant forall d :: d in ds ==>
          d.path !in pending && Vanished(previous, current, remote)(d.path) == Some(d.action)
      invariant forall p :: p !in pending && Vanished(previous, current, remote)(p).Some? ==>
          DiffEntry(p, DeleteRemote) in ds
      decreases pending
    {
      var p :| p in pending;
      pending := pending - {p};
      if p !in current && p in remote { ds := ds + [DiffEntry(p, DeleteRemote)]; }
    }
  }

  /** Deletes first, then the diff: a file deleted here is on neither side afterwards. */
  lemma DeletedStaysDeleted(
        previous: Local, s: Sides, gone: seq<DiffEntry>, ds: seq<DiffEntry>, stored: string -> FileEntry, p: string)
    requires Diffs(gone, Vanished(previous, s.local, s.remote)) && p in previous && p !in s.local
    requires var t := ActAll(s, gone, stored); Diffs(ds, ByPath(t.local, t.remote))
    ensures var u := ActAll(ActAll(s, gone, stored), ds, stored); p !in u.local && p !in u.remote
  {
    var t := ActAll(s, gone, stored);
    ActsApart(s, gone, stored, p);
    if p in s.remote {
      assert Vanished(previous, s.local, s.remote)(p) == Some(DeleteRemote);
      assert DiffEntry(p, DeleteRemote) in gone;
    } else {
      assert Vanished(previous, s.local, s.remote)(p).None?;
    }
    assert p !in t.local && p !in t.remote;
    assert ByPath(t.local, t.remote)(p).None?;
    ActsApart(t, ds, stored, p);
  }
}
