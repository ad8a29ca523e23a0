/** The two replays of the repository give one file tree where the latest writes dominate. */
module ReplayAgreement {
  import opened Ordering
  import opened OpsLog
  import C = OpsLogConvergence
  import R = OpReplay

  /** The same entry as the shared log stores it. */
  function OpOf(e: Entry): (op: R.Op)
    requires !e.typ.DeleteRoot?
    ensures op.At() == e.At() && op.Writes() == e.Writes()
  {
    var typ := match e.typ
      case Put => R.OpPut
      case Symlink => R.OpSymlink
      case Delete => R.OpDelete
      case CreateDir => R.OpCreateDir
      case DeleteDir => R.OpDeleteDir
      case Unknown(name) => R.OpOther(name);
    R.Op(typ, e.path, e.chunks, e.size, e.checksum, e.prevChecksum, e.linkTarget, e.namespace, e.device, e.timestamp,
        e.seqNo, "")
  }

  function OpsOf(log: seq<Entry>): (ops: seq<R.Op>)
    requires forall e :: e in log ==> !e.typ.DeleteRoot?
    ensures |ops| == |log| && forall i :: 0 <= i < |log| ==> ops[i] == OpOf(log[i])
  {
    seq(|log|, i requires 0 <= i < |log| => OpOf(log[i]))
  }

  /** What the shared log keeps of a file. */
  function Plain(fi: FileInfo): R.FileEntry {
    R.FileEntry(fi.chunks, fi.size, fi.modified, fi.checksum, fi.namespace)
  }

  lemma SameTouches(e: Entry, p: string)
    requires !e.typ.DeleteRoot?
    ensures R.Touches(OpOf(e), p) <==> C.Touches(e, p)
  {}

  /** The op a sorted replay decides `p` by is a latest entry, if it writes. */
  lemma DeciderLeads(log: seq<Entry>, r: seq<R.Op>, p: string, i: int)
    requires (forall e :: e in log ==> !e.typ.DeleteRoot?)
    requires R.Arrangement(r, OpsOf(log)) && R.LastTouch(r, p, i)
    ensures exists e :: e in log && r[i] == OpOf(e) && Latest(log, p, e)
  {
    R.LastTouchIsLatest(r, OpsOf(log), p, i);
    var k :| 0 <= k < |log| && OpsOf(log)[k] == r[i];
    var e := log[k];
    forall x | x in log && C.Touches(x, p) ensures !x.At().Beats(e.At()) {
      var j :| 0 <= j < |log| && log[j] == x;
      assert OpsOf(log)[j] in OpsOf(log);
      SameTouches(x, p);
    }
    SameTouches(e, p);
    assert e in log && Latest(log, p, e);
  }

  ghost predicate Latest(log: seq<Entry>, p: string, e: Entry) {
    C.Touches(e, p) && forall x :: x in log && C.Touches(x, p) ==> !x.At().Beats(e.At())
  }

  lemma LatestLeads(log: seq<Entry>, p: string, e: Entry)
    requires e in log && Latest(log, p, e) && e.Writes()
    ensures C.LeadsFile(C.Entries(log), p, e)
  {}

  /** Where latest writes dominate, nothing else is as late. */
  lemma LatestAlone(log: seq<Entry>, p: string, e: Entry, x: Entry)
    requires C.LeadersDominate(C.Entries(log)) && C.LeadsFile(C.Entries(log), p, e)
    requires x in log && Latest(log, p, x)
    ensures C.SameFile(x, e)
  {
    var es := C.Entries(log);
    BeatsTrichotomy(e.At(), x.At());
    assert x in es && e in log && C.Dominates(es, p, e);
    if x.Writes() {
      LatestLeads(log, p, x);
      assert C.Dominates(es, p, x);
    }
  }

  lemma PathAgrees(log: seq<Entry>, r: seq<R.Op>, files: map<string, FileInfo>, p: string)
    requires C.LeadersDominate(C.Entries(log)) && (forall e :: e in log ==> !e.typ.DeleteRoot?)
    requires R.Arrangement(r, OpsOf(log)) && C.ShowsLatestFiles(C.Entries(log), files)
    ensures R.At(R.Fold(map[], r), p) == if p in files then Some(Plain(files[p])) else None
  {
    hide R.Fold, R.Arrangement, C.LeadersDominate, C.LeadsFile;
    R.LastWriterDecides(map[], r, p);
    var i := R.FindLastTouch(r, p);
    if i >= 0 {
      DeciderLeads(log, r, p, i);
      var x :| x in log && r[i] == OpOf(x) && Latest(log, p, x);
      if p in files {
        var e :| C.LeadsFile(C.Entries(log), p, e);
        LatestAlone(log, p, e, x);
      } else if x.Writes() {
        LatestLeads(log, p, x);
      }
    } else if p in files {
      var e :| C.LeadsFile(C.Entries(log), p, e);
      LeaderTouched(log, r, p, e);
    }
  }

  lemma LeaderTouched(log: seq<Entry>, r: seq<R.Op>, p: string, e: Entry)
    requires (forall e :: e in log ==> !e.typ.DeleteRoot?) && R.Arrangement(r, OpsOf(log))
    requires C.LeadsFile(C.Entries(log), p, e)
    ensures exists j :: 0 <= j < |r| && R.Touches(r[j], p)
  {
    var k :| 0 <= k < |log| && log[k] == e;
    SameTouches(e, p);
    assert OpsOf(log)[k] in multiset(OpsOf(log));
    assert OpsOf(log)[k] in r by { assert OpsOf(log)[k] in multiset(r); }
  }

  /** Whatever order the local log received the entries in, its files are what
      sorting them and replaying the shared log gives. */
  lemma ReplaysAgree(log: seq<Entry>, r: seq<R.Op>)
    requires C.LeadersDominate(C.Entries(log)) && (forall e :: e in log ==> !e.typ.DeleteRoot?)
    requires R.Arrangement(r, OpsOf(log))
    ensures var files := Rebuild(log).files;
      R.Fold(map[], r) == map p | p in files :: Plain(files[p])
  {
    hide R.Fold, C.LeadsFile, C.LeadersDominate, C.ShowsLatestFiles, Rebuild, R.Arrangement;
    var files := Rebuild(log).files;
    var plain := map p | p in files :: Plain(files[p]);
    C.FilesAreLatest(log);
    forall p: string ensures R.At(R.Fold(map[], r), p) == R.At(plain, p) {
      PathAgrees(log, r, files, p);
    }
    R.SameEverywhere(R.Fold(map[], r), plain);
  }
}
