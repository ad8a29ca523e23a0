/**
Logs with delete_root. A root deletion wipes whatever arrived before it, whatever
its clock, so order matters exactly when something in the log is newer than it.
*/
module OpsLogRoots {
  import opened Ordering
  import opened OpsLog
  import opened OpsLogConvergence

  /** Entries that make something visible. */
  predicate Brings(e: Entry) { e.Writes() || e.typ.CreateDir? }

  ghost predicate LatestRoot(es: set<Entry>, r: Entry) {
    r in es && r.typ.DeleteRoot? && forall x :: x in es && x.typ.DeleteRoot? ==> !x.At().Beats(r.At())
  }

  /** Nothing that brings a file or directory is newer than the root deletion. */
  ghost predicate RootLast(es: set<Entry>, r: Entry) {
    LatestRoot(es, r) && forall x :: x in es && Brings(x) ==> !x.At().Beats(r.At())
  }

  ghost predicate SameView(log: seq<Entry>, other: seq<Entry>) {
    Rebuild(log).files == Rebuild(other).files && Rebuild(log).dirs == Rebuild(other).dirs
  }

  /** Every arrival order, with any repeats, shows the same files and directories. */
  ghost predicate OrderFree(es: set<Entry>) {
    forall log, other :: Entries(log) == es && Entries(other) == es ==> SameView(log, other)
  }

  // ---- When the root deletion is last ------------------------------------------

  /** The root clock is some root deletion's; once it is the latest one's, nothing is visible. */
  ghost predicate Wiped(st: State, es: set<Entry>, r: Entry) {
    && (st.root.Some? ==> exists x :: x in es && x.typ.DeleteRoot? && st.root.value == x.At())
    && (st.root == Some(r.At()) ==> st.snap.files == map[] && st.snap.dirs == map[])
  }

  lemma WipedStep(st: State, es: set<Entry>, r: Entry, e: Entry)
    requires Wiped(st, es, r) && RootLast(es, r) && e in es
    ensures Wiped(Apply(st, e), es, r)
    ensures st.root == Some(r.At()) || e == r ==> Apply(st, e).root == Some(r.At())
  {
    if st.root.Some? {
      var x :| x in es && x.typ.DeleteRoot? && st.root.value == x.At();
      BeatsTrichotomy(x.At(), r.At());
      BeatsTrichotomy(e.At(), r.At());
    }
    match e.typ
    case Put =>
    case Symlink =>
    case Delete =>
    case CreateDir =>
    case DeleteDir =>
    case DeleteRoot =>
    case Unknown(_) =>
  }

  lemma {:induction false} WipedReplay(log: seq<Entry>, es: set<Entry>, r: Entry)
    requires RootLast(es, r) && Entries(log) <= es
    ensures var st := Replay(Load(EmptySnapshot), log); Wiped(st, es, r) && (r in log ==> st.root == Some(r.At()))
  {
    if log != [] {
      var n := |log| - 1;
      assert log == log[..n] + [log[n]] && log[n] in Entries(log);
      assert forall e :: e in Entries(log[..n]) ==> e in Entries(log);
      WipedReplay(log[..n], es, r);
      hide Wiped, RootLast, Apply;
      WipedStep(Replay(Load(EmptySnapshot), log[..n]), es, r, log[n]);
    }
  }

  lemma RootLastShowsNothing(log: seq<Entry>, r: Entry)
    requires RootLast(Entries(log), r)
    ensures Rebuild(log).files == map[] && Rebuild(log).dirs == map[]
  {
    assert r in Entries(log) ==> r in log;
    WipedReplay(log, Entries(log), r);
  }

  // ---- When it is not ------------------------------------------------------------

  lemma {:induction false} ListSet(s: set<Entry>) returns (l: seq<Entry>)
    ensures Entries(l) == s
    decreases s
  {
    l := [];
    if s != {} {
      var e :| e in s;
      var rest := ListSet(s - {e});
      l := rest + [e];
      assert forall x :: x in l <==> x in Entries(rest) || x == e;
    }
  }

  lemma {:induction false} NoRootYet(st: State, log: seq<Entry>)
    requires st.root.None? && forall e :: e in log ==> !e.typ.DeleteRoot?
    ensures Replay(st, log).root.None?
  {
    if log != [] {
      NoRootYet(st, log[..|log| - 1]);
      assert log[|log| - 1] in log;
      RootOnlyByRoot(Replay(st, log[..|log| - 1]), log[|log| - 1]);
    }
  }

  lemma RootOnlyByRoot(st: State, e: Entry)
    requires !e.typ.DeleteRoot?
    ensures Apply(st, e).root == st.root
  {
    match e.typ
    case Put =>
    case Symlink =>
    case Delete =>
    case CreateDir =>
    case DeleteDir =>
    case Unknown(_) =>
  }

  /** What a root deletion leaves. */
  function Bare(r: Entry): State {
    State(Snapshot(map[], map[], map[], map[], Some(TombOf(r))), map[], map[], map[], Some(r.At()))
  }

  lemma {:induction false} EarlierRootsSkipped(r: Entry, roots: seq<Entry>)
    requires forall x :: x in roots ==> x.typ.DeleteRoot? && !x.At().Beats(r.At())
    ensures Replay(Bare(r), roots) == Bare(r)
  {
    if roots != [] {
      assert roots[|roots| - 1] in roots;
      EarlierRootsSkipped(r, roots[..|roots| - 1]);
    }
  }

  /** Everything else, then the root deletions with the latest first. */
  lemma WipedAfter(before: seq<Entry>, r: Entry, roots: seq<Entry>)
    requires r.typ.DeleteRoot? && (forall e :: e in before ==> !e.typ.DeleteRoot?)
    requires forall x :: x in roots ==> x.typ.DeleteRoot? && !x.At().Beats(r.At())
    ensures Replay(Load(EmptySnapshot), before + [r] + roots) == Bare(r)
  {
    var s0 := Load(EmptySnapshot);
    NoRootYet(s0, before);
    ReplayOne(s0, before, r);
    ReplayAppend(s0, before + [r], roots);
    EarlierRootsSkipped(r, roots);
  }

  lemma BroughtAfterWipe(r: Entry, w: Entry)
    requires Brings(w) && w.At().Beats(r.At())
    ensures var s := Apply(Bare(r), w).snap; !(s.files == map[] && s.dirs == map[])
  {
    if w.typ.CreateDir? {
      assert CreateTakes(Bare(r), w);
      assert w.path in Apply(Bare(r), w).snap.dirs;
    } else {
      assert PutTakes(Bare(r), w);
      assert w.path in Apply(Bare(r), w).snap.files;
    }
  }

  /** The newer entry arriving before the root deletion is wiped, arriving last it is shown. */
  lemma NewerEntrySplits(es: set<Entry>, r: Entry, w: Entry)
    requires LatestRoot(es, r) && w in es && Brings(w) && w.At().Beats(r.At())
    ensures !OrderFree(es)
  {
    hide OrderFree, SameView, Brings;
    var others, roots := Parted(es, r, w);
    TwoOrders(es, others, roots, r, w);
    hide Entries;
    SplitView(others, roots, r, w);
    Disagree(es, (others + [w]) + [r] + roots, (others + [r] + roots) + [w]);
  }

  lemma Disagree(es: set<Entry>, log: seq<Entry>, other: seq<Entry>)
    requires Entries(log) == es && Entries(other) == es && !SameView(log, other)
    ensures !OrderFree(es)
  {
    hide SameView, Entries;
  }

  /** The entries without `r` and `w`, root deletions apart. */
  lemma Parted(es: set<Entry>, r: Entry, w: Entry) returns (others: seq<Entry>, roots: seq<Entry>)
    requires LatestRoot(es, r) && w in es && !w.typ.DeleteRoot?
    ensures es == Entries(others) + Entries(roots) + {r, w}
    ensures forall x :: x in others ==> !x.typ.DeleteRoot?
    ensures forall x :: x in roots ==> x.typ.DeleteRoot? && !x.At().Beats(r.At())
  {
    others := ListSet(set e | e in es && !e.typ.DeleteRoot? && e != w);
    roots := ListSet(set e | e in es && e.typ.DeleteRoot? && e != r);
    forall x | x in others ensures !x.typ.DeleteRoot? { assert x in Entries(others); }
    forall x | x in roots ensures x.typ.DeleteRoot? && x in es { assert x in Entries(roots); }
  }

  lemma SplitView(others: seq<Entry>, roots: seq<Entry>, r: Entry, w: Entry)
    requires r.typ.DeleteRoot? && Brings(w) && w.At().Beats(r.At()) && (forall e :: e in others ==> !e.typ.DeleteRoot?)
    requires forall x :: x in roots ==> x.typ.DeleteRoot? && !x.At().Beats(r.At())
    ensures !SameView((others + [w]) + [r] + roots, (others + [r] + roots) + [w])
  {
    WipedAfter(others + [w], r, roots);
    WipedAfter(others, r, roots);
    ReplayOne(Load(EmptySnapshot), others + [r] + roots, w);
    BroughtAfterWipe(r, w);
    hide Apply, Replay, Load;
  }

  lemma TwoOrders(es: set<Entry>, others: seq<Entry>, roots: seq<Entry>, r: Entry, w: Entry)
    requires es == Entries(others) + Entries(roots) + {r, w}
    ensures Entries((others + [w]) + [r] + roots) == es && Entries((others + [r] + roots) + [w]) == es
  {
    forall e ensures e in (others + [w]) + [r] + roots <==> e in es { assert e in others <==> e in Entries(others); }
    forall e ensures e in (others + [r] + roots) + [w] <==> e in es { assert e in others <==> e in Entries(others); }
  }

  /** With a root deletion in the log, every order shows the same files and
      directories exactly when nothing brought is newer than the latest one. */
  lemma RootOrderFreeIff(es: set<Entry>, r: Entry)
    requires LatestRoot(es, r)
    ensures OrderFree(es) <==> RootLast(es, r)
  {
    if RootLast(es, r) {
      forall log, other | Entries(log) == es && Entries(other) == es ensures SameView(log, other) {
        RootLastShowsNothing(log, r);
        RootLastShowsNothing(other, r);
      }
    } else {
      var w :| w in es && Brings(w) && w.At().Beats(r.At());
      NewerEntrySplits(es, r, w);
    }
  }
}
