/** Where replay stops being order-free, and exactly when. */
module OpsLogLimits {
  import opened Ordering
  import opened OpsLog
  import opened OpsLogConvergence

  lemma ReplayTwo(x: Entry, y: Entry)
    ensures Replay(Load(EmptySnapshot), [x, y]) == Apply(Apply(Load(EmptySnapshot), x), y)
  {
    ReplayOne(Load(EmptySnapshot), [], x);
    ReplayOne(Load(EmptySnapshot), [x], y);
    assert [] + [x] == [x] && [x] + [y] == [x, y];
  }

  /** The state after one write to an empty log. */
  lemma FirstWrite(x: Entry)
    requires x.Writes()
    ensures var st := Apply(Load(EmptySnapshot), x);
      && st.snap.files == map[x.path := FileOf(x)] && st.clocks == map[x.path := x.At()]
      && st.dirTombs == map[] && st.root.None?
  {
    assert PutTakes(Load(EmptySnapshot), x);
  }

  /** A second write to the same path replaces the first or changes nothing. */
  lemma SecondWrite(x: Entry, y: Entry)
    requires x.Writes() && y.Writes() && x.path == y.path
    ensures Rebuild([x, y]).files == map[x.path := FileOf(
      if !Descends(x.prevChecksum, y.checksum) && (Descends(y.prevChecksum, x.checksum) || y.At().Beats(x.At()))
      then y else x)]
  {
    ReplayTwo(x, y);
    FirstWrite(x);
    var st := Apply(Load(EmptySnapshot), x);
    assert FileOf(x).prevChecksum == x.prevChecksum && FileOf(x).checksum == x.checksum;
    assert !Covered(y.path, y.At(), st.dirTombs);
    hide Covered, Load;
    assert (map[x.path := FileOf(x)])[x.path := FileOf(y)] == map[x.path := FileOf(y)];
  }

  /** Two writes to one path: the later clock wins in order exactly when the earlier
      one does not claim the later one's content as its predecessor, and out of order
      also when the later one claims the earlier one's. */
  lemma LaterWriteWins(x: Entry, y: Entry)
    requires x.Writes() && y.Writes() && x.path == y.path && y.At().Beats(x.At())
    ensures Rebuild([x, y]).files == map[y.path := FileOf(y)] <==> !Descends(x.prevChecksum, y.checksum)
    ensures Rebuild([y, x]).files == map[y.path := FileOf(y)]
            <==> !Descends(x.prevChecksum, y.checksum) || Descends(y.prevChecksum, x.checksum)
  {
    SecondWrite(x, y);
    SecondWrite(y, x);
    BeatsTrichotomy(x.At(), y.At());
    hide Rebuild, Descends;
    var p, mx, my := x.path, map[x.path := FileOf(x)], map[x.path := FileOf(y)];
    assert FileOf(x) != FileOf(y) by { assert FileOf(x).At() == x.At() && FileOf(y).At() == y.At(); }
    assert mx[p] != my[p];
  }

  /** Editing a file and undoing the edit: the in-order replay keeps the edit. */
  lemma RevertIsLost(path: string, before: string, after: string, device: string)
    requires before != "" && after != "" && before != after
    ensures
      var created := Entry(Put, path, [before], 1, before, "", "", "", device, 1, 1);
      var edited := Entry(Put, path, [after], 1, after, before, "", "", device, 2, 2);
      var reverted := Entry(Put, path, [before], 1, before, after, "", "", device, 3, 3);
      && Rebuild([created, edited, reverted]).files == map[path := FileOf(edited)]
      && !Dominates({created, edited, reverted}, path, reverted)
  {
    var created := Entry(Put, path, [before], 1, before, "", "", "", device, 1, 1);
    var edited := Entry(Put, path, [after], 1, after, before, "", "", device, 2, 2);
    var reverted := Entry(Put, path, [before], 1, before, after, "", "", device, 3, 3);
    ReplayTwo(created, edited);
    ReplayOne(Load(EmptySnapshot), [created, edited], reverted);
    assert [created, edited] + [reverted] == [created, edited, reverted];
    var s1 := Apply(Load(EmptySnapshot), created);
    assert s1.snap.files == map[path := FileOf(created)] && s1.dirTombs == map[];
    var s2 := Apply(s1, edited);
    assert s2.snap.files == map[path := FileOf(edited)];
    assert Apply(s2, reverted) == s2;
    assert Touches(edited, path) && !Yields({created, edited, reverted}, edited, reverted);
  }

  /** The visible files converge, the tombstones behind them do not. */
  lemma TombstonesDependOnOrder(put: Entry, drop: Entry)
    requires put.typ.Put? && drop.typ.DeleteDir? && Under(drop.path, put.path) && drop.At().Beats(put.At())
    ensures Rebuild([put, drop]).files == Rebuild([drop, put]).files == map[]
    ensures Rebuild([put, drop]).deleted == map[put.path := TombOf(drop)]
    ensures Rebuild([drop, put]).deleted == map[]
  {
    DropAfterPut(put, drop);
    DropBeforePut(put, drop);
  }

  lemma DropAfterPut(put: Entry, drop: Entry)
    requires put.typ.Put? && drop.typ.DeleteDir? && Under(drop.path, put.path) && drop.At().Beats(put.At())
    ensures Rebuild([put, drop]).files == map[]
    ensures Rebuild([put, drop]).deleted == map[put.path := TombOf(drop)]
  {
    ReplayTwo(put, drop);
    var p, start := put.path, Load(EmptySnapshot);
    var s1 := Apply(start, put);
    assert s1.snap.files == map[p := FileOf(put)] && s1.clocks == map[p := put.At()] && s1.snap.deleted == map[];
    assert Swept(s1, drop) == {p};
    assert Apply(s1, drop) == ApplyDeleteDir(s1, drop);
  }

  lemma DropBeforePut(put: Entry, drop: Entry)
    requires put.typ.Put? && drop.typ.DeleteDir? && Under(drop.path, put.path) && drop.At().Beats(put.At())
    ensures Rebuild([drop, put]).files == map[] && Rebuild([drop, put]).deleted == map[]
  {
    ReplayTwo(drop, put);
    BeatsTrichotomy(put.At(), drop.At());
    var p, start := put.path, Load(EmptySnapshot);
    var s2 := ApplyDeleteDir(start, drop);
    assert Apply(start, drop) == s2;
    assert Swept(start, drop) == {};
    assert s2.snap.files == map[] && s2.snap.deleted == map[] && s2.dirTombs == map[drop.path := drop.At()];
    assert Covered(p, put.At(), s2.dirTombs);
    assert Apply(s2, put) == s2;
  }
}
