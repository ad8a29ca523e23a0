/**
Append-only logs read as "the last entry per id, most recent first", shared by
the job and spec stores (pkg/agent/job_store.go, pkg/agent/spec_store.go).
*/
module LatestLog {
  /** A line of the log; `Skipped` is one the reader cannot use. */
  datatype Line<+V> = Saved(id: string, value: V) | Removed(id: string) | Skipped

  predicate Names<V>(line: Line<V>, id: string) { !line.Skipped? && line.id == id }

  /** `i` is the last line about `id`, and it saved something. */
  predicate LiveAt<V>(log: seq<Line<V>>, id: string, i: int) {
    && 0 <= i < |log| && log[i].Saved? && log[i].id == id
    && forall j :: i < j < |log| ==> !Names(log[j], id)
  }

  // ---- As a map -----------------------------------------------------------------------

  function Latest<V>(log: seq<Line<V>>): map<string, V> {
    if log == [] then map[]
    else
      var before := Latest(log[..|log| - 1]);
      match log[|log| - 1]
      case Saved(id, value) => before[id := value]
      case Removed(id) => before - {id}
      case Skipped => before
  }

  /** The map says what the last line about each id said. */
  lemma {:induction false} LatestMeans<V>(log: seq<Line<V>>, id: string)
    ensures id in Latest(log) <==> exists i :: LiveAt(log, id, i)
    ensures forall i :: LiveAt(log, id, i) ==> id in Latest(log) && Latest(log)[id] == log[i].value
  {
    if log != [] {
      var n := |log| - 1;
      LatestMeans(log[..n], id);
      if Names(log[n], id) {
        if log[n].Saved? { assert LiveAt(log, id, n); }
      } else {
        forall i ensures LiveAt(log, id, i) <==> LiveAt(log[..n], id, i) { SameLive(log, id, i); }
      }
    }
  }

  lemma SameLive<V>(log: seq<Line<V>>, id: string, i: int)
    requires log != [] && !Names(log[|log| - 1], id)
    ensures LiveAt(log, id, i) <==> LiveAt(log[..|log| - 1], id, i)
  {}

  // ---- As a list ----------------------------------------------------------------------

  function Drop(order: seq<string>, id: string): (r: seq<string>)
    ensures forall x :: x in r <==> x in order && x != id
  {
    if order == [] then []
    else
      var rest := Drop(order[..|order| - 1], id);
      if order[|order| - 1] == id then rest else rest + [order[|order| - 1]]
  }

  lemma {:induction false} DropAbsent(order: seq<string>, id: string)
    requires id !in order
    ensures Drop(order, id) == order
  {
    if order != [] { DropAbsent(order[..|order| - 1], id); }
  }

  /** Ids listed in the order of their last save. */
  ghost predicate ByRecency<V>(log: seq<Line<V>>, order: seq<string>) {
    forall i, j, p, q :: 0 <= i < j < |order| && LiveAt(log, order[i], p) && LiveAt(log, order[j], q) ==> p < q
  }

  ghost predicate ListsLive<V>(log: seq<Line<V>>, order: seq<string>) {
    ByRecency(log, order) && forall id :: id in order <==> id in Latest(log)
  }

  lemma {:induction false} DropKeepsOrder<V>(log: seq<Line<V>>, order: seq<string>, id: string)
    requires ByRecency(log, order)
    ensures ByRecency(log, Drop(order, id))
  {
    if order != [] {
      var n := |order| - 1;
      DropKeepsOrder(log, order[..n], id);
      if order[n] != id {
        var rest := Drop(order[..n], id);
        forall i, p, q | 0 <= i < |rest| && LiveAt(log, rest[i], p) && LiveAt(log, order[n], q) ensures p < q {
          assert rest[i] in order[..n];
          var k :| 0 <= k < n && order[k] == rest[i];
        }
      }
    }
  }

  /** The order after one more line. */
  function NextOrder<V>(order: seq<string>, line: Line<V>): seq<string> {
    match line
    case Saved(id, _) => Drop(order, id) + [id]
    case Removed(id) => Drop(order, id)
    case Skipped => order
  }

  lemma NextOrderLists<V>(log: seq<Line<V>>, order: seq<string>, line: Line<V>)
    requires ListsLive(log, order)
    ensures ListsLive(log + [line], NextOrder(order, line))
  {
    var more := log + [line];
    assert more[..|log|] == log;
    if line.Skipped? {
      forall id, p ensures LiveAt(more, id, p) <==> LiveAt(log, id, p) { SameLive(more, id, p); }
    } else {
      var rest := Drop(order, line.id);
      DropKeepsOrder(log, order, line.id);
      forall i, p | 0 <= i < |rest| ensures LiveAt(more, rest[i], p) <==> LiveAt(log, rest[i], p) {
        assert rest[i] in rest;
        SameLive(more, rest[i], p);
      }
      assert ByRecency(more, rest);
      if line.Saved? {
        forall i, p, q | 0 <= i < |rest| && LiveAt(more, rest[i], p) && LiveAt(more, line.id, q) ensures p < q {
          assert Names(more[|log|], line.id) && LiveAt(log, rest[i], p);
        }
      }
    }
  }

  /** The reading loop of `listLatest`. */
  method ReadLog<V>(log: seq<Line<V>>) returns (byId: map<string, V>, order: seq<string>)
    ensures byId == Latest(log) && ListsLive(log, order)
  {
    byId, order := map[], [];
    for i := 0 to |log|
      invariant byId == Latest(log[..i]) && ListsLive(log[..i], order)
    {
      assert log[..i + 1] == log[..i] + [log[i]] && log[..i + 1][..i] == log[..i];
      NextOrderLists(log[..i], order, log[i]);
      match log[i]
      case Saved(id, value) =>
        if id in byId { order := Drop(order, id); } else { DropAbsent(order, id); }
        byId, order := byId[id := value], order + [id];
      case Removed(id) =>
        byId, order := byId - {id}, Drop(order, id);
      case Skipped =>
    }
    assert log[..|log|] == log;
  }

  /** `items` are the last saved values of the live ids, most recently saved first. */
  ghost predicate Lists<V>(log: seq<Line<V>>, ids: seq<string>, items: seq<V>) {
    && |ids| == |items|
    && (forall id :: id in ids <==> exists i :: LiveAt(log, id, i))
    && (forall k, i :: 0 <= k < |ids| && LiveAt(log, ids[k], i) ==> items[k] == log[i].value)
    && (forall k, l, i, j :: 0 <= k < l < |ids| && LiveAt(log, ids[k], i) && LiveAt(log, ids[l], j) ==> i > j)
  }

  lemma RecencyIsDistinct<V>(log: seq<Line<V>>, ids: seq<string>, items: seq<V>)
    requires Lists(log, ids, items)
    ensures forall k, l :: 0 <= k < l < |ids| ==> ids[k] != ids[l]
  {
    forall k, l | 0 <= k < l < |ids| ensures ids[k] != ids[l] {
      assert ids[k] in ids;
      var i :| LiveAt(log, ids[k], i);
    }
  }

  method ListLatest<V>(log: seq<Line<V>>) returns (items: seq<V>, ghost ids: seq<string>)
    ensures Lists(log, ids, items) && forall k, l :: 0 <= k < l < |ids| ==> ids[k] != ids[l]
  {
    var byId, order := ReadLog(log);
    items, ids := [], [];
    var i := |order|;
    while i > 0
      invariant 0 <= i <= |order| && |ids| == |items| == |order| - i
      invariant forall k :: 0 <= k < |ids| ==>
          ids[k] == order[|order| - 1 - k] && ids[k] in byId && items[k] == byId[ids[k]]
    {
      i := i - 1;
      assert order[i] in order;
      items, ids := items + [byId[order[i]]], ids + [order[i]];
    }
    forall id ensures id in ids <==> exists p :: LiveAt(log, id, p) {
      LatestMeans(log, id);
      if id in order { var k :| 0 <= k < |order| && order[k] == id; assert ids[|order| - 1 - k] == id; }
    }
    forall k, p | 0 <= k < |ids| && LiveAt(log, ids[k], p) ensures items[k] == log[p].value {
      LatestMeans(log, ids[k]);
    }
    RecencyIsDistinct(log, ids, items);
  }
}
