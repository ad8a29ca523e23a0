/** Packing small encrypted chunks into pack files (pkg/fs/pack.go). */
module PackWriter {
  import opened Ordering
  import opened OpKeys

  type Bytes = seq<byte>

  const TargetSize := 0x100_0000
  const ChunkThreshold := 0x40_0000

  datatype Location = Location(pack: string, offset: nat, length: nat)

  datatype Pending = Pending(hash: string, offset: nat, length: nat)

  /** A put may fail after the object was stored all the same. */
  datatype PutOutcome = Stored | Refused | StoredButFailed

  datatype Writer = Writer(store: map<string, Bytes>, index: map<string, Location>, buf: Bytes, entries: seq<Pending>,
      packSeq: nat)

  function PackName(n: nat): string { "packs/pack_" + Padded(n, 4) + ".enc" }

  lemma PackNameInjective(m: nat, n: nat)
    ensures PackName(m) == PackName(n) ==> m == n
  {
    if PackName(m) == PackName(n) {
      var k := |"packs/pack_"|;
      assert PackName(m)[k..|PackName(m)| - 4] == Padded(m, 4);
      assert PackName(n)[k..|PackName(n)| - 4] == Padded(n, 4);
      assert Value(Padded(m, 4)) == m && Value(Padded(n, 4)) == n;
    }
  }

  /** A range read of one pack. */
  function ReadPackedChunk(store: map<string, Bytes>, loc: Location): Option<Bytes> {
    if loc.pack in store && loc.offset + loc.length <= |store[loc.pack]|
    then Some(store[loc.pack][loc.offset..loc.offset + loc.length]) else None
  }

  /** The index after every pending entry is pointed at `pack`, later ones last. */
  function Indexed(index: map<string, Location>, entries: seq<Pending>, pack: string): map<string, Location> {
    if entries == [] then index
    else
      var e := entries[|entries| - 1];
      Indexed(index, entries[..|entries| - 1], pack)[e.hash := Location(pack, e.offset, e.length)]
  }

  function FlushStep(w: Writer, outcome: PutOutcome): (Writer, bool) {
    if w.buf == [] then (w, true)
    else
      var n := w.packSeq + 1;
      var store := if outcome.Refused? then w.store else w.store[PackName(n) := w.buf];
      if outcome.Stored? then (Writer(store, Indexed(w.index, w.entries, PackName(n)), [], [], n), true)
      else (w.(store := store, packSeq := n), false)
  }

  /** The chunk is buffered. */
  function Buffered(w: Writer, hash: string, data: Bytes): Writer {
    w.(buf := w.buf + data, entries := w.entries + [Pending(hash, |w.buf|, |data|)])
  }

  function AddStep(w: Writer, hash: string, data: Bytes, outcome: PutOutcome): (Writer, bool, bool) {
    if |data| > ChunkThreshold then (w, false, true)
    else
      var w' := Buffered(w, hash, data);
      if |w'.buf| >= TargetSize then var (w'', ok) := FlushStep(w', outcome); (w'', true, ok)
      else (w', true, true)
  }

  datatype Command = Add(hash: string, data: Bytes, outcome: PutOutcome) | Flush(outcome: PutOutcome)

  function Do(w: Writer, c: Command): Writer {
    match c
    case Add(hash, data, outcome) => AddStep(w, hash, data, outcome).0
    case Flush(outcome) => FlushStep(w, outcome).0
  }

  function Run(w: Writer, cs: seq<Command>): Writer {
    if cs == [] then w else Do(Run(w, cs[..|cs| - 1]), cs[|cs| - 1])
  }

  // ---- The map a writer stands for ------------------------------------------------

  /** What the caller was promised: the bytes last added under each hash. */
  function Promised(start: map<string, Bytes>, cs: seq<Command>): map<string, Bytes> {
    if cs == [] then start
    else
      var before := Promised(start, cs[..|cs| - 1]);
      match cs[|cs| - 1]
      case Add(hash, data, _) => if |data| > ChunkThreshold then before else before[hash := data]
      case Flush(_) => before
  }

  /** The pending entries cover the buffer from end to end without gap or overlap. */
  ghost predicate Tiles(entries: seq<Pending>, size: nat) {
    if entries == [] then size == 0
    else
      var e := entries[|entries| - 1];
      e.offset + e.length == size && Tiles(entries[..|entries| - 1], e.offset)
  }

  lemma {:induction false} TileInside(entries: seq<Pending>, size: nat, i: nat)
    requires Tiles(entries, size) && i < |entries|
    ensures entries[i].offset + entries[i].length <= size
  {
    if i < |entries| - 1 {
      TileInside(entries[..|entries| - 1], entries[|entries| - 1].offset, i);
    }
  }

  /** The latest pending entry for a hash, if any. */
  function Waiting(entries: seq<Pending>, hash: string): (r: Option<Pending>)
    ensures r.Some? ==> r.value in entries && r.value.hash == hash
    ensures r.None? <==> forall e :: e in entries ==> e.hash != hash
  {
    if entries == [] then None
    else if entries[|entries| - 1].hash == hash then Some(entries[|entries| - 1])
    else Waiting(entries[..|entries| - 1], hash)
  }

  /** Where a chunk's bytes can be found now: the buffer first, then the packs. */
  function Find(w: Writer, hash: string): Option<Bytes> {
    match Waiting(w.entries, hash)
    case Some(e) => if e.offset + e.length <= |w.buf| then Some(w.buf[e.offset..e.offset + e.length]) else None
    case None => if hash in w.index then ReadPackedChunk(w.store, w.index[hash]) else None
  }

  /** No indexed chunk lives in a pack this writer has yet to name. */
  ghost predicate NamesFree(w: Writer) {
    forall h, k :: h in w.index && k > w.packSeq ==> w.index[h].pack != PackName(k)
  }

  ghost predicate Inv(w: Writer, m: map<string, Bytes>) {
    && Tiles(w.entries, |w.buf|) && NamesFree(w)
    && forall h :: h in m ==> Find(w, h) == Some(m[h])
  }

  // ---- Proofs -----------------------------------------------------------------------

  lemma {:induction false} IndexedAt(index: map<string, Location>, entries: seq<Pending>, pack: string, h: string)
    ensures var i := Indexed(index, entries, pack);
      match Waiting(entries, h)
      case Some(e) => h in i && i[h] == Location(pack, e.offset, e.length)
      case None => (h in i <==> h in index) && (h in index ==> i[h] == index[h])
  {
    if entries != [] { IndexedAt(index, entries[..|entries| - 1], pack, h); }
  }

  lemma BufferedFinds(w: Writer, hash: string, data: Bytes, h: string)
    requires Tiles(w.entries, |w.buf|)
    ensures Find(Buffered(w, hash, data), h) == if h == hash then Some(data) else Find(w, h)
  {
    var w' := Buffered(w, hash, data);
    assert w'.entries[..|w'.entries| - 1] == w.entries;
    if h == hash {
      assert w'.buf[|w.buf|..|w.buf| + |data|] == data;
    } else if Waiting(w.entries, h).Some? {
      var x := Waiting(w.entries, h).value;
      var i :| 0 <= i < |w.entries| && w.entries[i] == x;
      TileInside(w.entries, |w.buf|, i);
      assert w'.buf[x.offset..x.offset + x.length] == w.buf[x.offset..x.offset + x.length];
    }
  }

  lemma BufferedKeeps(w: Writer, m: map<string, Bytes>, hash: string, data: Bytes)
    requires Inv(w, m)
    ensures Inv(Buffered(w, hash, data), m[hash := data])
  {
    hide Find;
    var w' := Buffered(w, hash, data);
    assert w'.entries[..|w'.entries| - 1] == w.entries;
    forall h | h in m[hash := data] ensures Find(w', h) == Some(m[hash := data][h]) {
      BufferedFinds(w, hash, data, h);
    }
  }

  /** A new pack leaves every indexed chunk as it was. */
  lemma NewPackHarmless(w: Writer, h: string, data: Bytes)
    requires NamesFree(w) && h in w.index
    ensures ReadPackedChunk(w.store[PackName(w.packSeq + 1) := data], w.index[h]) ==
        ReadPackedChunk(w.store, w.index[h])
  {}

  lemma FailedPutKeeps(w: Writer, m: map<string, Bytes>, w': Writer)
    requires Inv(w, m) && (w' == w.(packSeq := w.packSeq + 1)
        || w' == w.(store := w.store[PackName(w.packSeq + 1) := w.buf], packSeq := w.packSeq + 1))
    ensures Inv(w', m)
  {
    hide PackName, ReadPackedChunk;
    forall h | h in m ensures Find(w', h) == Some(m[h]) {
      if h in w.index { NewPackHarmless(w, h, w.buf); }
    }
  }

  lemma StoredPackFinds(w: Writer, m: map<string, Bytes>, h: string)
    requires Inv(w, m) && h in m && w.buf != []
    ensures Find(FlushStep(w, Stored).0, h) == Some(m[h])
  {
    hide PackName, Indexed, NamesFree, Tiles;
    IndexedAt(w.index, w.entries, PackName(w.packSeq + 1), h);
    assert Find(w, h) == Some(m[h]);
    if h in w.index { NewPackHarmless(w, h, w.buf); }
  }

  lemma StoredPackNames(w: Writer)
    requires NamesFree(w) && w.buf != []
    ensures NamesFree(FlushStep(w, Stored).0)
  {
    hide PackName;
    var w', n := FlushStep(w, Stored).0, w.packSeq + 1;
    forall h, k | h in w'.index && k > w'.packSeq ensures w'.index[h].pack != PackName(k) {
      PackNameInjective(k, n);
      IndexedAt(w.index, w.entries, PackName(n), h);
    }
  }

  lemma FlushKeeps(w: Writer, m: map<string, Bytes>, outcome: PutOutcome)
    requires Inv(w, m)
    ensures Inv(FlushStep(w, outcome).0, m)
  {
    hide PackName, Find, Indexed, NamesFree;
    if w.buf != [] {
      if outcome.Stored? {
        StoredPackNames(w);
        forall h | h in m ensures Find(FlushStep(w, outcome).0, h) == Some(m[h]) { StoredPackFinds(w, m, h); }
      } else {
        FailedPutKeeps(w, m, FlushStep(w, outcome).0);
      }
    }
  }

  lemma {:induction false} RunKeeps(w: Writer, m: map<string, Bytes>, cs: seq<Command>)
    requires Inv(w, m)
    ensures Inv(Run(w, cs), Promised(m, cs))
  {
    if cs != [] {
      var n := |cs| - 1;
      RunKeeps(w, m, cs[..n]);
      var v, p := Run(w, cs[..n]), Promised(m, cs[..n]);
      match cs[n]
      case Add(hash, data, outcome) =>
        if |data| <= ChunkThreshold {
          BufferedKeeps(v, p, hash, data);
          FlushKeeps(Buffered(v, hash, data), p[hash := data], outcome);
        }
      case Flush(outcome) => FlushKeeps(v, p, outcome);
    }
  }

  /** A new writer over an existing store and index. */
  function Opened(store: map<string, Bytes>, index: map<string, Location>): Writer {
    Writer(store, index, [], [], 0)
  }

  /** The chunks an index already gives access to. */
  function Readable(store: map<string, Bytes>, index: map<string, Location>): map<string, Bytes> {
    map h | h in index && ReadPackedChunk(store, index[h]).Some? :: ReadPackedChunk(store, index[h]).value
  }

  /** No existing chunk sits in a pack the new writer will name. */
  ghost predicate Unnumbered(index: map<string, Location>) {
    forall h, k :: h in index && k > 0 ==> index[h].pack != PackName(k)
  }

  /** However the puts fare, nothing added is ever lost and no earlier chunk is
      damaged: each is in the buffer or in a pack, with the bytes last added. */
  lemma NothingLost(store: map<string, Bytes>, index: map<string, Location>, cs: seq<Command>)
    requires Unnumbered(index)
    ensures var m := Promised(Readable(store, index), cs); var w := Run(Opened(store, index), cs);
      && Tiles(w.entries, |w.buf|)
      && forall h :: h in m ==> Find(w, h) == Some(m[h])
  {
    RunKeeps(Opened(store, index), Readable(store, index), cs);
  }

  /** A flush that reports success leaves nothing pending exactly when something
      other than empty chunks was pending. */
  lemma FlushSettlesIff(w: Writer, outcome: PutOutcome)
    requires FlushStep(w, outcome).1
    ensures FlushStep(w, outcome).0.entries == [] <==> w.buf != [] || w.entries == []
  {}

  /** After such a flush the index alone gives back every chunk. */
  lemma FlushedReadsBack(store: map<string, Bytes>, index: map<string, Location>, cs: seq<Command>, outcome: PutOutcome)
    requires Unnumbered(index)
    requires var w := Run(Opened(store, index), cs); FlushStep(w, outcome).1 && (w.buf != [] || w.entries == [])
    ensures var m := Promised(Readable(store, index), cs); var w := FlushStep(Run(Opened(store, index), cs), outcome).0;
      forall h :: h in m ==> h in w.index && ReadPackedChunk(w.store, w.index[h]) == Some(m[h])
  {
    var v, m := Run(Opened(store, index), cs), Promised(Readable(store, index), cs);
    RunKeeps(Opened(store, index), Readable(store, index), cs);
    FlushKeeps(v, m, outcome);
    var w := FlushStep(v, outcome).0;
    forall h | h in m ensures h in w.index && ReadPackedChunk(w.store, w.index[h]) == Some(m[h]) {
      assert Find(w, h) == Some(m[h]);
    }
  }

  /** An empty chunk on its own is acknowledged and flushed, yet never indexed. */
  lemma EmptyChunkUnindexed(store: map<string, Bytes>, hash: string, outcome: PutOutcome)
    ensures var w := Run(Opened(store, map[]), [Add(hash, [], outcome), Flush(outcome)]);
      hash in Promised(map[], [Add(hash, [], outcome), Flush(outcome)]) && hash !in w.index
  {
    var a, f := Add(hash, [], outcome), Flush(outcome);
    assert [a, f][..1] == [a] && [a][..0] == [];
    assert Run(Opened(store, map[]), [a]) == Buffered(Opened(store, map[]), hash, []);
    assert Promised(map[], [a]) == map[hash := []];
  }

  /** A second writer starts numbering at one again and overwrites the first pack. */
  lemma SecondWriterOverwrites(a: string, b: string, x: Bytes, y: Bytes)
    requires a != b && x != [] && |y| == |x| <= ChunkThreshold && x != y
    ensures
      var first := Run(Opened(map[], map[]), [Add(a, x, Stored), Flush(Stored)]);
      var second := Run(Opened(first.store, first.index), [Add(b, y, Stored), Flush(Stored)]);
      && a in first.index && ReadPackedChunk(first.store, first.index[a]) == Some(x)
      && a in second.index && ReadPackedChunk(second.store, second.index[a]) == Some(y)
  {
    hide Run, PackName;
    OneChunkPack(Opened(map[], map[]), a, x);
    var first := Run(Opened(map[], map[]), [Add(a, x, Stored), Flush(Stored)]);
    OneChunkPack(Opened(first.store, first.index), b, y);
    assert x[0..|x|] == x && y[0..|x|] == y;
  }

  lemma OneChunkPack(w: Writer, h: string, data: Bytes)
    requires w == Opened(w.store, w.index) && data != [] && |data| <= ChunkThreshold
    ensures var w' := Run(w, [Add(h, data, Stored), Flush(Stored)]);
      w'.store == w.store[PackName(1) := data] && w'.index == w.index[h := Location(PackName(1), 0, |data|)]
  {
    var c, f := Add(h, data, Stored), Flush(Stored);
    assert [c, f][..1] == [c] && [c][..0] == [];
    assert Run(w, []) == w && Run(w, [c]) == Do(w, c) && w.buf == [] && w.buf + data == data;
    var v := Run(w, [c]);
    assert v == Buffered(w, h, data) && v.buf == data && v.entries == [Pending(h, 0, |data|)];
    assert v.entries[..0] == [] && Run(w, [c, f]) == FlushStep(v, Stored).0;
    assert Indexed(w.index, v.entries, PackName(1)) ==
        Indexed(w.index, [], PackName(1))[h := Location(PackName(1), 0, |data|)];
  }

  // ---- Sizes ------------------------------------------------------------------------

  /** A chunk of up to 4 MiB is buffered, and flushes the buffer exactly when it then
      holds 16 MiB; a larger one is left to the caller. */
  lemma AddShows(w: Writer, hash: string, data: Bytes, outcome: PutOutcome)
    ensures var (w', packed, ok) := AddStep(w, hash, data, outcome);
      && (packed <==> |data| <= 4 * 1024 * 1024)
      && (!packed ==> w' == w && ok)
      && (packed ==>
            var buffered := w.(buf := w.buf + data, entries := w.entries + [Pending(hash, |w.buf|, |data|)]);
            if |w.buf| + |data| < 16 * 1024 * 1024 then w' == buffered && ok
            else (w', ok) == FlushStep(buffered, outcome))
  {}

  /** A flush stores the buffer under the next number, unless the put is refused, and
      settles the pending entries exactly when it is confirmed. */
  lemma FlushShows(w: Writer, outcome: PutOutcome)
    ensures var (w', ok) := FlushStep(w, outcome);
      && (w.buf == [] ==> w' == w && ok)
      && (w.buf != [] ==>
            && (ok <==> outcome.Stored?) && w'.packSeq == w.packSeq + 1
            && w'.store == (if outcome.Refused? then w.store else w.store[PackName(w.packSeq + 1) := w.buf])
            && (ok ==> w'.buf == [] && w'.entries == [])
            && (!ok ==> w'.buf == w.buf && w'.entries == w.entries && w'.index == w.index))
  {}

  predicate Succeeds(c: Command) { c.outcome.Stored? }

  /** While puts succeed, no pack this writer stores reaches 20 MiB. */
  lemma {:induction false} PacksStaySmall(w: Writer, cs: seq<Command>)
    requires |w.buf| < 16 * 1024 * 1024 && forall c :: c in cs ==> Succeeds(c)
    ensures var w' := Run(w, cs);
      && |w'.buf| < 16 * 1024 * 1024
      && forall p :: p in w'.store && (p !in w.store || w'.store[p] != w.store[p]) ==>
          |w'.store[p]| < 20 * 1024 * 1024
  {
    if cs != [] {
      var n := |cs| - 1;
      PacksStaySmall(w, cs[..n]);
      assert cs[n] in cs;
    }
  }

  /** A refused put keeps the buffer, so the next pack can be larger. */
  lemma RefusedPutGrowsPack(w: Writer, hash: string, data: Bytes)
    requires |w.buf| >= TargetSize && |data| <= ChunkThreshold
    ensures var w1 := FlushStep(w, Refused).0; var w2 := AddStep(w1, hash, data, Stored).0;
      PackName(w1.packSeq + 1) in w2.store && |w2.store[PackName(w1.packSeq + 1)]| == |w.buf| + |data|
  {}

  // ---- The writer object ---------------------------------------------------------------

  class PackWriterObject {
    var store: map<string, Bytes>
    var index: map<string, Location>
    var buf: Bytes
    var entries: seq<Pending>
    var packSeq: nat

    ghost function State(): Writer
      reads this
    {
      Writer(store, index, buf, entries, packSeq)
    }

    constructor (store: map<string, Bytes>, index: map<string, Location>)
      ensures State() == Opened(store, index)
    {
      this.store, this.index, buf, entries, packSeq := store, index, [], [], 0;
    }

    method AddChunk(hash: string, data: Bytes, outcome: PutOutcome) returns (packed: bool, ok: bool)
      modifies this
      ensures (State(), packed, ok) == AddStep(old(State()), hash, data, outcome)
    {
      if |data| > ChunkThreshold { return false, true; }
      var offset := |buf|;
      buf := buf + data;
      entries := entries + [Pending(hash, offset, |data|)];
      packed, ok := true, true;
      if |buf| >= TargetSize { ok := FlushBuffer(outcome); }
    }

    method FlushBuffer(outcome: PutOutcome) returns (ok: bool)
      modifies this
      ensures (State(), ok) == FlushStep(old(State()), outcome)
    {
      if |buf| == 0 { return true; }
      packSeq := packSeq + 1;
      var packName := PackName(packSeq);
      if !outcome.Refused? { store := store[packName := buf]; }
      if !outcome.Stored? { return false; }
      var i, pointed := 0, index;
      while i < |entries|
        invariant i <= |entries| && pointed == Indexed(index, entries[..i], packName)
      {
        assert entries[..i + 1][..i] == entries[..i];
        pointed := pointed[entries[i].hash := Location(packName, entries[i].offset, entries[i].length)];
        i := i + 1;
      }
      assert entries[..|entries|] == entries;
      index, buf, entries := pointed, [], [];
      ok := true;
    }
  }
}
