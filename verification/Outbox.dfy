/**
Draining the outbox (pkg/fs/outbox_worker.go): upload first, record in the
local log, then remove the queue entry.

Producers may append at any moment, also between the work on an entry and its
removal, so the two are separate steps.
*/
module Outbox {
  import opened Ordering
  import opened OpsLog
  import opened OpReplay

  datatype OutboxEntry = OutboxEntry(
    op: OpType, path: string, checksum: string, linkTarget: string, namespace: string, localPath: string,
    timestamp: int)
  {
    /** All that removal looks at. */
    function Key(): (string, int) { (path, timestamp) }
  }

  datatype Upload = Upload(path: string, chunks: seq<string>, size: int, checksum: string)

  datatype FileState = Missing | Unreadable | Unstable | Content(checksum: string)

  /** What the world answers while one entry is worked on. `shown` is the checksum
      the log's snapshot, cached or not, shows for the path. */
  datatype Env = Env(
    file: FileState, reopened: FileState, put: Option<Upload>, reported: bool, shown: string,
    refreshOk: bool, logOk: bool, now: int)

  datatype Output = Logged(record: Entry) | Refreshed(next: OutboxEntry) | Dropped

  /** An entry, what it gave, and what the world answered meanwhile. */
  datatype Done = Done(entry: OutboxEntry, output: Output, env: Env)

  /** The last four fields are history. */
  datatype Drain = Drain(
    queue: seq<OutboxEntry>, hand: Option<Done>, log: seq<Entry>, seqNo: int, device: string,
    uploads: set<Upload>, appended: seq<OutboxEntry>, consumed: seq<Done>, worked: seq<Entry>)

  function Start(log: seq<Entry>, seqNo: int, device: string): Drain {
    Drain([], None, log, seqNo, device, {}, [], [], [])
  }

  // ---- Steps -----------------------------------------------------------------------

  function Enqueue(s: Drain, e: OutboxEntry): Drain {
    s.(queue := s.queue + [e], appended := s.appended + [e])
  }

  /** A local append: stamped with the next number, which is used up either way. */
  function Stamped(s: Drain, e: Entry, now: int): Entry {
    e.(device := s.device, seqNo := s.seqNo + 1, timestamp := if e.timestamp == 0 then now else e.timestamp)
  }

  function Bump(s: Drain): Drain { s.(seqNo := s.seqNo + 1) }

  function Record(s: Drain, entry: OutboxEntry, e: Entry, env: Env): Drain {
    var r := Stamped(s, e, env.now);
    Bump(s).(log := s.log + [r], worked := s.worked + [r], hand := Some(Done(entry, Logged(r), env)))
  }

  function Drop(s: Drain, entry: OutboxEntry, env: Env): Drain { s.(hand := Some(Done(entry, Dropped, env))) }

  /** Directory, symlink and delete ops stay queued if the log cannot be written. */
  function WriteOp(s: Drain, entry: OutboxEntry, e: Entry, env: Env): Drain {
    if env.logOk then Record(s, entry, e, env) else Bump(s)
  }

  /** Puts and the deletes that stand for them ignore a failing log. */
  function WriteAnyway(s: Drain, entry: OutboxEntry, e: Entry, env: Env): Drain {
    if env.logOk then Record(s, entry, e, env) else Drop(Bump(s), entry, env)
  }

  function DeleteFor(entry: OutboxEntry): Entry {
    Entry(Delete, entry.path, [], 0, "", entry.checksum, "", entry.namespace, "", 0, 0)
  }

  function PutFor(entry: OutboxEntry, u: Upload, prev: string): Entry {
    Entry(Put, entry.path, u.chunks, u.size, u.checksum, prev, "", entry.namespace, "", entry.timestamp, 0)
  }

  function SimpleFor(entry: OutboxEntry, typ: EntryType, prev: string): Entry {
    var link := typ.Symlink?;
    Entry(typ, entry.path, [], 0, if link then entry.checksum else "", prev, if link then entry.linkTarget else "",
          entry.namespace, "", entry.timestamp, 0)
  }

  /** Work on a put. States without a hand are retries. */
  function UploadFile(s: Drain, entry: OutboxEntry, env: Env): Drain {
    match env.file
    case Missing => WriteAnyway(s, entry, DeleteFor(entry), env)
    case Unreadable | Unstable => s
    case Content(current) =>
      if entry.checksum != "" && current != entry.checksum then
        var next := entry.(checksum := current, timestamp := env.now);
        if env.refreshOk then Enqueue(s, next).(hand := Some(Done(entry, Refreshed(next), env))) else s
      else if env.reopened.Missing? then WriteAnyway(s, entry, DeleteFor(entry), env)
      else if env.reopened.Unreadable? || env.put.None? || env.put.value.path != entry.path then s
      else
        var u := env.put.value;
        var s' := s.(uploads := s.uploads + {u});
        if !env.reported || (entry.checksum != "" && u.checksum != entry.checksum) then s'
        else WriteAnyway(s', entry, PutFor(entry, u, env.shown), env)
  }

  function Work(s: Drain, env: Env): Drain {
    if s.queue == [] || s.hand.Some? then s
    else
      var entry := s.queue[0];
      match entry.op
      case OpPut => UploadFile(s, entry, env)
      case OpDelete =>
        WriteOp(s, entry, SimpleFor(entry, Delete, if entry.checksum != "" then entry.checksum else env.shown), env)
      case OpDeleteDir => WriteOp(s, entry, SimpleFor(entry, DeleteDir, ""), env)
      case OpCreateDir => WriteOp(s, entry, SimpleFor(entry, CreateDir, ""), env)
      case OpSymlink => WriteOp(s, entry, SimpleFor(entry, Symlink, env.shown), env)
      case OpOther(_) => Drop(s, entry, env)
  }

  /** Removal by key: every entry with it goes. */
  function Without(queue: seq<OutboxEntry>, key: (string, int)): seq<OutboxEntry> {
    if queue == [] then []
    else
      var rest := Without(queue[..|queue| - 1], key);
      if queue[|queue| - 1].Key() == key then rest else rest + [queue[|queue| - 1]]
  }

  function Finish(s: Drain): Drain {
    if s.hand.None? then s
    else s.(queue := Without(s.queue, s.hand.value.entry.Key()), hand := None, consumed := s.consumed + [s.hand.value])
  }

  datatype Step = Produce(e: OutboxEntry) | External(record: Entry) | WorkOn(env: Env) | Remove

  function Next(s: Drain, step: Step): Drain {
    match step
    case Produce(e) => Enqueue(s, e)
    case External(record) => s.(log := s.log + [record])
    case WorkOn(env) => Work(s, env)
    case Remove => Finish(s)
  }

  function Run(s: Drain, steps: seq<Step>): Drain {
    if steps == [] then s else Next(Run(s, steps[..|steps| - 1]), steps[|steps| - 1])
  }

  // ---- What a finished entry stands for ---------------------------------------------

  function Took(done: seq<Done>): (r: seq<OutboxEntry>)
    ensures |r| == |done| && forall i :: 0 <= i < |done| ==> r[i] == done[i].entry
  {
    seq(|done|, i requires 0 <= i < |done| => done[i].entry)
  }

  /** Content is what was queued, or nothing was said about it. */
  predicate AsQueued(entry: OutboxEntry, checksum: string) {
    entry.checksum == "" || checksum == entry.checksum
  }

  /** The file is not there, or not any more. */
  predicate FileGone(entry: OutboxEntry, env: Env) {
    env.file.Missing? || (env.file.Content? && AsQueued(entry, env.file.checksum) && env.reopened.Missing?)
  }

  /** The upload of the queued content succeeds and is reported. */
  predicate UploadDone(entry: OutboxEntry, env: Env) {
    && env.file.Content? && AsQueued(entry, env.file.checksum) && (env.reopened.Content? || env.reopened.Unstable?)
    && env.put.Some? && env.put.value.path == entry.path && env.reported && AsQueued(entry, env.put.value.checksum)
  }

  /** The put gets as far as recording something. */
  predicate ReachesLog(entry: OutboxEntry, env: Env) {
    FileGone(entry, env) || UploadDone(entry, env)
  }

  /** The file has other content than was queued. */
  predicate Outdated(entry: OutboxEntry, env: Env) {
    env.file.Content? && entry.checksum != "" && env.file.checksum != entry.checksum
  }

  predicate NoContent(r: Entry) {
    r.chunks == [] && r.size == 0 && r.checksum == "" && r.linkTarget == ""
  }

  /** A record made for an entry: same path and namespace, the entry's own time
      unless the file had gone, and as predecessor what the log showed. */
  ghost predicate Justified(uploads: set<Upload>, entry: OutboxEntry, env: Env, r: Entry) {
    var at := if entry.timestamp != 0 then entry.timestamp else env.now;
    && r.path == entry.path && r.namespace == entry.namespace
    && match entry.op
       case OpPut =>
         || (FileGone(entry, env) && r.typ.Delete? && r.timestamp == env.now && r.prevChecksum == entry.checksum
             && NoContent(r))
         || (UploadDone(entry, env) && r.typ.Put? && r.timestamp == at && r.prevChecksum == env.shown
             && env.put == Some(Upload(entry.path, r.chunks, r.size, r.checksum)) && env.put.value in uploads
             && r.linkTarget == "")
       case OpDelete =>
         r.typ.Delete? && r.timestamp == at && NoContent(r)
         && r.prevChecksum == if entry.checksum != "" then entry.checksum else env.shown
       case OpDeleteDir => r.typ.DeleteDir? && r.timestamp == at && r.prevChecksum == "" && NoContent(r)
       case OpCreateDir => r.typ.CreateDir? && r.timestamp == at && r.prevChecksum == "" && NoContent(r)
       case OpSymlink => r.typ.Symlink? && r.timestamp == at && r.linkTarget == entry.linkTarget
                         && r.checksum == entry.checksum && r.prevChecksum == env.shown && r.chunks == [] && r.size == 0
       case OpOther(_) => false
  }

  ghost predicate DoneOk(s: Drain, d: Done) {
    match d.output
    case Logged(r) => d.env.logOk && r in s.log && Justified(s.uploads, d.entry, d.env, r)
    case Refreshed(next) =>
      d.entry.op.OpPut? && Outdated(d.entry, d.env) && next in s.appended
      && next == d.entry.(checksum := d.env.file.checksum, timestamp := d.env.now)
    case Dropped => d.entry.op.OpOther? || (d.entry.op.OpPut? && !d.env.logOk && ReachesLog(d.entry, d.env))
  }

  ghost predicate DistinctKeys(es: seq<OutboxEntry>) {
    forall i, j :: 0 <= i < j < |es| ==> es[i].Key() != es[j].Key()
  }

  ghost predicate Inv(s: Drain) {
    && (s.hand.Some? ==> s.queue != [] && s.queue[0] == s.hand.value.entry && DoneOk(s, s.hand.value))
    && (forall d :: d in s.consumed ==> DoneOk(s, d))
  }

  /** Everything appended was consumed, in order, or is still waiting, in order. */
  ghost predicate Conserved(s: Drain) {
    s.appended == Took(s.consumed) + s.queue
  }

  // ---- Proofs ---------------------------------------------------------------------------

  ghost predicate Grows(s: Drain, s': Drain) {
    && (forall r :: r in s.log ==> r in s'.log) && s.uploads <= s'.uploads
    && (forall e :: e in s.appended ==> e in s'.appended)
  }

  lemma DoneStays(s: Drain, s': Drain, d: Done)
    requires Grows(s, s') && DoneOk(s, d)
    ensures DoneOk(s', d)
  {}

  /** A step that leaves the consumed entries alone keeps the invariant if its hand is fine. */
  lemma Kept(s: Drain, s': Drain)
    requires Inv(s) && Grows(s, s') && s'.consumed == s.consumed
    requires s'.hand.Some? ==> s'.queue != [] && s'.queue[0] == s'.hand.value.entry
    requires s'.hand.Some? ==> (s.hand == s'.hand || DoneOk(s', s'.hand.value))
    ensures Inv(s')
  {
    forall d | d in s.consumed ensures DoneOk(s', d) { DoneStays(s, s', d); }
    if s'.hand.Some? && s.hand == s'.hand { DoneStays(s, s', s.hand.value); }
  }

  lemma RecordKeeps(s: Drain, s0: Drain, entry: OutboxEntry, e: Entry, env: Env)
    requires Inv(s0) && Grows(s0, s) && s.consumed == s0.consumed && s.queue == s0.queue && s.queue != []
      && s.queue[0] == entry
    requires env.logOk && Justified(s.uploads, entry, env, Stamped(s, e, env.now))
    ensures Inv(Record(s, entry, e, env)) && Grows(s0, Record(s, entry, e, env))
  {
    var s' := Record(s, entry, e, env);
    assert Stamped(s, e, env.now) in s'.log;
    hide Justified;
    Kept(s0, s');
  }

  lemma DropKeeps(s: Drain, s0: Drain, entry: OutboxEntry, env: Env)
    requires Inv(s0) && Grows(s0, s) && s.consumed == s0.consumed && s.queue == s0.queue && s.queue != []
      && s.queue[0] == entry
    requires entry.op.OpOther? || (entry.op.OpPut? && !env.logOk && ReachesLog(entry, env))
    ensures Inv(Drop(s, entry, env)) && Grows(s0, Drop(s, entry, env))
  {
    hide ReachesLog;
    Kept(s0, Drop(s, entry, env));
  }

  lemma WriteKeeps(s: Drain, s0: Drain, entry: OutboxEntry, e: Entry, env: Env)
    requires Inv(s0) && Grows(s0, s) && s.consumed == s0.consumed && s.queue == s0.queue && s.queue != []
      && s.queue[0] == entry
    requires s.hand.None? && Justified(s.uploads, entry, env, Stamped(s, e, env.now))
    ensures Inv(WriteOp(s, entry, e, env))
    ensures entry.op.OpPut? && ReachesLog(entry, env) ==> Inv(WriteAnyway(s, entry, e, env))
  {
    hide Justified, ReachesLog;
    if env.logOk {
      RecordKeeps(s, s0, entry, e, env);
    } else {
      Kept(s0, Bump(s));
      if entry.op.OpPut? && ReachesLog(entry, env) { DropKeeps(Bump(s), s0, entry, env); }
    }
  }

  lemma UploadKeeps(s: Drain, entry: OutboxEntry, env: Env)
    requires Inv(s) && s.hand.None? && s.queue != [] && s.queue[0] == entry && entry.op.OpPut?
    ensures Inv(UploadFile(s, entry, env))
  {
    hide Inv, Grows, DoneOk;
    GrowsSelf(s);
    if FileGone(entry, env) { WriteKeeps(s, s, entry, DeleteFor(entry), env); }
    match env.file
    case Missing =>
    case Unreadable =>
    case Unstable =>
    case Content(current) =>
      if Outdated(entry, env) {
        if env.refreshOk { RefreshKeeps(s, entry, env); }
      } else if !env.reopened.Missing? && !env.reopened.Unreadable? && env.put.Some?
          && env.put.value.path == entry.path {
        var u := env.put.value;
        var s' := s.(uploads := s.uploads + {u});
        UploadedGrows(s, u);
        if UploadDone(entry, env) { WriteKeeps(s', s, entry, PutFor(entry, u, env.shown), env); }
      }
  }

  lemma GrowsSelf(s: Drain)
    ensures Grows(s, s)
  {}

  lemma UploadedGrows(s: Drain, u: Upload)
    requires Inv(s) && s.hand.None?
    ensures var s' := s.(uploads := s.uploads + {u}); Grows(s, s') && Inv(s')
  {
    Kept(s, s.(uploads := s.uploads + {u}));
  }

  lemma RefreshKeeps(s: Drain, entry: OutboxEntry, env: Env)
    requires Inv(s) && s.hand.None? && s.queue != [] && s.queue[0] == entry && entry.op.OpPut? && Outdated(entry, env)
    ensures var next := entry.(checksum := env.file.checksum, timestamp := env.now);
      Inv(Enqueue(s, next).(hand := Some(Done(entry, Refreshed(next), env))))
  {
    var next := entry.(checksum := env.file.checksum, timestamp := env.now);
    var s' := Enqueue(s, next).(hand := Some(Done(entry, Refreshed(next), env)));
    assert next in s'.appended;
    Kept(s, s');
  }

  lemma WorkKeeps(s: Drain, env: Env)
    requires Inv(s)
    ensures Inv(Work(s, env))
  {
    if s.queue != [] && s.hand.None? {
      var entry := s.queue[0];
      GrowsSelf(s);
      hide Inv, Grows;
      match entry.op
      case OpPut => UploadKeeps(s, entry, env);
      case OpDelete =>
        WriteKeeps(s, s, entry, SimpleFor(entry, Delete, if entry.checksum != "" then entry.checksum else env.shown),
            env);
      case OpDeleteDir => WriteKeeps(s, s, entry, SimpleFor(entry, DeleteDir, ""), env);
      case OpCreateDir => WriteKeeps(s, s, entry, SimpleFor(entry, CreateDir, ""), env);
      case OpSymlink => WriteKeeps(s, s, entry, SimpleFor(entry, Symlink, env.shown), env);
      case OpOther(_) => DropKeeps(s, s, entry, env);
    }
  }

  lemma NextKeeps(s: Drain, step: Step)
    requires Inv(s)
    ensures Inv(Next(s, step))
  {
    match step
    case Produce(e) => Kept(s, Enqueue(s, e));
    case External(record) => Kept(s, s.(log := s.log + [record]));
    case WorkOn(env) => WorkKeeps(s, env);
    case Remove =>
      if s.hand.Some? {
        forall d | d in s.consumed + [s.hand.value] ensures DoneOk(Finish(s), d) { DoneStays(s, Finish(s), d); }
      }
  }

  lemma {:induction false} RunKeeps(log: seq<Entry>, seqNo: int, device: string, steps: seq<Step>)
    ensures Inv(Run(Start(log, seqNo, device), steps))
  {
    if steps != [] {
      RunKeeps(log, seqNo, device, steps[..|steps| - 1]);
      NextKeeps(Run(Start(log, seqNo, device), steps[..|steps| - 1]), steps[|steps| - 1]);
    }
  }

  // ---- Conservation -------------------------------------------------------------------

  /** Removal is invisible exactly when the key does not occur. */
  lemma {:induction false} WithoutAbsent(queue: seq<OutboxEntry>, key: (string, int))
    ensures |Without(queue, key)| <= |queue|
    ensures |Without(queue, key)| == |queue| <==> forall e :: e in queue ==> e.Key() != key
    ensures |Without(queue, key)| == |queue| ==> Without(queue, key) == queue
  {
    if queue != [] {
      var n := |queue| - 1;
      WithoutAbsent(queue[..n], key);
      assert queue == queue[..n] + [queue[n]];
    }
  }

  lemma {:induction false} WithoutHead(queue: seq<OutboxEntry>)
    requires queue != []
    ensures Without(queue, queue[0].Key()) == Without(queue[1..], queue[0].Key())
  {
    var n := |queue| - 1;
    if n > 0 {
      WithoutHead(queue[..n]);
      assert queue[..n][1..] == queue[1..][..n - 1];
    } else {
      assert queue[..0] == [] && queue[1..] == [];
    }
  }

  /** Finishing an entry loses nothing exactly when no other queued entry has its
      path and second. */
  lemma FinishConservesIff(s: Drain)
    requires Inv(s) && Conserved(s) && s.hand.Some?
    ensures Conserved(Finish(s)) <==> forall e :: e in s.queue[1..] ==> e.Key() != s.queue[0].Key()
  {
    hide DoneOk;
    var head, rest := s.queue[0], s.queue[1..];
    WithoutHead(s.queue);
    WithoutAbsent(rest, head.Key());
    assert Took(s.consumed + [s.hand.value]) == Took(s.consumed) + [head];
    assert s.queue == [head] + rest;
    Rejoined(Took(s.consumed), head, rest, Without(rest, head.Key()));
  }

  lemma Rejoined(before: seq<OutboxEntry>, head: OutboxEntry, rest: seq<OutboxEntry>, kept: seq<OutboxEntry>)
    requires |kept| == |rest| ==> kept == rest
    ensures before + ([head] + rest) == (before + [head]) + kept <==> |kept| == |rest|
  {
    assert before + ([head] + rest) == (before + [head]) + rest;
    assert |before + ([head] + rest)| == |before| + 1 + |rest| && |(before + [head]) + kept| == |before| + 1 + |kept|;
  }

  lemma AppendedGrows(s: Drain, step: Step)
    ensures s.appended <= Next(s, step).appended
  {
    match step
    case Produce(e) =>
    case External(record) =>
    case WorkOn(env) => if s.queue != [] && s.hand.None? && s.queue[0].op.OpPut? {
        match env.file case Missing => case Unreadable => case Unstable => case Content(_) =>
      }
    case Remove =>
  }

  lemma WorkConserves(s: Drain, env: Env)
    requires Conserved(s)
    ensures Conserved(Work(s, env))
  {
    if s.queue != [] && s.hand.None? && s.queue[0].op.OpPut? {
      match env.file
      case Missing =>
      case Unreadable =>
      case Unstable =>
      case Content(current) =>
        var next := s.queue[0].(checksum := current, timestamp := env.now);
        assert Took(s.consumed) + s.queue + [next] == Took(s.consumed) + (s.queue + [next]);
    }
  }

  lemma TailKeysDiffer(s: Drain)
    requires Conserved(s) && DistinctKeys(s.appended) && s.queue != []
    ensures forall e :: e in s.queue[1..] ==> e.Key() != s.queue[0].Key()
  {
    var k := |s.consumed|;
    assert s.appended[k] == s.queue[0];
    forall i | 0 <= i < |s.queue[1..]| ensures s.queue[1..][i].Key() != s.queue[0].Key() {
      assert s.appended[k + 1 + i] == s.queue[1..][i];
    }
  }

  /** If no two appended entries share a path and second, every entry is consumed
      once, in the order appended, whatever fails and whenever producers append. */
  lemma {:induction false} ConsumedOnceInOrder(log: seq<Entry>, seqNo: int, device: string, steps: seq<Step>)
    requires DistinctKeys(Run(Start(log, seqNo, device), steps).appended)
    ensures Conserved(Run(Start(log, seqNo, device), steps))
  {
    if steps != [] {
      var n := |steps| - 1;
      var s := Run(Start(log, seqNo, device), steps[..n]);
      AppendedGrows(s, steps[n]);
      assert forall i :: 0 <= i < |s.appended| ==> s.appended[i] == Next(s, steps[n]).appended[i];
      ConsumedOnceInOrder(log, seqNo, device, steps[..n]);
      RunKeeps(log, seqNo, device, steps[..n]);
      match steps[n]
      case Produce(e) => assert Took(s.consumed) + s.queue + [e] == Took(s.consumed) + (s.queue + [e]);
      case External(_) =>
      case WorkOn(env) => WorkConserves(s, env);
      case Remove =>
        if s.hand.Some? {
          TailKeysDiffer(s);
          FinishConservesIff(s);
        }
    }
  }

  function Records(done: seq<Done>): seq<Entry> {
    if done == [] then []
    else
      var d := done[|done| - 1];
      Records(done[..|done| - 1]) + (if d.output.Logged? then [d.output.record] else [])
  }

  /** The worker's own records are those of the entries it consumed or has in hand. */
  ghost predicate Accounted(s: Drain) {
    s.worked == Records(s.consumed)
        + (if s.hand.Some? && s.hand.value.output.Logged? then [s.hand.value.output.record] else [])
  }

  lemma WorkAccounts(s: Drain, env: Env)
    requires Accounted(s)
    ensures Accounted(Work(s, env))
  {
    if s.queue != [] && s.hand.None? {
      match s.queue[0].op
      case OpPut => { match env.file case Missing => case Unreadable => case Unstable => case Content(_) => }
      case OpDelete =>
      case OpDeleteDir =>
      case OpCreateDir =>
      case OpSymlink =>
      case OpOther(_) =>
    }
  }

  /** The worker adds to the log at most one record, the one it counts as its own, under
      its next number. */
  lemma WorkLogs(s: Drain, step: Step)
    ensures step.External? ==> Next(s, step).log == s.log + [step.record] && Next(s, step).worked == s.worked
    ensures !step.External? ==> var s' := Next(s, step);
      && s.worked <= s'.worked && s'.log == s.log + s'.worked[|s.worked|..] && |s'.worked| <= |s.worked| + 1
      && (s'.worked != s.worked ==> s'.worked[|s.worked|].seqNo == s'.seqNo == s.seqNo + 1)
      && s.seqNo <= s'.seqNo <= s.seqNo + 1
  {
    match step
    case Produce(_) =>
    case External(_) =>
    case Remove =>
    case WorkOn(env) =>
      if s.queue != [] && s.hand.None? && s.queue[0].op.OpPut? {
        match env.file case Missing => case Unreadable => case Unstable => case Content(_) =>
      }
  }

  /** Each consumed entry gave exactly one log record, one refreshed entry, or was
      dropped, as the world's answers called for; a put among the records repeats an
      upload that had already succeeded and names what the log showed before. */
  lemma {:induction false} OneOutputEach(log: seq<Entry>, seqNo: int, device: string, steps: seq<Step>)
    ensures var s := Run(Start(log, seqNo, device), steps);
      Accounted(s) && forall d :: d in s.consumed ==> DoneOk(s, d)
  {
    RunKeeps(log, seqNo, device, steps);
    if steps != [] {
      var n := |steps| - 1;
      OneOutputEach(log, seqNo, device, steps[..n]);
      var s := Run(Start(log, seqNo, device), steps[..n]);
      match steps[n]
      case Produce(_) =>
      case External(_) =>
      case WorkOn(env) => WorkAccounts(s, env);
      case Remove =>
        if s.hand.Some? { assert (s.consumed + [s.hand.value])[..|s.consumed|] == s.consumed; }
    }
  }

  /** The worker's records carry its device and strictly increasing numbers. */
  ghost predicate Numbered(s: Drain, device: string) {
    && s.device == device
    && (forall i :: 0 <= i < |s.worked| ==> s.worked[i].device == device && s.worked[i].seqNo <= s.seqNo)
    && (forall i, j :: 0 <= i < j < |s.worked| ==> s.worked[i].seqNo < s.worked[j].seqNo)
  }

  lemma WorkNumbers(s: Drain, env: Env, device: string)
    requires Numbered(s, device)
    ensures Numbered(Work(s, env), device)
  {
    if s.queue != [] && s.hand.None? {
      match s.queue[0].op
      case OpPut => { match env.file case Missing => case Unreadable => case Unstable => case Content(_) => }
      case OpDelete =>
      case OpDeleteDir =>
      case OpCreateDir =>
      case OpSymlink =>
      case OpOther(_) =>
    }
  }

  lemma {:induction false} RecordsNumbered(log: seq<Entry>, seqNo: int, device: string, steps: seq<Step>)
    ensures Numbered(Run(Start(log, seqNo, device), steps), device)
  {
    if steps != [] {
      var n := |steps| - 1;
      RecordsNumbered(log, seqNo, device, steps[..n]);
      if steps[n].WorkOn? { WorkNumbers(Run(Start(log, seqNo, device), steps[..n]), steps[n].env, device); }
    }
  }

  // ---- Where entries are lost -------------------------------------------------------------

  /** An edit noticed within the second its entry was queued in is forgotten: the
      refreshed entry is removed together with the one it replaces. */
  lemma SameSecondRefreshIsLost(s: Drain, entry: OutboxEntry, current: string, env: Env)
    requires s.queue == [entry] && s.hand.None? && entry.op.OpPut?
    requires entry.checksum != "" && current != entry.checksum && env.file == Content(current) && env.refreshOk
    ensures Finish(Work(s, env)).queue == [] <==> env.now == entry.timestamp
    ensures Finish(Work(s, env)).log == s.log
  {
    var next := entry.(checksum := current, timestamp := env.now);
    var s' := Work(s, env);
    assert s'.queue == [entry, next];
    WithoutHead(s'.queue);
    assert s'.queue[1..] == [next];
    WithoutAbsent([next], entry.Key());
    assert next in [next];
  }

  /** Work drops its entry exactly when the op is unknown, or the entry is a put that
      reaches the log and the log cannot be written. */
  lemma DropsIff(s: Drain, env: Env)
    requires s.queue != [] && s.hand.None?
    ensures var head := s.queue[0];
      Work(s, env).hand == Some(Done(head, Dropped, env)) <==>
      (head.op.OpOther? || (head.op.OpPut? && !env.logOk && ReachesLog(head, env)))
  {
    if s.queue[0].op.OpPut? { match env.file case Missing => case Unreadable => case Unstable => case Content(_) => }
  }

  /** The entry stays queued exactly when a put's file cannot be read or its upload
      does not finish, a changed file cannot be queued again, or another op's record
      cannot be written; nothing is then recorded or removed. */
  lemma RetriesIff(s: Drain, env: Env)
    requires s.queue != [] && s.hand.None?
    ensures var head := s.queue[0];
      Work(s, env).hand.None? <==>
      if head.op.OpPut? then !ReachesLog(head, env) && !(Outdated(head, env) && env.refreshOk)
      else !head.op.OpOther? && !env.logOk
    ensures var s' := Work(s, env);
      s'.hand.None? ==> s'.queue == s.queue && s'.log == s.log && s'.consumed == s.consumed && s'.worked == s.worked
  {
    if s.queue[0].op.OpPut? { match env.file case Missing => case Unreadable => case Unstable => case Content(_) => }
  }

  /** While the log can be written and only known ops are queued, nothing is dropped. */
  ghost predicate NeverFails(steps: seq<Step>) {
    && (forall e :: WorkOn(e) in steps ==> e.logOk)
    && (forall e :: Produce(e) in steps ==> !e.op.OpOther?)
  }

  ghost predicate NoneDropped(s: Drain) {
    && (forall d :: d in s.consumed ==> !d.output.Dropped?)
    && (s.hand.Some? ==> !s.hand.value.output.Dropped?)
    && (forall e :: e in s.queue ==> !e.op.OpOther?)
  }

  lemma WorkDropsNone(s: Drain, env: Env)
    requires NoneDropped(s) && env.logOk
    ensures NoneDropped(Work(s, env))
  {
    if s.queue != [] && s.hand.None? {
      assert s.queue[0] in s.queue;
      DropsIff(s, env);
      match s.queue[0].op
      case OpPut => { match env.file case Missing => case Unreadable => case Unstable => case Content(_) => }
      case OpDelete =>
      case OpDeleteDir =>
      case OpCreateDir =>
      case OpSymlink =>
    }
  }

  lemma {:induction false} WithoutIncluded(queue: seq<OutboxEntry>, key: (string, int), e: OutboxEntry)
    ensures e in Without(queue, key) ==> e in queue
  {
    if queue != [] { WithoutIncluded(queue[..|queue| - 1], key, e); }
  }

  /** With a working log and known ops every consumed entry gave exactly one log
      record or one refreshed entry. */
  lemma {:induction false} RecordedOrRefreshed(log: seq<Entry>, seqNo: int, device: string, steps: seq<Step>)
    requires NeverFails(steps)
    ensures NoneDropped(Run(Start(log, seqNo, device), steps))
    ensures forall d :: d in Run(Start(log, seqNo, device), steps).consumed ==> d.output.Logged? || d.output.Refreshed?
  {
    if steps != [] {
      var n := |steps| - 1;
      var s := Run(Start(log, seqNo, device), steps[..n]);
      assert steps == steps[..n] + [steps[n]] && steps[n] in steps;
      RecordedOrRefreshed(log, seqNo, device, steps[..n]);
      match steps[n]
      case Produce(e) =>
      case External(_) =>
      case WorkOn(env) => WorkDropsNone(s, env);
      case Remove =>
        if s.hand.Some? {
          forall e | e in Finish(s).queue ensures e in s.queue {
            WithoutIncluded(s.queue, s.hand.value.entry.Key(), e);
          }
        }
    }
  }

  // ---- The worker ---------------------------------------------------------------------------

  method RemoveMatching(queue: seq<OutboxEntry>, key: (string, int)) returns (kept: seq<OutboxEntry>)
    ensures kept == Without(queue, key)
  {
    kept := [];
    for i := 0 to |queue|
      invariant kept == Without(queue[..i], key)
    {
      assert queue[..i + 1][..i] == queue[..i];
      if queue[i].Key() != key { kept := kept + [queue[i]]; }
    }
    assert queue[..|queue|] == queue;
  }

  class Worker {
    const device: string
    var queue: seq<OutboxEntry>
    var log: seq<Entry>
    var seqNo: int
    ghost var uploads: set<Upload>
    ghost var appended: seq<OutboxEntry>
    ghost var consumed: seq<Done>
    ghost var worked: seq<Entry>

    /** Between iterations nothing is in hand. */
    ghost function At(): Drain
      reads this
    {
      Drain(queue, None, log, seqNo, device, uploads, appended, consumed, worked)
    }

    constructor (log: seq<Entry>, seqNo: int, device: string)
      ensures At() == Start(log, seqNo, device)
    {
      this.device, this.log, this.seqNo, queue := device, log, seqNo, [];
      uploads, appended, consumed, worked := {}, [], [], [];
    }

    method AppendLocal(entry: OutboxEntry, e: Entry, env: Env) returns (ok: bool)
      modifies this`log, this`seqNo, this`worked
      ensures ok == env.logOk
      ensures At() == if ok then Record(old(At()), entry, e, env).(hand := None) else Bump(old(At()))
    {
      seqNo := seqNo + 1;
      var stamped :=
        e.(device := device, seqNo := seqNo, timestamp := if e.timestamp == 0 then env.now else e.timestamp);
      if env.logOk { log, worked := log + [stamped], worked + [stamped]; }
      ok := env.logOk;
    }

    /** `applied` tells whether the entry is to be removed; `done` is what was done. */
    method TryUpload(entry: OutboxEntry, env: Env) returns (applied: bool, ghost done: Done)
      modifies this
      ensures At() == UploadFile(old(At()), entry, env).(hand := None)
      ensures UploadFile(old(At()), entry, env).hand == if applied then Some(done) else None
    {
      done := Done(entry, Dropped, env);
      if env.file.Missing? {
        var ok := AppendLocal(entry, DeleteFor(entry), env);
        if ok { done := Done(entry, Logged(worked[|worked| - 1]), env); }
        return true, done;
      }
      if env.file.Unreadable? || env.file.Unstable? { return false, done; }
      if entry.checksum != "" && env.file.checksum != entry.checksum {
        if !env.refreshOk { return false, done; }
        var next := entry.(checksum := env.file.checksum, timestamp := env.now);
        queue, appended := queue + [next], appended + [next];
        return true, Done(entry, Refreshed(next), env);
      }
      if env.reopened.Missing? {
        var ok := AppendLocal(entry, DeleteFor(entry), env);
        if ok { done := Done(entry, Logged(worked[|worked| - 1]), env); }
        return true, done;
      }
      if env.reopened.Unreadable? || env.put.None? || env.put.value.path != entry.path { return false, done; }
      uploads := uploads + {env.put.value};
      if !env.reported || (entry.checksum != "" && env.put.value.checksum != entry.checksum) { return false, done; }
      var ok := AppendLocal(entry, PutFor(entry, env.put.value, env.shown), env);
      if ok { done := Done(entry, Logged(worked[|worked| - 1]), env); }
      applied := true;
    }

    method WriteSimple(entry: OutboxEntry, e: Entry, env: Env) returns (applied: bool, ghost done: Done)
      modifies this`log, this`seqNo, this`worked
      ensures At() == WriteOp(old(At()), entry, e, env).(hand := None)
      ensures WriteOp(old(At()), entry, e, env).hand == if applied then Some(done) else None
    {
      applied := AppendLocal(entry, e, env);
      done := Done(entry, if applied then Logged(worked[|worked| - 1]) else Dropped, env);
    }

    /** One round of the drain loop is one piece of work and its removal. */
    method DrainOnce(env: Env)
      modifies this
      ensures At() == Finish(Work(old(At()), env))
    {
      if queue == [] { return; }
      var entry := queue[0];
      var applied := true;
      ghost var done := Done(entry, Dropped, env);
      ghost var before := At();
      match entry.op {
        case OpPut => applied, done := TryUpload(entry, env);
        case OpDelete =>
          var prev := entry.checksum;
          if prev == "" { prev := env.shown; }
          applied, done := WriteSimple(entry, SimpleFor(entry, Delete, prev), env);
        case OpDeleteDir => applied, done := WriteSimple(entry, SimpleFor(entry, DeleteDir, ""), env);
        case OpCreateDir => applied, done := WriteSimple(entry, SimpleFor(entry, CreateDir, ""), env);
        case OpSymlink => applied, done := WriteSimple(entry, SimpleFor(entry, Symlink, env.shown), env);
        case OpOther(_) =>
      }
      assert Work(before, env) == At().(hand := if applied then Some(done) else None);
      if applied {
        queue := RemoveMatching(queue, entry.Key());
        consumed := consumed + [done];
      }
    }
  }
}
