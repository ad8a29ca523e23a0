/**
The spec log and its lifecycle (pkg/agent/spec_store.go).

`Rest` stands for everything a spec holds besides the fields below; `sound` is
the part of validation that looks at it. Each operation is one step.
*/
module SpecStore {
  import opened Ordering
  import opened Mailbox
  import opened LatestLog

  datatype Status = Draft | ApprovedSpec | Discarded | OtherStatus(name: string)

  /** An update may leave the status out, or repeat that it is a draft. */
  predicate StaysDraft(s: Status) {
    s.Draft? || (s.OtherStatus? && (Blank(s.name) || TrimSpace(s.name) == "draft"))
  }

  datatype Content<+Rest> = Content(prompt: string, name: string, rest: Rest)

  datatype Spec<+Rest> = Spec(id: string, content: Content<Rest>, status: Status, createdAt: int, updatedAt: int,
      approvedAt: Option<int>)

  predicate Valid<Rest>(sound: Rest -> bool, s: Spec<Rest>) {
    !Blank(s.id) && !Blank(s.content.prompt) && !Blank(s.content.name) && !s.status.OtherStatus?
        && sound(s.content.rest)
  }

  type Log<+Rest> = seq<Line<Spec<Rest>>>

  /** `born` is history: every id ever created. */
  datatype Store<+Rest> = Store(log: Log<Rest>, born: set<string>)

  datatype Step<+Rest> =
    | Create(spec: Spec<Rest>)
    | Update(spec: Spec<Rest>, now: int)
    | Approve(id: string, now: int)
    | Discard(id: string, now: int)
    | Delete(id: string)

  function Find<Rest>(s: Store<Rest>, id: string): Option<Spec<Rest>> {
    var key := TrimSpace(id);
    if key != "" && key in Latest(s.log) then Some(Latest(s.log)[key]) else None
  }

  function Save<Rest>(sound: Rest -> bool, s: Store<Rest>, spec: Spec<Rest>): Store<Rest> {
    if Valid(sound, spec) then s.(log := s.log + [Saved(spec.id, spec)]) else s
  }

  /** A created spec is a draft under an id that was never used. */
  function Next<Rest>(sound: Rest -> bool, s: Store<Rest>, step: Step<Rest>): Store<Rest> {
    match step
    case Create(spec) =>
      if spec.id in s.born || TrimSpace(spec.id) != spec.id || !spec.status.Draft? || spec.approvedAt.Some?
          || !Valid(sound, spec) then s
      else Save(sound, s, spec).(born := s.born + {spec.id})
    case Update(spec, now) =>
      (match Find(s, spec.id)
       case None => s
       case Some(current) =>
         if !current.status.Draft? || !StaysDraft(spec.status) then s
         else Save(sound, s, spec.(id := TrimSpace(spec.id), status := Draft, createdAt := current.createdAt,
                                   approvedAt := current.approvedAt, updatedAt := now)))
    case Approve(id, now) =>
      (match Find(s, id)
       case None => s
       case Some(spec) =>
         if spec.status.Discarded? then s
         else Save(sound, s, spec.(status := ApprovedSpec, updatedAt := now, approvedAt := Some(now))))
    case Discard(id, now) =>
      (match Find(s, id)
       case None => s
       case Some(spec) => Save(sound, s, spec.(status := Discarded, updatedAt := now)))
    case Delete(id) =>
      if Find(s, id).None? then s else s.(log := s.log + [Removed(TrimSpace(id))])
  }

  function Run<Rest>(sound: Rest -> bool, steps: seq<Step<Rest>>): Store<Rest> {
    if steps == [] then Store([], {}) else Next(sound, Run(sound, steps[..|steps| - 1]), steps[|steps| - 1])
  }

  // ---- Invariant and evolution ---------------------------------------------------------------

  ghost predicate SpecOk<Rest>(sound: Rest -> bool, s: Store<Rest>, id: string)
    requires id in Latest(s.log)
  {
    var spec := Latest(s.log)[id];
    && spec.id == id && TrimSpace(id) == id && id in s.born && Valid(sound, spec)
    && (spec.status.ApprovedSpec? ==> spec.approvedAt.Some?) && (spec.status.Draft? ==> spec.approvedAt.None?)
  }

  ghost predicate Inv<Rest>(sound: Rest -> bool, s: Store<Rest>) {
    forall id :: id in Latest(s.log) ==> SpecOk(sound, s, id)
  }

  /** How far along its life a spec is; 3 is deleted. */
  function Stage<Rest>(s: Store<Rest>, id: string): int {
    if id !in Latest(s.log) then 3
    else match Latest(s.log)[id].status
      case Draft => 0
      case ApprovedSpec => 1
      case Discarded => 2
      case OtherStatus(_) => 2
  }

  /** What one or more steps do to an id that already existed. */
  ghost predicate Ages<Rest>(s: Store<Rest>, s': Store<Rest>, id: string) {
    && id in s'.born && Stage(s, id) <= Stage(s', id)
    && (id in Latest(s.log) && id in Latest(s'.log) ==>
          && Latest(s'.log)[id].createdAt == Latest(s.log)[id].createdAt
          && (Stage(s, id) > 0 ==> Latest(s'.log)[id].content == Latest(s.log)[id].content))
  }

  lemma SaveShows<Rest>(sound: Rest -> bool, s: Store<Rest>, spec: Spec<Rest>)
    requires Valid(sound, spec)
    ensures Latest(Save(sound, s, spec).log) == Latest(s.log)[spec.id := spec]
  {
    var log := Save(sound, s, spec).log;
    assert log[..|log| - 1] == s.log;
  }

  lemma DeleteShows<Rest>(log: Log<Rest>, id: string)
    ensures Latest(log + [Removed(id)]) == Latest(log) - {id}
  {
    assert (log + [Removed(id)])[..|log|] == log;
  }

  /** Saving over an existing spec, forward along its life. */
  lemma Resaved<Rest>(sound: Rest -> bool, s: Store<Rest>, id: string, spec: Spec<Rest>)
    requires Inv(sound, s) && id in Latest(s.log) && spec.id == id
    requires spec.createdAt == Latest(s.log)[id].createdAt
    requires spec.status.ApprovedSpec? ==> spec.approvedAt.Some?
    requires spec.status.Draft? ==> spec.approvedAt.None? && Latest(s.log)[id].status.Draft?
    requires spec.status.ApprovedSpec? ==> !Latest(s.log)[id].status.Discarded?
    requires !Latest(s.log)[id].status.Draft? ==> spec.content == Latest(s.log)[id].content
    ensures Inv(sound, Save(sound, s, spec)) && Save(sound, s, spec).born == s.born
    ensures forall x :: x in s.born ==> Ages(s, Save(sound, s, spec), x)
  {
    if Valid(sound, spec) {
      SaveShows(sound, s, spec);
      var s' := Save(sound, s, spec);
      assert s'.born == s.born;
      hide Latest, Save, Valid;
      assert SpecOk(sound, s, id);
      forall x | x in Latest(s'.log) ensures SpecOk(sound, s', x) { if x != id { assert SpecOk(sound, s, x); } }
    }
  }

  lemma CreateKeeps<Rest>(sound: Rest -> bool, s: Store<Rest>, spec: Spec<Rest>)
    requires Inv(sound, s)
    ensures var s' := Next(sound, s, Create(spec)); Inv(sound, s') && forall x :: x in s.born ==> Ages(s, s', x)
  {
    var s' := Next(sound, s, Create(spec));
    if s' != s {
      SaveShows(sound, s, spec);
      assert Latest(s'.log) == Latest(s.log)[spec.id := spec] && s'.born == s.born + {spec.id};
      hide Latest, Save, Next;
      forall x | x in Latest(s'.log) ensures SpecOk(sound, s', x) { if x != spec.id { assert SpecOk(sound, s, x); } }
      forall x | x in s.born ensures Ages(s, s', x) {}
    }
  }

  lemma DeleteKeeps<Rest>(sound: Rest -> bool, s: Store<Rest>, id: string)
    requires Inv(sound, s)
    ensures var s' := Next(sound, s, Delete(id)); Inv(sound, s') && forall x :: x in s.born ==> Ages(s, s', x)
  {
    var s' := Next(sound, s, Delete(id));
    if s' != s {
      DeleteShows(s.log, TrimSpace(id));
      assert Latest(s'.log) == Latest(s.log) - {TrimSpace(id)} && s'.born == s.born;
      hide Latest, Next, Valid, TrimSpace, Find;
      RemovedKeeps(sound, s, s', TrimSpace(id));
    }
  }

  lemma RemovedKeeps<Rest>(sound: Rest -> bool, s: Store<Rest>, s': Store<Rest>, key: string)
    requires Inv(sound, s) && Latest(s'.log) == Latest(s.log) - {key} && s'.born == s.born
    ensures Inv(sound, s') && forall x :: x in s.born ==> Ages(s, s', x)
  {
    hide Latest, Valid, TrimSpace;
    forall x | x in Latest(s'.log) ensures SpecOk(sound, s', x) { assert SpecOk(sound, s, x); }
  }

  lemma UpdateKeeps<Rest>(sound: Rest -> bool, s: Store<Rest>, spec: Spec<Rest>, now: int)
    requires Inv(sound, s)
    ensures var s' := Next(sound, s, Update(spec, now)); Inv(sound, s') && forall x :: x in s.born ==> Ages(s, s', x)
  {
    hide Latest, Save;
    if Find(s, spec.id).Some? {
      var current := Find(s, spec.id).value;
      assert SpecOk(sound, s, TrimSpace(spec.id));
      if current.status.Draft? {
        Resaved(sound, s, TrimSpace(spec.id),
            spec.(id := TrimSpace(spec.id), status := Draft, createdAt := current.createdAt,
                                                    approvedAt := current.approvedAt, updatedAt := now));
      }
    }
  }

  lemma ApproveKeeps<Rest>(sound: Rest -> bool, s: Store<Rest>, id: string, now: int)
    requires Inv(sound, s)
    ensures var s' := Next(sound, s, Approve(id, now)); Inv(sound, s') && forall x :: x in s.born ==> Ages(s, s', x)
  {
    hide Latest, Save;
    if Find(s, id).Some? {
      var spec := Find(s, id).value;
      assert SpecOk(sound, s, TrimSpace(id));
      if !spec.status.Discarded? {
        Resaved(sound, s, TrimSpace(id), spec.(status := ApprovedSpec, updatedAt := now, approvedAt := Some(now)));
      }
    }
  }

  lemma DiscardKeeps<Rest>(sound: Rest -> bool, s: Store<Rest>, id: string, now: int)
    requires Inv(sound, s)
    ensures var s' := Next(sound, s, Discard(id, now)); Inv(sound, s') && forall x :: x in s.born ==> Ages(s, s', x)
  {
    hide Latest, Save;
    if Find(s, id).Some? {
      assert SpecOk(sound, s, TrimSpace(id));
      Resaved(sound, s, TrimSpace(id), Find(s, id).value.(status := Discarded, updatedAt := now));
    }
  }

  lemma NextKeeps<Rest>(sound: Rest -> bool, s: Store<Rest>, step: Step<Rest>)
    requires Inv(sound, s)
    ensures var s' := Next(sound, s, step); Inv(sound, s') && forall x :: x in s.born ==> Ages(s, s', x)
  {
    hide Latest, Save, Next, Inv, Ages;
    match step
    case Create(spec) => CreateKeeps(sound, s, spec);
    case Update(spec, now) => UpdateKeeps(sound, s, spec, now);
    case Approve(id, now) => ApproveKeeps(sound, s, id, now);
    case Discard(id, now) => DiscardKeeps(sound, s, id, now);
    case Delete(id) => DeleteKeeps(sound, s, id);
  }

  lemma {:induction false} RunKeeps<Rest>(sound: Rest -> bool, steps: seq<Step<Rest>>)
    ensures Inv(sound, Run(sound, steps))
  {
    if steps != [] {
      RunKeeps(sound, steps[..|steps| - 1]);
      NextKeeps(sound, Run(sound, steps[..|steps| - 1]), steps[|steps| - 1]);
    }
  }

  lemma AgesTwice<Rest>(s: Store<Rest>, t: Store<Rest>, u: Store<Rest>, id: string)
    requires id in s.born && Ages(s, t, id) && Ages(t, u, id)
    ensures Ages(s, u, id)
  {
    hide Latest;
  }

  // ---- What each operation does -----------------------------------------------------------------

  /** The operation changes nothing: its spec is missing or past the point, or the
      request is unsound. */
  predicate Refused<Rest>(sound: Rest -> bool, s: Store<Rest>, step: Step<Rest>) {
    match step
    case Create(spec) =>
      || spec.id in s.born || TrimSpace(spec.id) != spec.id || Blank(spec.id) || !spec.status.Draft?
      || spec.approvedAt.Some? || Blank(spec.content.prompt) || Blank(spec.content.name) || !sound(spec.content.rest)
    case Update(spec, _) =>
      || TrimSpace(spec.id) !in Latest(s.log) || !Latest(s.log)[TrimSpace(spec.id)].status.Draft?
      || spec.status.ApprovedSpec? || spec.status.Discarded?
      || (spec.status.OtherStatus? && !Blank(spec.status.name) && TrimSpace(spec.status.name) != "draft")
      || Blank(spec.content.prompt) || Blank(spec.content.name) || !sound(spec.content.rest)
    case Approve(id, _) => TrimSpace(id) !in Latest(s.log) || Latest(s.log)[TrimSpace(id)].status.Discarded?
    case Discard(id, _) => TrimSpace(id) !in Latest(s.log)
    case Delete(id) => TrimSpace(id) !in Latest(s.log)
  }

  function Named<Rest>(step: Step<Rest>): string {
    match step
    case Create(spec) => spec.id
    case Update(spec, _) => TrimSpace(spec.id)
    case Approve(id, _) => TrimSpace(id)
    case Discard(id, _) => TrimSpace(id)
    case Delete(id) => TrimSpace(id)
  }

  /** What the named spec looks like after the operation. */
  ghost predicate Shown<Rest>(step: Step<Rest>, before: map<string, Spec<Rest>>, after: Spec<Rest>) {
    var id := Named(step);
    match step
    case Create(spec) => after == spec
    case Update(spec, now) =>
      && id in before && after.id == id && after.content == spec.content && after.status.Draft?
      && after.createdAt == before[id].createdAt && after.approvedAt == before[id].approvedAt && after.updatedAt == now
    case Approve(_, now) =>
      && id in before && after.id == id && after.content == before[id].content && after.status.ApprovedSpec?
      && after.createdAt == before[id].createdAt && after.approvedAt == Some(now) && after.updatedAt == now
    case Discard(_, now) =>
      && id in before && after.id == id && after.content == before[id].content && after.status.Discarded?
      && after.createdAt == before[id].createdAt && after.approvedAt == before[id].approvedAt && after.updatedAt == now
    case Delete(_) => false
  }

  /** The operation is refused, or adds one line that shows the named spec as asked
      for, or its absence, and leaves the others alone. */
  ghost predicate Does<Rest>(sound: Rest -> bool, s: Store<Rest>, s': Store<Rest>, step: Step<Rest>) {
    var id := Named(step);
    var before, after := Latest(s.log), Latest(s'.log);
    && (s' == s <==> Refused(sound, s, step))
    && (s' != s ==>
          && |s'.log| == |s.log| + 1 && s.log <= s'.log
          && s'.born == s.born + (if step.Create? then {id} else {})
          && (step.Delete? ==> after == before - {id})
          && (!step.Delete? ==> id in after && Shown(step, before, after[id]) && after == before[id := after[id]]))
  }

  lemma Resaves<Rest>(sound: Rest -> bool, s: Store<Rest>, step: Step<Rest>, spec: Spec<Rest>)
    requires spec.id == Named(step) && Valid(sound, spec) && Shown(step, Latest(s.log), spec)
    requires !step.Create? && !Refused(sound, s, step)
    ensures Does(sound, s, Save(sound, s, spec), step)
  {
    SaveShows(sound, s, spec);
    hide Latest, Refused, Shown;
  }

  lemma BlankUnused<Rest>(sound: Rest -> bool, s: Store<Rest>)
    requires Inv(sound, s)
    ensures "" !in Latest(s.log)
  {
    forall id | id in Latest(s.log) ensures id != "" { assert SpecOk(sound, s, id); }
  }

  lemma CreateShows<Rest>(sound: Rest -> bool, s: Store<Rest>, spec: Spec<Rest>)
    ensures Does(sound, s, Next(sound, s, Create(spec)), Create(spec))
  {
    if !Refused(sound, s, Create(spec)) { SaveShows(sound, s, spec); }
    hide Latest;
  }

  lemma UpdateShows<Rest>(sound: Rest -> bool, s: Store<Rest>, spec: Spec<Rest>, now: int)
    requires Inv(sound, s)
    ensures Does(sound, s, Next(sound, s, Update(spec, now)), Update(spec, now))
  {
    BlankUnused(sound, s);
    hide Latest;
    var id, step := TrimSpace(spec.id), Update(spec, now);
    if !Refused(sound, s, step) {
      var current := Latest(s.log)[id];
      assert SpecOk(sound, s, id);
      Resaves(sound, s, step, spec.(id := id, status := Draft, createdAt := current.createdAt,
                                    approvedAt := current.approvedAt, updatedAt := now));
    }
  }

  lemma ApproveShows<Rest>(sound: Rest -> bool, s: Store<Rest>, id: string, now: int)
    requires Inv(sound, s)
    ensures Does(sound, s, Next(sound, s, Approve(id, now)), Approve(id, now))
  {
    BlankUnused(sound, s);
    hide Latest;
    var key, step := TrimSpace(id), Approve(id, now);
    if !Refused(sound, s, step) {
      assert SpecOk(sound, s, key);
      Resaves(sound, s, step, Latest(s.log)[key].(status := ApprovedSpec, updatedAt := now, approvedAt := Some(now)));
    }
  }

  lemma DiscardShows<Rest>(sound: Rest -> bool, s: Store<Rest>, id: string, now: int)
    requires Inv(sound, s)
    ensures Does(sound, s, Next(sound, s, Discard(id, now)), Discard(id, now))
  {
    BlankUnused(sound, s);
    hide Latest;
    var key, step := TrimSpace(id), Discard(id, now);
    if !Refused(sound, s, step) {
      assert SpecOk(sound, s, key);
      Resaves(sound, s, step, Latest(s.log)[key].(status := Discarded, updatedAt := now));
    }
  }

  lemma DeleteOperationShows<Rest>(sound: Rest -> bool, s: Store<Rest>, id: string)
    requires Inv(sound, s)
    ensures Does(sound, s, Next(sound, s, Delete(id)), Delete(id))
  {
    BlankUnused(sound, s);
    DeleteShows(s.log, TrimSpace(id));
    hide Latest;
  }

  /** Each operation does what it is asked for, and is refused exactly when that
      cannot be. */
  lemma OperationShows<Rest>(sound: Rest -> bool, s: Store<Rest>, step: Step<Rest>)
    requires Inv(sound, s)
    ensures Does(sound, s, Next(sound, s, step), step)
  {
    hide Does, Next, Inv;
    match step
    case Create(spec) => CreateShows(sound, s, spec);
    case Update(spec, now) => UpdateShows(sound, s, spec, now);
    case Approve(id, now) => ApproveShows(sound, s, id, now);
    case Discard(id, now) => DiscardShows(sound, s, id, now);
    case Delete(id) => DeleteOperationShows(sound, s, id);
  }

  // ---- Theorems --------------------------------------------------------------------------------

  /** Over every run a spec only moves forward, from draft to approved to discarded
      to deleted and never back; its creation time is fixed, and its content is
      fixed once it is no longer a draft. */
  lemma {:induction false} SpecsOnlyAge<Rest>(
        sound: Rest -> bool, steps: seq<Step<Rest>>, more: seq<Step<Rest>>, id: string)
    requires id in Run(sound, steps).born
    ensures Ages(Run(sound, steps), Run(sound, steps + more), id)
  {
    if more == [] {
      assert steps + more == steps;
    } else {
      var n := |more| - 1;
      assert (steps + more)[..|steps + more| - 1] == steps + more[..n];
      SpecsOnlyAge(sound, steps, more[..n], id);
      RunKeeps(sound, steps + more[..n]);
      NextKeeps(sound, Run(sound, steps + more[..n]), more[n]);
      hide Latest, Next, Inv, Ages, Run;
      AgesTwice(Run(sound, steps), Run(sound, steps + more[..n]), Run(sound, steps + more), id);
    }
  }

  /** A deleted id never comes back. */
  lemma DeletedStaysDeleted<Rest>(sound: Rest -> bool, steps: seq<Step<Rest>>, more: seq<Step<Rest>>, id: string)
    requires id in Run(sound, steps).born && id !in Latest(Run(sound, steps).log)
    ensures id !in Latest(Run(sound, steps + more).log)
  {
    SpecsOnlyAge(sound, steps, more, id);
  }

  /** An approved spec says when it was approved; a draft does not. */
  lemma ApprovedHasDate<Rest>(sound: Rest -> bool, steps: seq<Step<Rest>>, id: string)
    requires id in Latest(Run(sound, steps).log)
    ensures var spec := Latest(Run(sound, steps).log)[id];
      (spec.status.ApprovedSpec? ==> spec.approvedAt.Some?) && (spec.status.Draft? ==> spec.approvedAt.None?)
  {
    RunKeeps(sound, steps);
    assert SpecOk(sound, Run(sound, steps), id);
  }

  // ---- The store object --------------------------------------------------------------------------

  class SpecLog<Rest> {
    var log: Log<Rest>
    ghost var born: set<string>

    ghost function At(): Store<Rest>
      reads this
    {
      Store(log, born)
    }

    constructor ()
      ensures At() == Store([], {})
    {
      log, born := [], {};
    }

    method Lookup(id: string) returns (spec: Option<Spec<Rest>>)
      requires forall k :: k in Latest(log) ==> Latest(log)[k].id == k
      ensures spec == Find(At(), id)
    {
      var key := TrimSpace(id);
      if key == "" { return None; }
      var specs, ids := ListLatest(log);
      forall k | 0 <= k < |ids| ensures ids[k] in Latest(log) && specs[k] == Latest(log)[ids[k]] {
        LatestMeans(log, ids[k]);
        assert ids[k] in ids;
        var i :| LiveAt(log, ids[k], i);
      }
      for i := 0 to |specs|
        invariant forall k :: 0 <= k < i ==> ids[k] != key
      {
        if specs[i].id == key { return Some(specs[i]); }
      }
      LatestMeans(log, key);
      assert key in ids <==> key in Latest(log);
      spec := None;
    }

    method ApproveSpec(sound: Rest -> bool, id: string, now: int) returns (ok: bool)
      requires forall k :: k in Latest(log) ==> Latest(log)[k].id == k
      modifies this
      ensures At() == Next(sound, old(At()), Approve(id, now))
      ensures ok <==> At() != old(At())
    {
      var found := Lookup(id);
      if found.None? || found.value.status.Discarded? { return false; }
      ok := Write(sound, found.value.(status := ApprovedSpec, updatedAt := now, approvedAt := Some(now)));
    }

    method DiscardSpec(sound: Rest -> bool, id: string, now: int) returns (ok: bool)
      requires forall k :: k in Latest(log) ==> Latest(log)[k].id == k
      modifies this
      ensures At() == Next(sound, old(At()), Discard(id, now))
      ensures ok <==> At() != old(At())
    {
      var found := Lookup(id);
      if found.None? { return false; }
      ok := Write(sound, found.value.(status := Discarded, updatedAt := now));
    }

    method DeleteSpec(sound: Rest -> bool, id: string) returns (ok: bool)
      requires forall k :: k in Latest(log) ==> Latest(log)[k].id == k
      modifies this
      ensures At() == Next(sound, old(At()), Delete(id))
      ensures ok <==> At() != old(At())
    {
      var found := Lookup(id);
      if found.None? { return false; }
      log := log + [Removed(TrimSpace(id))];
      ok := true;
    }

    method UpdateSpec(sound: Rest -> bool, spec: Spec<Rest>, now: int) returns (ok: bool)
      requires forall k :: k in Latest(log) ==> Latest(log)[k].id == k
      modifies this
      ensures At() == Next(sound, old(At()), Update(spec, now))
      ensures ok <==> At() != old(At())
    {
      var found := Lookup(spec.id);
      if found.None? || !found.value.status.Draft? { return false; }
      if !StaysDraft(spec.status) { return false; }
      ok := Write(sound, spec.(id := TrimSpace(spec.id), status := Draft, createdAt := found.value.createdAt,
                               approvedAt := found.value.approvedAt, updatedAt := now));
    }

    method Write(sound: Rest -> bool, spec: Spec<Rest>) returns (ok: bool)
      modifies this`log
      ensures ok == Valid(sound, spec) && At() == Save(sound, old(At()), spec)
    {
      ok := Valid(sound, spec);
      if ok { log := log + [Saved(spec.id, spec)]; }
    }
  }
}
