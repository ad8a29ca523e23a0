/** What holds in every state a run of the mailbox protocol can reach. */
module MailboxSafety {
  import opened Ordering
  import opened Mailbox
  import opened MailboxProtocol

  // ---- Invariants -------------------------------------------------------------

  /** The item is a copy of the one created under its id, up to transport hints. */
  predicate Known(w: World, item: Item) {
    !Blank(item.id) && item.id in w.origins && item.Essence() == w.origins[item.id]
  }

  ghost predicate HeldElsewhere(w: World, a: Address, id: string) {
    exists q :: q != a && HasHeld(w, q, id)
  }

  /** What a delivered or assigned event on `a`'s record of `item` testifies to. */
  ghost predicate Testifies(addresses: iset<string>, w: World, a: Address, item: Item, e: Event) {
    && (e.typ.Delivered? ==>
          var t := e.Meta("transport");
          && (t == "skylink" || t == "local_registry" || t == "nostr_dropbox")
          && (t == "skylink" ==>
              (if "route_address" in e.meta then HeldElsewhere(w, a, item.id) else PrivatelySent(w.devices, a, item)))
          && (t == "nostr_dropbox" ==> e.actor.id == item.Target(addresses) && HasHeld(w, e.actor.id, item.id))
          && ("handoff_id" in e.meta <==> t == "nostr_dropbox")
          && (t == "nostr_dropbox" ==> e.Meta("handoff_id") == item.id))
    && (e.typ.Assigned? ==> HasHeld(w, a, e.Meta("assignment_item_id")))
  }

  function IsCreated(): Event -> bool { (e: Event) => e.typ.Created? }

  function IsReceipt(handoff: string): Event -> bool {
    (e: Event) => e.typ.Delivered? && "handoff_id" in e.meta && e.meta["handoff_id"] == handoff
  }

  function Names(assignment: string): Event -> bool {
    (e: Event) => e.typ.Assigned? && e.Meta("assignment_item_id") == assignment
  }

  /** No step of a timeline is recorded twice. */
  ghost predicate NoRepeats(events: seq<Event>) {
    && Once(events, IsCreated())
    && (forall h: string :: Once(events, IsReceipt(h)))
    && (forall x: string :: Once(events, Names(x)))
  }

  ghost predicate RecordOk(addresses: iset<string>, w: World, a: Address, id: string)
    requires Holds(w, a, id)
  {
    var r := w.boxes[a][id];
    && r.item.id == id && Known(w, r.item) && NoRepeats(r.events)
    && forall e :: e in r.events ==> Testifies(addresses, w, a, r.item, e)
  }

  ghost predicate DeliveryOk(w: World, d: Delivery) {
    Known(w, d.record.item)
  }

  ghost predicate AckOk(w: World, k: Ack) {
    k.peer != k.sender && HasHeld(w, k.peer, k.itemId)
  }

  ghost predicate MessageOk(addresses: iset<string>, w: World, m: Message) {
    && (m.ItemMessage? ==> Known(w, m.item) && m.handoffId == m.item.id && m.recipient == m.item.Target(addresses))
    && (m.ReceiptMessage? ==>
          && !Blank(m.itemId) && m.handoffId == m.itemId && m.itemId in w.origins && HasHeld(w, m.deliveredBy, m.itemId)
          && m.deliveredBy == w.origins[m.itemId].Target(addresses))
  }

  ghost predicate AssignmentOk(w: World, h: Assignment) {
    && HasHeld(w, h.node, h.id) && h.id in w.origins
    && w.origins[h.id].replyTo == h.claim.itemId && w.origins[h.id].to == Some(h.claim.Actor())
  }

  /** The claims ask for the same agent at the same claimant to take the same item. */
  predicate SameOffer(c: QueueClaim, d: QueueClaim) {
    c.itemId == d.itemId && c.agentId == d.agentId && c.claimant == d.claimant
  }

  /** A second assignment for a routable offer is made only after the first was compacted. */
  ghost predicate OneAssignment(addresses: iset<string>, w: World) {
    forall h, k :: h in w.assignments && k in w.assignments && h.claim.Routable(addresses) ==>
      (h.node == k.node && SameOffer(h.claim, k.claim) ==>
          h.id == k.id || Dropped(w, h.node, h.id) || Dropped(w, k.node, k.id))
  }

  /** Records are created once more often than they are compacted while they exist. */
  ghost predicate Balanced(w: World, h: Holding) {
    w.born[h] == w.dropped[h] + (if Holds(w, h.node, h.id) then 1 else 0)
  }

  ghost predicate Inv(addresses: iset<string>, w: World) {
    && (forall a, id :: Holds(w, a, id) ==> RecordOk(addresses, w, a, id))
    && (forall h :: Balanced(w, h))
    && (forall d :: d in w.deliveries ==> DeliveryOk(w, d))
    && (forall c :: c in w.calls ==> Known(w, c.item))
    && (forall k :: k in w.acks ==> AckOk(w, k))
    && (forall m :: m in w.relay ==> MessageOk(addresses, w, m))
    && (forall h :: h in w.assignments ==> AssignmentOk(w, h))
    && OneAssignment(addresses, w)
  }

  // ---- Growth ---------------------------------------------------------------------

  ghost predicate Extends(r: Record, r': Record) {
    r'.item == r.item && r.events <= r'.events
  }

  /** History only gets longer. */
  ghost predicate Remembers(w: World, w': World) {
    && w'.devices == w.devices && w'.boxes.Keys == w.boxes.Keys
    && w.born <= w'.born && w.dropped <= w'.dropped
    && (forall id :: id in w.origins ==> id in w'.origins && w'.origins[id] == w.origins[id])
  }

  /** No record is compacted, and timelines only get longer. */
  ghost predicate Grows(w: World, w': World) {
    && Remembers(w, w') && w'.dropped == w.dropped
    && (forall a, id :: Holds(w, a, id) ==> Holds(w', a, id) && Extends(w.boxes[a][id], w'.boxes[a][id]))
  }

  /** Records stay and their timelines get longer, unless they have been compacted since. */
  ghost predicate Evolves(w: World, w': World) {
    && Remembers(w, w')
    && (forall a, id :: Holds(w, a, id) && w'.dropped[Holding(a, id)] == w.dropped[Holding(a, id)] ==>
          Holds(w', a, id) && Extends(w.boxes[a][id], w'.boxes[a][id]))
  }

  lemma GrowsSelf(w: World)
    ensures Grows(w, w)
  {}

  lemma GrowsTransitive(w: World, v: World, u: World)
    requires Grows(w, v) && Grows(v, u)
    ensures Grows(w, u)
  {
    forall a, id | Holds(w, a, id) ensures Holds(u, a, id) && Extends(w.boxes[a][id], u.boxes[a][id]) {
      assert Holds(v, a, id);
    }
  }

  lemma GrowthEvolves(w: World, w': World)
    requires Grows(w, w')
    ensures Evolves(w, w')
  {}

  lemma EvolvesTransitive(w: World, v: World, u: World)
    requires Evolves(w, v) && Evolves(v, u)
    ensures Evolves(w, u)
  {
    forall a, id | Holds(w, a, id) && u.dropped[Holding(a, id)] == w.dropped[Holding(a, id)]
      ensures Holds(u, a, id) && Extends(w.boxes[a][id], u.boxes[a][id])
    {
      var h := Holding(a, id);
      assert w.dropped[h] <= v.dropped[h] <= u.dropped[h];
      assert Holds(v, a, id);
    }
  }

  lemma StillHeld(w: World, w': World, a: Address, id: string)
    requires Grows(w, w') && Holds(w, a, id)
    ensures Holds(w', a, id)
  {}

  lemma TestimonyStays(addresses: iset<string>, w: World, w': World, a: Address, item: Item, e: Event)
    requires Remembers(w, w') && Testifies(addresses, w, a, item, e)
    ensures Testifies(addresses, w', a, item, e)
  {
    if e.typ.Delivered? && e.Meta("transport") == "skylink" && "route_address" in e.meta {
      var q :| q != a && HasHeld(w, q, item.id);
      assert HasHeld(w', q, item.id);
    }
  }

  /** A record that did not change is still fine when history has grown. */
  lemma RecordStays(addresses: iset<string>, w: World, w': World, a: Address, id: string)
    requires Remembers(w, w') && Holds(w, a, id) && Holds(w', a, id) && RecordOk(addresses, w, a, id)
    requires w'.boxes[a][id].events == w.boxes[a][id].events && w'.boxes[a][id].item == w.boxes[a][id].item
    ensures RecordOk(addresses, w', a, id)
  {
    var r := w.boxes[a][id];
    forall e | e in r.events ensures Testifies(addresses, w', a, r.item, e) {
      TestimonyStays(addresses, w, w', a, r.item, e);
    }
  }

  lemma OthersStay(addresses: iset<string>, w: World, w': World)
    requires Inv(addresses, w) && Remembers(w, w')
    ensures forall d :: d in w.deliveries ==> DeliveryOk(w', d)
    ensures forall c :: c in w.calls ==> Known(w', c.item)
    ensures forall k :: k in w.acks ==> AckOk(w', k)
    ensures forall m :: m in w.relay ==> MessageOk(addresses, w', m)
    ensures forall h :: h in w.assignments ==> AssignmentOk(w', h)
  {
    hide RecordOk, OneAssignment, Balanced;
  }

  /** A step keeps the invariant if the one record it touches and what it adds are fine. */
  lemma GrowthKeeps(addresses: iset<string>, w: World, w': World, a: Address, id: string)
    requires Inv(addresses, w) && Remembers(w, w')
    requires forall b, x :: (b, x) != (a, id) ==> (Holds(w', b, x) <==> Holds(w, b, x))
    requires forall b, x :: Holds(w', b, x) && (b, x) != (a, id) ==> w'.boxes[b][x] == w.boxes[b][x]
    requires forall h :: h != Holding(a, id) ==> w'.born[h] == w.born[h] && w'.dropped[h] == w.dropped[h]
    requires Balanced(w', Holding(a, id)) && (Holds(w', a, id) ==> RecordOk(addresses, w', a, id))
    requires forall d :: d in w'.deliveries ==> d in w.deliveries || DeliveryOk(w', d)
    requires forall c :: c in w'.calls ==> c in w.calls || Known(w', c.item)
    requires forall k :: k in w'.acks ==> k in w.acks || AckOk(w', k)
    requires forall m :: m in w'.relay ==> m in w.relay || MessageOk(addresses, w', m)
    requires forall h :: h in w'.assignments ==> h in w.assignments || AssignmentOk(w', h)
    requires OneAssignment(addresses, w')
    ensures Inv(addresses, w')
  {
    OthersStay(addresses, w, w');
    hide RecordOk, OneAssignment, Known, MessageOk, AckOk, AssignmentOk;
    forall b, x | Holds(w', b, x) ensures RecordOk(addresses, w', b, x) {
      if (b, x) != (a, id) {
        assert Holds(w, b, x);
        RecordStays(addresses, w, w', b, x);
      }
    }
    forall h ensures Balanced(w', h) {
      if h != Holding(a, id) { assert Balanced(w, h); }
    }
  }

  lemma SameAssignments(addresses: iset<string>, w: World, w': World)
    requires OneAssignment(addresses, w) && w.dropped <= w'.dropped && w'.assignments == w.assignments
    ensures OneAssignment(addresses, w')
  {
    assert forall a, id :: Dropped(w, a, id) ==> Dropped(w', a, id);
  }

  // ---- Primitive updates ------------------------------------------------------------

  lemma EventAdded(addresses: iset<string>, w: World, a: Address, id: string, e: Event)
    requires Inv(addresses, w) && Holds(w, a, id)
    requires Testifies(addresses, w, a, w.boxes[a][id].item, e) && NoRepeats(w.boxes[a][id].events + [e])
    ensures var w' := AddEvent(w, a, id, e); Inv(addresses, w') && Grows(w, w')
  {
    var w' := AddEvent(w, a, id, e);
    AddEventFrame(w, a, id, e);
    assert RecordOk(addresses, w, a, id);
    hide AddEvent, Inv, RecordOk, Grows, Testifies, NoRepeats;
    LongerRecord(addresses, w, w', a, id, e);
    TouchedOnly(addresses, w, w', a, id);
  }

  lemma AddEventFrame(w: World, a: Address, id: string, e: Event)
    requires Holds(w, a, id)
    ensures var w' := AddEvent(w, a, id, e);
      && Grows(w, w') && Remembers(w, w') && Holds(w', a, id) && w'.boxes[a][id] == w.boxes[a][id].Append(e)
      && w' == w.(boxes := w'.boxes) && w'.boxes.Keys == w.boxes.Keys
      && (forall b, x :: (b, x) != (a, id) ==> (Holds(w', b, x) <==> Holds(w, b, x)))
      && (forall b, x :: Holds(w', b, x) && (b, x) != (a, id) ==> w'.boxes[b][x] == w.boxes[b][x])
  {}

  lemma LongerRecord(addresses: iset<string>, w: World, w': World, a: Address, id: string, e: Event)
    requires Remembers(w, w') && Holds(w, a, id) && RecordOk(addresses, w, a, id) && Holds(w', a, id)
    requires w'.boxes[a][id] == w.boxes[a][id].Append(e)
    requires Testifies(addresses, w, a, w.boxes[a][id].item, e) && NoRepeats(w.boxes[a][id].events + [e])
    ensures RecordOk(addresses, w', a, id)
  {
    hide Testifies, NoRepeats;
    var r, r' := w.boxes[a][id], w'.boxes[a][id];
    forall x | x in r'.events ensures Testifies(addresses, w', a, r.item, x) {
      assert x == e || x in r.events;
      TestimonyStays(addresses, w, w', a, r.item, x);
    }
  }

  /** Only one record changes; nothing is created, compacted or sent. */
  lemma TouchedOnly(addresses: iset<string>, w: World, w': World, a: Address, id: string)
    requires Inv(addresses, w) && Holds(w, a, id) && Holds(w', a, id) && RecordOk(addresses, w', a, id)
    requires w' == w.(boxes := w'.boxes) && w'.boxes.Keys == w.boxes.Keys
    requires forall b, x :: (b, x) != (a, id) ==> (Holds(w', b, x) <==> Holds(w, b, x))
    requires forall b, x :: Holds(w', b, x) && (b, x) != (a, id) ==> w'.boxes[b][x] == w.boxes[b][x]
    ensures Inv(addresses, w')
  {
    assert Balanced(w, Holding(a, id)) && Remembers(w, w');
    SameAssignments(addresses, w, w');
    hide RecordOk, OneAssignment, Known, MessageOk, AckOk, AssignmentOk, DeliveryOk;
    GrowthKeeps(addresses, w, w', a, id);
  }

  /** An event that is not counted can be appended to any timeline. */
  lemma PlainEventFits(events: seq<Event>, e: Event)
    requires NoRepeats(events) && !e.typ.Created? && !e.typ.Assigned? && (e.typ.Delivered? ==> "handoff_id" !in e.meta)
    ensures NoRepeats(events + [e])
  {
    AppendOnce(events, e, IsCreated());
    forall h: string ensures Once(events + [e], IsReceipt(h)) { AppendOnce(events, e, IsReceipt(h)); }
    forall x: string ensures Once(events + [e], Names(x)) { AppendOnce(events, e, Names(x)); }
  }

  lemma PlainEvent(addresses: iset<string>, w: World, a: Address, id: string, e: Event)
    requires Inv(addresses, w) && Holds(w, a, id)
    requires !e.typ.Created? && !e.typ.Assigned?
    requires e.typ.Delivered? ==> "handoff_id" !in e.meta && Testifies(addresses, w, a, w.boxes[a][id].item, e)
    ensures var w' := AddEvent(w, a, id, e); Inv(addresses, w') && Grows(w, w')
  {
    assert RecordOk(addresses, w, a, id);
    PlainEventFits(w.boxes[a][id].events, e);
    EventAdded(addresses, w, a, id, e);
  }

  lemma LeaseChanged(addresses: iset<string>, w: World, a: Address, id: string, lease: Option<Lease>)
    requires Inv(addresses, w) && Holds(w, a, id)
    ensures var w' := SetLease(w, a, id, lease); Inv(addresses, w') && Grows(w, w')
  {
    var w' := SetLease(w, a, id, lease);
    SetLeaseFrame(w, a, id, lease);
    assert RecordOk(addresses, w, a, id);
    hide RecordOk, Inv, SetLease, Grows;
    RecordStays(addresses, w, w', a, id);
    TouchedOnly(addresses, w, w', a, id);
  }

  lemma SetLeaseFrame(w: World, a: Address, id: string, lease: Option<Lease>)
    requires Holds(w, a, id)
    ensures var w' := SetLease(w, a, id, lease);
      && Grows(w, w') && Remembers(w, w') && Holds(w', a, id) && w'.boxes[a][id] == w.boxes[a][id].(claim := lease)
      && w' == w.(boxes := w'.boxes) && w'.boxes.Keys == w.boxes.Keys
      && (forall b, x :: (b, x) != (a, id) ==> (Holds(w', b, x) <==> Holds(w, b, x)))
      && (forall b, x :: Holds(w', b, x) && (b, x) != (a, id) ==> w'.boxes[b][x] == w.boxes[b][x])
  {}

  lemma NewTimeline(item: Item, logged: bool)
    ensures NoRepeats(NewRecord(item, logged).events)
  {}

  lemma RecordAdded(addresses: iset<string>, w: World, a: Address, item: Item, logged: bool)
    requires Inv(addresses, w) && a in w.boxes && item.id !in w.boxes[a] && Known(w, item)
    ensures var w' := AddRecord(w, a, item, logged); Inv(addresses, w') && Grows(w, w') && HasHeld(w', a, item.id)
  {
    var w', h := AddRecord(w, a, item, logged), Holding(a, item.id);
    AddRecordFrame(w, a, item, logged);
    NewTimeline(item, logged);
    assert RecordOk(addresses, w', a, item.id);
    assert Balanced(w, h);
    SameAssignments(addresses, w, w');
    hide RecordOk, OneAssignment, MessageOk, AckOk, AssignmentOk, DeliveryOk, AddRecord, Known, Grows, Remembers;
    GrowthKeeps(addresses, w, w', a, item.id);
  }

  lemma AddRecordFrame(w: World, a: Address, item: Item, logged: bool)
    requires a in w.boxes && item.id !in w.boxes[a]
    ensures var w', h := AddRecord(w, a, item, logged), Holding(a, item.id);
      && Grows(w, w') && Remembers(w, w') && Holds(w', a, item.id) && w'.boxes[a][item.id] == NewRecord(item, logged)
      && w' == w.(boxes := w'.boxes, born := w'.born)
      && w'.born[h] == w.born[h] + 1 && (forall x :: x != h ==> w'.born[x] == w.born[x])
      && (forall b, x :: (b, x) != (a, item.id) ==> (Holds(w', b, x) <==> Holds(w, b, x)))
      && (forall b, x :: Holds(w', b, x) && (b, x) != (a, item.id) ==> w'.boxes[b][x] == w.boxes[b][x])
  {}

  /** Compaction takes one record away and remembers it. */
  lemma RecordDropped(addresses: iset<string>, w: World, a: Address, id: string)
    requires Inv(addresses, w) && Holds(w, a, id)
    ensures var w' := DropRecord(w, a, id); Inv(addresses, w') && Evolves(w, w') && !Holds(w', a, id)
  {
    var w', h := DropRecord(w, a, id), Holding(a, id);
    DropRecordFrame(w, a, id);
    assert Balanced(w, h);
    SameAssignments(addresses, w, w');
    hide RecordOk, OneAssignment, Known, MessageOk, AckOk, AssignmentOk, DeliveryOk, DropRecord, Remembers, Evolves;
    GrowthKeeps(addresses, w, w', a, id);
  }

  lemma DropRecordFrame(w: World, a: Address, id: string)
    requires Holds(w, a, id)
    ensures var w', h := DropRecord(w, a, id), Holding(a, id);
      && Evolves(w, w') && Remembers(w, w') && !Holds(w', a, id) && w' == w.(boxes := w'.boxes, dropped := w'.dropped)
      && w.dropped <= w'.dropped && w'.dropped[h] == w.dropped[h] + 1
          && (forall x :: x != h ==> w'.dropped[x] == w.dropped[x])
      && (forall b, x :: (b, x) != (a, id) ==> (Holds(w', b, x) <==> Holds(w, b, x)))
      && (forall b, x :: Holds(w', b, x) && (b, x) != (a, id) ==> w'.boxes[b][x] == w.boxes[b][x])
  {}

  /** Boxes and counts stay as they are. */
  lemma SameBoxes(addresses: iset<string>, w: World, w': World)
    requires Inv(addresses, w) && w'.boxes == w.boxes && w'.born == w.born && w'.dropped == w.dropped
      && Remembers(w, w')
    requires forall d :: d in w'.deliveries ==> d in w.deliveries || DeliveryOk(w', d)
    requires forall c :: c in w'.calls ==> c in w.calls || Known(w', c.item)
    requires forall k :: k in w'.acks ==> k in w.acks || AckOk(w', k)
    requires forall m :: m in w'.relay ==> m in w.relay || MessageOk(addresses, w', m)
    requires forall h :: h in w'.assignments ==> h in w.assignments || AssignmentOk(w', h)
    requires OneAssignment(addresses, w')
    ensures Inv(addresses, w') && Grows(w, w')
  {
    assert Grows(w, w') && Balanced(w, Holding("", ""));
    hide OneAssignment, Known, MessageOk, AckOk, AssignmentOk, DeliveryOk;
    if Holds(w', "", "") { RecordStays(addresses, w, w', "", ""); }
    hide RecordOk;
    GrowthKeeps(addresses, w, w', "", "");
  }

  lemma OriginNamed(addresses: iset<string>, w: World, item: Item)
    requires Inv(addresses, w) && Fresh(w, item.id)
    ensures var w' := w.(origins := w.origins[item.id := item.Essence()]);
        Inv(addresses, w') && Grows(w, w') && Known(w', item)
  {
    var w' := w.(origins := w.origins[item.id := item.Essence()]);
    SameAssignments(addresses, w, w');
    SameBoxes(addresses, w, w');
  }

  lemma Originated(addresses: iset<string>, w: World, a: Address, item: Item, logged: bool)
    requires Inv(addresses, w) && a in w.boxes && Fresh(w, item.id)
    ensures var w' := Originate(w, a, item, logged); Inv(addresses, w') && Grows(w, w') && HasHeld(w', a, item.id)
    ensures !Holds(w, a, item.id)
  {
    forall x | Holds(w, a, x) ensures x in w.origins { assert RecordOk(addresses, w, a, x); }
    OriginNamed(addresses, w, item);
    var named := w.(origins := w.origins[item.id := item.Essence()]);
    RecordAdded(addresses, named, a, item, logged);
    assert Originate(w, a, item, logged) == AddRecord(named, a, item, logged);
    GrowsTransitive(w, named, Originate(w, a, item, logged));
  }

  /** Only the sets of messages and control points change. */
  lemma SetsExtended(addresses: iset<string>, w: World, w': World)
    requires Inv(addresses, w)
    requires w' == w.(deliveries := w'.deliveries, calls := w'.calls, acks := w'.acks, relay := w'.relay)
    requires forall d :: d in w'.deliveries ==> d in w.deliveries || DeliveryOk(w, d)
    requires forall c :: c in w'.calls ==> c in w.calls || Known(w, c.item)
    requires forall k :: k in w'.acks ==> k in w.acks || AckOk(w, k)
    requires forall m :: m in w'.relay ==> m in w.relay || MessageOk(addresses, w, m)
    ensures Inv(addresses, w') && Grows(w, w')
  {
    assert Remembers(w, w');
    SameAssignments(addresses, w, w');
    SameBoxes(addresses, w, w');
  }

  // ---- Steps ------------------------------------------------------------------------

  lemma Received(addresses: iset<string>, w: World, a: Address, item: Item, logged: bool)
    requires Inv(addresses, w) && a in w.boxes && Known(w, item)
    ensures var w' := Receive(w, a, item, logged); Inv(addresses, w') && Grows(w, w')
  {
    if item.id !in w.boxes[a] && item.ValidForCreate() { RecordAdded(addresses, w, a, item, logged); }
  }

  /** Putting an item on the wire changes nothing but hints. */
  lemma WireIsKnown(addresses: iset<string>, w: World, a: Address, item: Item)
    requires Known(w, item)
    ensures Known(w, item.Wire()) && item.Wire().Target(addresses) == item.Target(addresses)
    ensures MessageOk(addresses, w, Handoff(addresses, a, item.Wire()))
  {
    EssenceKeepsRoute(item, item.Wire(), addresses);
    var m := Handoff(addresses, a, item.Wire());
    assert m.item.Essence() == item.Essence();
    EssenceKeepsRoute(item, m.item, addresses);
  }

  lemma AttemptStep(addresses: iset<string>, w: World, d: Delivery)
    requires Inv(addresses, w)
    ensures var w' := StartAttempt(addresses, w, d); Inv(addresses, w') && Grows(w, w')
  {
    var w' := StartAttempt(addresses, w, d);
    var target, id := d.record.item.Target(addresses), d.record.item.id;
    if w' != w {
      assert DeliveryOk(w, d);
      if target == "" {
        hide Inv;
        PlainEvent(addresses, w, d.node, id, FailedEvent(d.node));
      } else {
        assert w' == CallSent(AddEvent(w, d.node, id, AttemptedEvent(d.node, "skylink", target)), d);
        hide StartAttempt, Inv, AddEvent;
        PlainEvent(addresses, w, d.node, id, AttemptedEvent(d.node, "skylink", target));
        CallSentKeeps(addresses, AddEvent(w, d.node, id, AttemptedEvent(d.node, "skylink", target)), d);
        GrowsTransitive(w, AddEvent(w, d.node, id, AttemptedEvent(d.node, "skylink", target)), w');
      }
    }
  }

  /** The live call is on its way. */
  function CallSent(w: World, d: Delivery): World {
    Reach(w.(calls := w.calls + {LiveCall(d.node, d.record.item.Wire())}), d, Sending)
  }

  lemma CallSentKeeps(addresses: iset<string>, w: World, d: Delivery)
    requires Inv(addresses, w) && Known(w, d.record.item)
    ensures Inv(addresses, CallSent(w, d)) && Grows(w, CallSent(w, d))
  {
    WireIsKnown(addresses, w, d.node, d.record.item);
    assert DeliveryOk(w, d.(point := Sending));
    SetsExtended(addresses, w, CallSent(w, d));
  }

  lemma PeerStep(addresses: iset<string>, w: World, call: LiveCall, peer: Address, logged: bool)
    requires Inv(addresses, w)
    ensures var w' := Next(addresses, w, PeerHandles(call, peer, logged)); Inv(addresses, w') && Grows(w, w')
  {
    if call in w.calls && peer in w.boxes && peer != call.sender {
      Received(addresses, w, peer, call.item, logged);
      var v := Receive(w, peer, call.item, logged);
      if call.item.id in v.boxes[peer] {
        hide Inv, Grows, Receive;
        var k := Ack(call.sender, call.item.id, peer);
        AckAdded(addresses, v, k);
        GrowsTransitive(w, v, v.(acks := v.acks + {k}));
      }
    }
  }

  lemma AckAdded(addresses: iset<string>, w: World, k: Ack)
    requires Inv(addresses, w) && Holds(w, k.peer, k.itemId) && k.peer != k.sender
    ensures var w' := w.(acks := w.acks + {k}); Inv(addresses, w') && Grows(w, w')
  {
    HeldOrDropped(addresses, w, k.peer, k.itemId);
    assert AckOk(w, k);
    SetsExtended(addresses, w, w.(acks := w.acks + {k}));
  }

  lemma LiveStep(addresses: iset<string>, w: World, d: Delivery, peer: Address)
    requires Inv(addresses, w) && Holds(w, d.node, d.record.item.id)
    requires Ack(d.node, d.record.item.id, peer) in w.acks
    ensures var w' := AddEvent(w, d.node, d.record.item.id,
        LiveDeliveredEvent(d.node, d.record.item.Target(addresses)));
      Inv(addresses, w') && Grows(w, w')
  {
    var a, id := d.node, d.record.item.id;
    assert AckOk(w, Ack(a, id, peer));
    assert RecordOk(addresses, w, a, id);
    assert HeldElsewhere(w, a, id);
    PlainEvent(addresses, w, a, id, LiveDeliveredEvent(a, d.record.item.Target(addresses)));
  }

  lemma LiveFailStep(addresses: iset<string>, w: World, d: Delivery)
    requires Inv(addresses, w)
    ensures var w' := Next(addresses, w, LiveFails(d)); Inv(addresses, w') && Grows(w, w')
  {
    var w' := Next(addresses, w, LiveFails(d));
    if w' != w {
      var e := AttemptedEvent(d.node, "nostr_dropbox", d.record.item.Target(addresses));
      PlainEvent(addresses, w, d.node, d.record.item.id, e);
      var v := AddEvent(w, d.node, d.record.item.id, e);
      assert w' == Reach(v, d, HandingOff) && DeliveryOk(w, d) && v.origins == w.origins;
      hide Inv, Grows, Next, FallBack, AddEvent, AttemptedEvent;
      Reached(addresses, v, d, HandingOff);
      GrowsTransitive(w, v, w');
    }
  }

  lemma Reached(addresses: iset<string>, w: World, d: Delivery, point: Point)
    requires Inv(addresses, w) && DeliveryOk(w, d)
    ensures var w' := Reach(w, d, point); Inv(addresses, w') && Grows(w, w')
  {
    assert DeliveryOk(w, d.(point := point));
    SetsExtended(addresses, w, Reach(w, d, point));
  }

  lemma PublishStep(addresses: iset<string>, w: World, d: Delivery)
    requires Inv(addresses, w)
    ensures var w' := Next(addresses, w, Publish(d)); Inv(addresses, w') && Grows(w, w')
  {
    var w' := Next(addresses, w, Publish(d));
    if d in w.deliveries && d.point.HandingOff? {
      assert DeliveryOk(w, d) && DeliveryOk(w, d.(point := HandoffDone));
      WireIsKnown(addresses, w, d.node, d.record.item);
    }
    SetsExtended(addresses, w, w');
  }

  lemma ReceiptIsOk(addresses: iset<string>, w: World, m: Message)
    requires m.ItemMessage? && MessageOk(addresses, w, m) && HasHeld(w, m.recipient, m.item.id)
    ensures MessageOk(addresses, w, Receipt(m))
  {
    EssenceKeepsRoute(m.item, m.item.Essence(), addresses);
    assert m.item.Essence().Essence() == m.item.Essence();
  }

  /** A receipt is recorded only when no receipt for its handoff has been. */
  lemma ReceiptFits(events: seq<Event>, r: Record, m: Message, eventId: string)
    requires m.ReceiptMessage? && NoRepeats(events) && events == r.events
    requires !r.Has(Delivered, "handoff_id", Coalesce(m.handoffId, m.itemId))
    ensures NoRepeats(events + [ReceiptEvent(m, m.itemId, eventId)])
  {
    var e := ReceiptEvent(m, m.itemId, eventId);
    AppendOnce(events, e, IsCreated());
    forall h: string ensures Once(events + [e], IsReceipt(h)) {
      forall x | x in events && IsReceipt(h)(e) ensures !IsReceipt(h)(x) {
        assert x.typ.Delivered? && "handoff_id" in x.meta ==> x.Meta("handoff_id") == x.meta["handoff_id"];
      }
      AppendOnce(events, e, IsReceipt(h));
    }
    forall x: string ensures Once(events + [e], Names(x)) { AppendOnce(events, e, Names(x)); }
  }

  lemma ReceiptTestifies(addresses: iset<string>, w: World, a: Address, item: Item, m: Message, eventId: string)
    requires m.ReceiptMessage? && MessageOk(addresses, w, m) && Known(w, item) && item.id == m.itemId
    ensures Testifies(addresses, w, a, item, ReceiptEvent(m, m.itemId, eventId))
  {
    assert item.Essence().Essence() == item.Essence();
    EssenceKeepsRoute(item, w.origins[item.id], addresses);
  }

  lemma ReceiptStep(addresses: iset<string>, w: World, m: Message, eventId: string)
    requires Inv(addresses, w)
    ensures var w' := Next(addresses, w, IngestReceipt(m, eventId)); Inv(addresses, w') && Grows(w, w')
  {
    var w' := Next(addresses, w, IngestReceipt(m, eventId));
    if w' != w {
      var a, id := m.recipient, m.itemId;
      assert MessageOk(addresses, w, m) && RecordOk(addresses, w, a, id);
      var r := w.boxes[a][id];
      assert !r.Has(Delivered, "handoff_id", Coalesce(m.handoffId, m.itemId));
      assert w' == AddEvent(w, a, id, ReceiptEvent(m, id, eventId));
      hide Inv, Grows, Next;
      ReceiptTestifies(addresses, w, a, r.item, m, eventId);
      hide Known, MessageOk, Testifies;
      ReceiptFits(r.events, r, m, eventId);
      EventAdded(addresses, w, a, id, ReceiptEvent(m, id, eventId));
    }
  }

  // ---- Queue claims -----------------------------------------------------------------

  /** Held records have been created, and created records are held or compacted. */
  lemma HeldOrDropped(addresses: iset<string>, w: World, a: Address, id: string)
    requires Inv(addresses, w)
    ensures Holds(w, a, id) ==> HasHeld(w, a, id)
    ensures HasHeld(w, a, id) ==> Holds(w, a, id) || Dropped(w, a, id)
  {
    assert Balanced(w, Holding(a, id));
  }

  /** An earlier assignment for a routable claim is found when the claim returns,
      while its record exists. */
  lemma EarlierAnswers(addresses: iset<string>, w: World, h: Assignment, c: QueueClaim)
    requires AssignmentOk(w, h) && SameOffer(h.claim, c) && h.claim.Routable(addresses)
    requires Holds(w, h.node, h.id) && RecordOk(addresses, w, h.node, h.id)
    ensures Answers(addresses, w.boxes[h.node], h.id, c)
  {
    var item := w.boxes[h.node][h.id].item;
    assert item.Essence().to == Some(h.claim.Actor()) && item.to.Some?;
    assert item.to.value.RouteAddress(addresses) == h.claim.Actor().RouteAddress(addresses);
  }

  lemma StartedKeeps(addresses: iset<string>, w: World, a: Address, id: string)
    requires Inv(addresses, w) && Holds(w, a, id)
    ensures var w' := Started(w, a, id); Inv(addresses, w') && Grows(w, w')
  {
    assert RecordOk(addresses, w, a, id);
    SetsExtended(addresses, w, Started(w, a, id));
  }

  /** A new assignment is logged for an offer whose earlier ones are gone. */
  lemma AssignmentLogged(addresses: iset<string>, w: World, h: Assignment)
    requires Inv(addresses, w) && AssignmentOk(w, h)
    requires forall k :: k in w.assignments && k.node == h.node && SameOffer(k.claim, h.claim) ==>
      !k.claim.Routable(addresses) || Dropped(w, k.node, k.id)
    ensures var w' := w.(assignments := w.assignments + {h}); Inv(addresses, w') && Grows(w, w')
  {
    var w' := w.(assignments := w.assignments + {h});
    assert Remembers(w, w') && OneAssignment(addresses, w') && AssignmentOk(w', h);
    SameBoxes(addresses, w, w');
  }

  lemma EnsureStep(addresses: iset<string>, w: World, a: Address, item: Item, c: QueueClaim, id: string, logged: bool)
    requires Inv(addresses, w) && a in w.boxes && CanAssign(addresses, w, a, item, c, id) && item.id == c.itemId
    ensures var w' := EnsureAssignment(addresses, w, a, item, c, id, logged);
      Inv(addresses, w') && Grows(w, w') && Holds(w', a, id)
  {
    if Answered(addresses, w.boxes[a], c) {
      StartedKeeps(addresses, w, a, id);
    } else {
      var made, h := AssignmentItem(item, c, id), Assignment(a, c, id);
      Originated(addresses, w, a, made, logged);
      var v := Originate(w, a, made, logged);
      forall k | k in v.assignments && k.node == a && SameOffer(k.claim, c)
        ensures !k.claim.Routable(addresses) || Dropped(v, a, k.id)
      {
        EarlierGone(addresses, w, k, c);
      }
      assert AssignmentOk(v, h);
      hide CanAssign, Answered, Inv, Grows, AssignmentOk;
      AssignmentLogged(addresses, v, h);
      var u := v.(assignments := v.assignments + {h});
      StartedKeeps(addresses, u, a, id);
      GrowsTransitive(w, v, u);
      GrowsTransitive(w, u, Started(u, a, id));
    }
  }

  /** If nothing answers the claim, an earlier assignment for its offer was not
      routable or has been compacted. */
  lemma EarlierGone(addresses: iset<string>, w: World, k: Assignment, c: QueueClaim)
    requires Inv(addresses, w) && k in w.assignments && SameOffer(k.claim, c)
    requires k.node in w.boxes && !Answered(addresses, w.boxes[k.node], c)
    ensures !k.claim.Routable(addresses) || Dropped(w, k.node, k.id)
  {
    assert AssignmentOk(w, k);
    HeldOrDropped(addresses, w, k.node, k.id);
    if k.claim.Routable(addresses) && Holds(w, k.node, k.id) {
      assert RecordOk(addresses, w, k.node, k.id);
      EarlierAnswers(addresses, w, k, c);
    }
  }

  lemma MarkFits(r: Record, c: QueueClaim, queue: string, id: string)
    requires NoRepeats(r.events) && !r.Has(Assigned, "assignment_item_id", id)
    ensures NoRepeats(r.events + [AssignedEvent(c, queue, id)])
  {
    var events, e := r.events, AssignedEvent(c, queue, id);
    AppendOnce(events, e, IsCreated());
    forall h: string ensures Once(events + [e], IsReceipt(h)) { AppendOnce(events, e, IsReceipt(h)); }
    forall x: string ensures Once(events + [e], Names(x)) { AppendOnce(events, e, Names(x)); }
  }

  lemma MarkStep(addresses: iset<string>, w: World, a: Address, c: QueueClaim, id: string)
    requires Inv(addresses, w) && Holds(w, a, c.itemId) && Holds(w, a, id)
    ensures var w' := MarkAssigned(w, a, c, id); Inv(addresses, w') && Grows(w, w')
  {
    var r := w.boxes[a][c.itemId];
    if !r.Has(Assigned, "assignment_item_id", id) {
      assert RecordOk(addresses, w, a, c.itemId);
      var e := AssignedEvent(c, r.item.QueueName(), id);
      HeldOrDropped(addresses, w, a, id);
      MarkFits(r, c, r.item.QueueName(), id);
      EventAdded(addresses, w, a, c.itemId, e);
      var v := AddEvent(w, a, c.itemId, e);
      LeaseChanged(addresses, v, a, c.itemId, None);
      GrowsTransitive(w, v, SetLease(v, a, c.itemId, None));
    }
  }

  lemma LeasedKeeps(addresses: iset<string>, w: World, a: Address, c: QueueClaim, grant: Lease)
    requires Inv(addresses, w) && Holds(w, a, c.itemId)
    ensures var w' := Leased(w, a, c, grant); Inv(addresses, w') && Grows(w, w')
  {
    var v := SetLease(w, a, c.itemId, Some(grant));
    LeaseChanged(addresses, w, a, c.itemId, Some(grant));
    var e := Event(Claimed, c.Actor(), map["queue" := w.boxes[a][c.itemId].item.QueueName()]);
    PlainEvent(addresses, v, a, c.itemId, e);
    GrowsTransitive(w, v, AddEvent(v, a, c.itemId, e));
  }

  lemma AssignSteps(
        addresses: iset<string>, w: World, w1: World, a: Address, item: Item, c: QueueClaim, id: string, logged: bool)
    requires Inv(addresses, w1) && Grows(w, w1) && Holds(w, a, c.itemId) && item.id == c.itemId
    requires a in w1.boxes && CanAssign(addresses, w1, a, item, c, id)
    ensures var w2 := EnsureAssignment(addresses, w1, a, item, c, id, logged);
      && Inv(addresses, w2) && Grows(w, w2) && Holds(w2, a, c.itemId)
      && var w3 := MarkAssigned(w2, a, c, id); Inv(addresses, w3) && Grows(w, w3)
  {
    hide Inv, Grows, MarkAssigned, CanAssign;
    EnsureStep(addresses, w1, a, item, c, id, logged);
    var w2 := EnsureAssignment(addresses, w1, a, item, c, id, logged);
    hide EnsureAssignment;
    GrowsTransitive(w, w1, w2);
    StillHeld(w, w2, a, c.itemId);
    MarkStep(addresses, w2, a, c, id);
    GrowsTransitive(w, w2, MarkAssigned(w2, a, c, id));
  }

  lemma ClaimStep(addresses: iset<string>, w: World, s: Step)
    requires Inv(addresses, w) && s.IngestClaim? && s.m.ClaimMessage?
    ensures var w' := TakeClaim(addresses, w, s); Inv(addresses, w') && Grows(w, w')
  {
    var a, c, id := s.m.recipient, s.m.claim, s.assignmentId;
    if Holds(w, a, c.itemId) && Claimable(w.boxes[a][c.itemId]) {
      var r := w.boxes[a][c.itemId];
      assert RecordOk(addresses, w, a, c.itemId);
      var held := r.claim.Some? && r.claim.value.holder == c.agentId;
      if held || (s.leased && !Blank(c.agentId)) {
        LeasedKeeps(addresses, w, a, c, s.grant);
        GrowsSelf(w);
        var w1 := if held then w else Leased(w, a, c, s.grant);
        hide Inv, Grows, Leased;
        if CanAssign(addresses, w1, a, r.item, c, id) {
          AssignSteps(addresses, w, w1, a, r.item, c, id, s.logged);
        }
      }
    }
  }

  // ---- Every step -------------------------------------------------------------------

  lemma LocalStep(addresses: iset<string>, w: World, a: Address, id: string, e: Event)
    requires Inv(addresses, w) && Holds(w, a, id) && LocalEvent(w, a, w.boxes[a][id].item, e)
    ensures var w' := AddEvent(w, a, id, e); Inv(addresses, w') && Grows(w, w')
  {
    PlainEvent(addresses, w, a, id, e);
  }

  lemma RelayItemStep(addresses: iset<string>, w: World, m: Message, logged: bool)
    requires Inv(addresses, w) && m in w.relay && m.ItemMessage? && m.recipient in w.boxes
    ensures var w' := Receive(w, m.recipient, m.item, logged); Inv(addresses, w') && Grows(w, w')
  {
    assert MessageOk(addresses, w, m);
    Received(addresses, w, m.recipient, m.item, logged);
  }

  lemma RelayPublishStep(addresses: iset<string>, w: World, m: Message)
    requires Inv(addresses, w)
    requires m.ReceiptMessage? ==>
        exists i :: i in w.relay && i.ItemMessage? && Holds(w, i.recipient, i.item.id) && m == Receipt(i)
    requires !m.ItemMessage?
    ensures var w' := w.(relay := w.relay + {m}); Inv(addresses, w') && Grows(w, w')
  {
    if m.ReceiptMessage? {
      var i :| i in w.relay && i.ItemMessage? && Holds(w, i.recipient, i.item.id) && m == Receipt(i);
      HeldOrDropped(addresses, w, i.recipient, i.item.id);
      ReceiptIsOk(addresses, w, i);
    }
    SetsExtended(addresses, w, w.(relay := w.relay + {m}));
  }

  /** Every step of every node keeps the invariant; all but compaction only add. */
  lemma NextKeeps(addresses: iset<string>, w: World, s: Step)
    requires Inv(addresses, w)
    ensures var w' := Next(addresses, w, s); Inv(addresses, w') && Evolves(w, w') && (!s.Compact? ==> Grows(w, w'))
  {
    hide TakeClaim, StartAttempt, FallBack, Inv, Grows, Evolves, Originate, AddEvent, SetLease, Receive, Started,
        DropRecord;
    hide Testifies, Retirable, Known;
    GrowsSelf(w);
    GrowthEvolves(w, w);
    if s.Compact? {
      if Holds(w, s.node, s.id) { RecordDropped(addresses, w, s.node, s.id); }
    } else {
      NextGrows(addresses, w, s);
      GrowthEvolves(w, Next(addresses, w, s));
    }
  }

  lemma NextGrows(addresses: iset<string>, w: World, s: Step)
    requires Inv(addresses, w) && !s.Compact?
    ensures var w' := Next(addresses, w, s); Inv(addresses, w') && Grows(w, w')
  {
    hide TakeClaim, StartAttempt, FallBack, Inv, Grows, Originate, AddEvent, SetLease, Receive, Started, Testifies;
    hide LocalEvent, Item.ValidForCreate, Item.Target, Record.Has, Record.State, Retirable;
    GrowsSelf(w);
    match s
    case CreateItem(a, item, logged) =>
      if a in w.boxes && Fresh(w, item.id) && item.ValidForCreate() { Originated(addresses, w, a, item, logged); }
    case Local(a, id, e) =>
      if Holds(w, a, id) && LocalEvent(w, a, w.boxes[a][id].item, e) { LocalStep(addresses, w, a, id, e); }
    case ChangeLease(a, id, lease) => if Holds(w, a, id) { LeaseChanged(addresses, w, a, id, lease); }
    case List(a, id) => if Holds(w, a, id) { StartedKeeps(addresses, w, a, id); }
    case PeerHandles(call, peer, logged) => PeerStep(addresses, w, call, peer, logged);
    case IngestItem(m, logged) =>
      if m in w.relay && m.ItemMessage? && m.recipient in w.boxes { RelayItemStep(addresses, w, m, logged); }
    case SendReceipt(m) =>
      if m in w.relay && m.ItemMessage? && Holds(w, m.recipient, m.item.id) {
        RelayPublishStep(addresses, w, Receipt(m));
      }
    case IngestReceipt(m, eventId) => ReceiptStep(addresses, w, m, eventId);
    case OfferClaim(sender, recipient, claim) => RelayPublishStep(addresses, w, ClaimMessage(sender, recipient, claim));
    case Attempt(_) | LiveSucceeds(_, _) | LiveFails(_) | Publish(_) | FinishHandoff(_) | GiveUp(_) =>
      DeliveryGrows(addresses, w, s);
    case IngestClaim(m, _, _, _, _, _) => if m.ClaimMessage? { ClaimStep(addresses, w, s); }
  }

  lemma DeliveryGrows(addresses: iset<string>, w: World, s: Step)
    requires Inv(addresses, w)
    requires s.Attempt? || s.LiveSucceeds? || s.LiveFails? || s.Publish? || s.FinishHandoff? || s.GiveUp?
    ensures var w' := Next(addresses, w, s); Inv(addresses, w') && Grows(w, w')
  {
    hide StartAttempt, FallBack, Inv, Grows, AddEvent, Testifies, Item.Target, Record.State;
    GrowsSelf(w);
    match s
    case Attempt(d) => AttemptStep(addresses, w, d);
    case LiveSucceeds(d, peer) =>
      if Holds(w, d.node, d.record.item.id) && Ack(d.node, d.record.item.id, peer) in w.acks {
        LiveStep(addresses, w, d, peer);
      }
    case LiveFails(d) => LiveFailStep(addresses, w, d);
    case Publish(d) => PublishStep(addresses, w, d);
    case FinishHandoff(d) =>
      if Holds(w, d.node, d.record.item.id) {
        PlainEvent(addresses, w, d.node, d.record.item.id,
            HandedOffEvent(d.node, d.record.item.Target(addresses), d.record.item.id));
      }
    case GiveUp(d) =>
      if Holds(w, d.node, d.record.item.id) { PlainEvent(addresses, w, d.node, d.record.item.id, FailedEvent(d.node)); }
  }

  lemma {:induction false} RunKeeps(addresses: iset<string>, nodes: map<Address, string>, steps: seq<Step>)
    ensures Inv(addresses, Run(addresses, Start(nodes), steps)) && Run(addresses, Start(nodes), steps).devices == nodes
  {
    if steps != [] {
      RunKeeps(addresses, nodes, steps[..|steps| - 1]);
      NextKeeps(addresses, Run(addresses, Start(nodes), steps[..|steps| - 1]), steps[|steps| - 1]);
      hide Inv, Next;
    }
  }

  // ---- Theorems ---------------------------------------------------------------------

  /** In every run a live network delivery is recorded only when another node has
      held the item, and a receipt only when the node the item is addressed to has.
      What is delivered otherwise was handed over locally or sent privately, and only
      items from the device's own id with an inline message are sent privately. */
  lemma DeliveredMeansHeld(
        addresses: iset<string>, nodes: map<Address, string>, steps: seq<Step>, a: Address, id: string, e: Event)
    requires var w := Run(addresses, Start(nodes), steps); Holds(w, a, id) && e in w.boxes[a][id].events
    requires e.typ.Delivered?
    ensures var w := Run(addresses, Start(nodes), steps); var item := w.boxes[a][id].item; var t := e.Meta("transport");
      && (t == "skylink" && "route_address" in e.meta ==> HeldElsewhere(w, a, id))
      && (t == "nostr_dropbox" ==> e.actor.id == item.Target(addresses) && HasHeld(w, item.Target(addresses), id))
      && (t == "skylink" && "route_address" !in e.meta ==> PrivatelySent(nodes, a, item))
      && (t == "skylink" || t == "nostr_dropbox" || t == "local_registry")
  {
    RunKeeps(addresses, nodes, steps);
    var w := Run(addresses, Start(nodes), steps);
    assert RecordOk(addresses, w, a, id);
    assert Testifies(addresses, w, a, w.boxes[a][id].item, e);
  }

  /** A node that has held an item holds it still unless it was compacted, and every
      copy anywhere is the item as it was created, up to transport hints. */
  lemma CopiesAgree(
        addresses: iset<string>, nodes: map<Address, string>, steps: seq<Step>, a: Address, q: Address, id: string)
    ensures var w := Run(addresses, Start(nodes), steps);
      && (HasHeld(w, q, id) ==> Holds(w, q, id) || Dropped(w, q, id))
      && (Holds(w, a, id) && Holds(w, q, id) ==> w.boxes[q][id].item.Essence() == w.boxes[a][id].item.Essence())
  {
    RunKeeps(addresses, nodes, steps);
    var w := Run(addresses, Start(nodes), steps);
    HeldOrDropped(addresses, w, q, id);
    if Holds(w, a, id) && Holds(w, q, id) { assert RecordOk(addresses, w, a, id) && RecordOk(addresses, w, q, id); }
  }

  /** However often anything is replayed, a record's timeline has each creation, each
      handoff's receipt and each assignment of the item at most once. */
  lemma RecordedOnce(addresses: iset<string>, nodes: map<Address, string>, steps: seq<Step>, a: Address, id: string)
    requires Holds(Run(addresses, Start(nodes), steps), a, id)
    ensures NoRepeats(Run(addresses, Start(nodes), steps).boxes[a][id].events)
  {
    RunKeeps(addresses, nodes, steps);
    assert RecordOk(addresses, Run(addresses, Start(nodes), steps), a, id);
  }

  /** In every run a node has created a record of an item once more often than it has
      compacted one if it holds it, and as often if not: without compaction at most
      one record is ever created per item. */
  lemma CreatedOncePerCompaction(
        addresses: iset<string>, nodes: map<Address, string>, steps: seq<Step>, a: Address, id: string)
    ensures var w, h := Run(addresses, Start(nodes), steps), Holding(a, id);
      && w.born[h] == w.dropped[h] + (if Holds(w, a, id) then 1 else 0)
      && (!Dropped(w, a, id) ==> w.born[h] <= 1 && (Holds(w, a, id) <==> HasHeld(w, a, id)))
  {
    RunKeeps(addresses, nodes, steps);
    assert Balanced(Run(addresses, Start(nodes), steps), Holding(a, id));
  }

  /** However often a routable claim is replayed, a node makes a second assignment for
      its offer only after compacting the first. */
  lemma AssignedOnce(
        addresses: iset<string>, nodes: map<Address, string>, steps: seq<Step>, h: Assignment, k: Assignment)
    requires var w := Run(addresses, Start(nodes), steps); h in w.assignments && k in w.assignments
    requires h.node == k.node && SameOffer(h.claim, k.claim) && h.claim.Routable(addresses)
    ensures var w := Run(addresses, Start(nodes), steps);
      h.id == k.id || Dropped(w, h.node, h.id) || Dropped(w, k.node, k.id)
  {
    RunKeeps(addresses, nodes, steps);
  }

  /** A record is never rewritten: its item stays and its timeline gets longer, until
      the record is compacted, which happens only once it is delivered or terminal. */
  lemma {:induction false} RecordsPersist(
        addresses: iset<string>, nodes: map<Address, string>, steps: seq<Step>, more: seq<Step>)
    ensures Evolves(Run(addresses, Start(nodes), steps), Run(addresses, Start(nodes), steps + more))
  {
    if more == [] {
      assert steps + more == steps;
      GrowsSelf(Run(addresses, Start(nodes), steps));
      GrowthEvolves(Run(addresses, Start(nodes), steps), Run(addresses, Start(nodes), steps));
    } else {
      var n := |more| - 1;
      var most := steps + more[..n];
      assert (steps + more)[..|steps + more| - 1] == most;
      RecordsPersist(addresses, nodes, steps, more[..n]);
      RunKeeps(addresses, nodes, most);
      NextKeeps(addresses, Run(addresses, Start(nodes), most), more[n]);
      hide Evolves, Inv, Next;
      EvolvesTransitive(Run(addresses, Start(nodes), steps), Run(addresses, Start(nodes), most),
          Run(addresses, Start(nodes), steps + more));
    }
  }

  /** A step removes a record exactly when it compacts a delivered or terminal one. */
  lemma RemovedIffCompacted(addresses: iset<string>, w: World, s: Step, a: Address, id: string)
    requires Inv(addresses, w) && Holds(w, a, id)
    ensures !Holds(Next(addresses, w, s), a, id) <==>
      s == Compact(a, id) && (w.boxes[a][id].State().InDelivered? || w.boxes[a][id].State().Terminal())
  {
    if s.Compact? {
      hide Inv, Retirable;
    } else {
      NextGrows(addresses, w, s);
      hide Next, Inv;
      StillHeld(w, Next(addresses, w, s), a, id);
    }
  }
}
