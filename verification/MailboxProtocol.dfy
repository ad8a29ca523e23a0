/**
Store-and-forward delivery between daemons (pkg/agent/router.go, link.go).

A run is a sequence of atomic steps of any number of nodes: local activity,
the control points of outbound deliveries, live calls and relay traffic. The
relay keeps everything ever published and a step may ingest any of it, any
number of times, in any order, or never. Live calls may run at the peer and
still be reported as failed. Control points are kept once reached, so any
number of deliveries may be in progress and their record snapshots may be
arbitrarily old.
*/
module MailboxProtocol {
  import opened Ordering
  import opened Mailbox

  type Address = string

  datatype QueueClaim = QueueClaim(claimId: string, itemId: string, agentId: string, claimant: string) {
    function Actor(): Principal {
      Principal(agentId, NetworkAgent, Sky10Network, "", claimant)
    }
    /** An assignment made for this claim is recognised when the claim comes again. */
    predicate Routable(addresses: iset<string>) {
      Actor().RouteAddress(addresses) == claimant
    }
  }

  /** The claim an actor makes for a published offer, unless the offer is incomplete
      or the actor has no address. */
  function NewQueueClaim(
        addresses: iset<string>, itemId: string, sender: string, queue: string, actor: Principal, claimId: string)
        : (c: Option<QueueClaim>)
    ensures c.Some? <==>
      !Blank(itemId) && !Blank(sender) && !Blank(queue) && !Blank(actor.id) && actor.RouteAddress(addresses) != ""
    ensures c.Some? ==>
      && c.value.Routable(addresses) && c.value.itemId == itemId && c.value.agentId == actor.id
      && c.value.claimant == actor.RouteAddress(addresses) && c.value.claimId == claimId
  {
    var address := actor.RouteAddress(addresses);
    if Blank(itemId) || Blank(sender) || Blank(queue) || Blank(actor.id) || address == "" then None
    else Some(QueueClaim(claimId, itemId, actor.id, address))
  }

  datatype Message =
    | ItemMessage(sender: Address, recipient: Address, item: Item, handoffId: string)
    | ReceiptMessage(sender: Address, recipient: Address, itemId: string, handoffId: string, deliveredBy: Address)
    | ClaimMessage(sender: Address, recipient: Address, claim: QueueClaim)

  /** Where a delivery of `record`, as read when it was listed, has got to. */
  datatype Point = Listed | Sending | LiveFailed | HandingOff | HandoffDone

  datatype Delivery = Delivery(node: Address, record: Record, point: Point)

  datatype LiveCall = LiveCall(sender: Address, item: Item)

  datatype Ack = Ack(sender: Address, itemId: string, peer: Address)

  /** History: `node` created assignment `id` while ingesting `claim`. */
  datatype Assignment = Assignment(node: Address, claim: QueueClaim, id: string)

  datatype Holding = Holding(node: Address, id: string)

  /** `devices` are the nodes' device ids. History: what was created under each id,
      which assignments were made, and each time a record was created or compacted. */
  datatype World = World(
    devices: map<Address, string>, boxes: map<Address, Box>, deliveries: set<Delivery>, calls: set<LiveCall>,
    acks: set<Ack>,
    relay: set<Message>, origins: map<string, Item>, assignments: set<Assignment>,
    born: multiset<Holding>, dropped: multiset<Holding>)

  function Start(nodes: map<Address, string>): World {
    World(nodes, map a | a in nodes :: map[], {}, {}, {}, {}, map[], {}, multiset{}, multiset{})
  }

  ghost predicate Holds(w: World, a: Address, id: string) {
    a in w.boxes && id in w.boxes[a]
  }

  /** The node has had a record of the item, whether or not it still does. */
  predicate HasHeld(w: World, a: Address, id: string) {
    Holding(a, id) in w.born
  }

  /** A record of the item has been compacted away on the node. */
  predicate Dropped(w: World, a: Address, id: string) {
    Holding(a, id) in w.dropped
  }

  // ---- Mailbox updates --------------------------------------------------------

  function RouterActor(a: Address): Principal {
    Principal(a, "local_agent", Sky10Network, a, "")
  }

  function NewRecord(item: Item, logged: bool): Record {
    Record(item, if logged then [Event(Created, item.from, map[])] else [], None)
  }

  function AddEvent(w: World, a: Address, id: string, e: Event): World
    requires a in w.boxes && id in w.boxes[a]
  {
    w.(boxes := w.boxes[a := w.boxes[a][id := w.boxes[a][id].Append(e)]])
  }

  function SetLease(w: World, a: Address, id: string, lease: Option<Lease>): World
    requires a in w.boxes && id in w.boxes[a]
  {
    w.(boxes := w.boxes[a := w.boxes[a][id := w.boxes[a][id].(claim := lease)]])
  }

  function AddRecord(w: World, a: Address, item: Item, logged: bool): World
    requires a in w.boxes
  {
    w.(boxes := w.boxes[a := w.boxes[a][item.id := NewRecord(item, logged)]],
       born := w.born + multiset{Holding(a, item.id)})
  }

  /** Retention runs out: the record and its timeline are deleted. */
  function DropRecord(w: World, a: Address, id: string): World
    requires a in w.boxes && id in w.boxes[a]
  {
    w.(boxes := w.boxes[a := w.boxes[a] - {id}], dropped := w.dropped + multiset{Holding(a, id)})
  }

  /** Get-or-create: an id that is already held is accepted without a change. */
  function Receive(w: World, a: Address, item: Item, logged: bool): World
    requires a in w.boxes
  {
    if item.id in w.boxes[a] || !item.ValidForCreate() then w else AddRecord(w, a, item, logged)
  }

  // ---- Events -------------------------------------------------------------------

  function AttemptedEvent(a: Address, transport: string, target: string): Event {
    Event(DeliveryAttempted, RouterActor(a), map["transport" := transport, "route_address" := target])
  }

  function LiveDeliveredEvent(a: Address, target: string): Event {
    Event(Delivered, RouterActor(a), map["transport" := "skylink", "route_address" := target])
  }

  function HandedOffEvent(a: Address, target: string, id: string): Event {
    Event(HandedOff, RouterActor(a), map["transport" := "nostr_dropbox", "route_address" := target, "handoff_id" := id])
  }

  function FailedEvent(a: Address): Event {
    Event(DeliveryFailed, RouterActor(a), map[])
  }

  function ReceiptEvent(m: Message, id: string, eventId: string): Event
    requires m.ReceiptMessage?
  {
    Event(Delivered, Principal(m.deliveredBy, NetworkAgent, Sky10Network, "", m.deliveredBy),
          map["transport" := "nostr_dropbox", "handoff_id" := Coalesce(m.handoffId, id), "event_id" := eventId])
  }

  function AssignedEvent(claim: QueueClaim, queue: string, assignmentId: string): Event {
    Event(Assigned, claim.Actor(),
          map["queue" := queue, "claim_id" := claim.claimId, "claimant" := claim.claimant,
              "assignment_item_id" := assignmentId])
  }

  /** What the delivery events say: who acted, over what, to where, and under which
      name; a receipt without a handoff id names the item. */
  lemma EventsSay(a: Address, t: string, target: string, id: string, m: Message, eventId: string)
    requires m.ReceiptMessage?
    ensures var e := AttemptedEvent(a, t, target);
      e.typ == DeliveryAttempted && e.actor.id == a && e.Meta("transport") == t && e.Meta("route_address") == target
    ensures var e := LiveDeliveredEvent(a, target);
      e.typ == Delivered && e.actor.id == a && e.Meta("transport") == "skylink" && e.Meta("route_address") == target
    ensures var e := HandedOffEvent(a, target, id);
      && e.typ == HandedOff && e.actor.id == a && e.Meta("transport") == "nostr_dropbox"
      && e.Meta("route_address") == target && e.Meta("handoff_id") == id
    ensures FailedEvent(a).typ == DeliveryFailed && FailedEvent(a).actor.id == a
    ensures var e := ReceiptEvent(m, id, eventId);
      && e.typ == Delivered && e.actor.id == m.deliveredBy && e.Meta("transport") == "nostr_dropbox"
      && e.Meta("handoff_id") == Coalesce(m.handoffId, id) && e.Meta("event_id") == eventId
  {}

  /** A claim's assignment names the item, the queue, the claim and the claimant. */
  lemma AssignedSays(claim: QueueClaim, queue: string, id: string)
    ensures var e := AssignedEvent(claim, queue, id);
      && e.typ == Assigned && e.actor.id == claim.agentId && e.Meta("assignment_item_id") == id
      && e.Meta("queue") == queue && e.Meta("claim_id") == claim.claimId && e.Meta("claimant") == claim.claimant
  {}

  /** The assignment is the claimed item, readdressed to the claim's agent as an answer. */
  lemma AssignmentSays(item: Item, claim: QueueClaim, id: string)
    ensures var made := AssignmentItem(item, claim, id);
      && made.id == id && made.replyTo == item.id && made.targetSkill == "" && made.to.Some?
      && made.to.value.id == claim.agentId && made.to.value.routeHint == claim.claimant
      && made.to.value.Scope() == Sky10Network && made.to.value.kind == NetworkAgent && made.to.value.deviceHint == ""
      && made.kind == item.kind && made.from == item.from && made.inline == item.inline
      && made.reference == item.reference && made.body == item.body
      && made.idempotencyKey == item.id + ":assignment:" + claim.agentId
  {}

  function AssignmentItem(item: Item, claim: QueueClaim, id: string): Item {
    item.(id := id, to := Some(claim.Actor()), targetSkill := "", replyTo := item.id,
          idempotencyKey := item.id + ":assignment:" + claim.agentId)
  }

  /** The private-network outbox of the node takes the item up: it is listed under
      the device's own id and carries a message inline. Its scope is not looked at. */
  predicate PrivatelySent(devices: map<Address, string>, a: Address, item: Item) {
    a in devices && item.inline.MessageInline? && (devices[a] == "" || item.from.id == devices[a])
  }

  /** Events other parts of the daemon append: workflow, lifecycle, queue offers,
      local hand-over to a registered agent, and private-network sends, which leave
      no mailbox record at the device they reach. */
  predicate LocalEvent(w: World, a: Address, item: Item, e: Event) {
    && !e.typ.Created? && !e.typ.Assigned?
    && (e.typ.Delivered? ==>
          && "handoff_id" !in e.meta && "route_address" !in e.meta
          && (e.Meta("transport") == "local_registry"
              || (e.Meta("transport") == "skylink" && PrivatelySent(w.devices, a, item))))
  }

  // ---- Steps --------------------------------------------------------------------

  datatype Step =
    | CreateItem(node: Address, item: Item, logged: bool)
    | Local(node: Address, id: string, event: Event)
    | ChangeLease(node: Address, id: string, lease: Option<Lease>)
    | Compact(node: Address, id: string)
    | List(node: Address, id: string)
    | Attempt(d: Delivery)
    | PeerHandles(call: LiveCall, peer: Address, logged: bool)
    | LiveSucceeds(d: Delivery, peer: Address)
    | LiveFails(d: Delivery)
    | Publish(d: Delivery)
    | FinishHandoff(d: Delivery)
    | GiveUp(d: Delivery)
    | IngestItem(m: Message, logged: bool)
    | SendReceipt(m: Message)
    | IngestReceipt(m: Message, eventId: string)
    | OfferClaim(sender: Address, recipient: Address, claim: QueueClaim)
    | IngestClaim(m: Message, grant: Lease, leased: bool, assignmentId: string, logged: bool, marked: bool)

  /** An id nobody has used, as a fresh UUID is. */
  predicate Fresh(w: World, id: string) {
    !Blank(id) && id !in w.origins
  }

  /** `id` answers `itemId` and is addressed to the claim's agent at its claimant. */
  predicate Answers(addresses: iset<string>, box: Box, id: string, claim: QueueClaim) {
    && id in box && box[id].item.replyTo == claim.itemId && box[id].item.to.Some?
    && box[id].item.to.value.id == claim.agentId
    && box[id].item.to.value.RouteAddress(addresses) == claim.claimant
  }

  ghost predicate Answered(addresses: iset<string>, box: Box, claim: QueueClaim) {
    exists id :: Answers(addresses, box, id, claim)
  }

  function Reach(w: World, d: Delivery, point: Point): World {
    w.(deliveries := w.deliveries + {d.(point := point)})
  }

  /** A record the lifecycle sweep may delete once its retention is over. */
  predicate Retirable(r: Record) {
    r.State().InDelivered? || r.State().Terminal()
  }

  /** A queue item that may still be claimed. */
  predicate Claimable(r: Record) {
    r.item.Scope() == Sky10Network && r.item.QueueName() != "" && !r.State().Terminal()
  }

  /** The lease is granted and recorded. */
  function Leased(w: World, a: Address, c: QueueClaim, grant: Lease): World
    requires a in w.boxes && c.itemId in w.boxes[a]
  {
    AddEvent(SetLease(w, a, c.itemId, Some(grant)), a, c.itemId,
             Event(Claimed, c.Actor(), map["queue" := w.boxes[a][c.itemId].item.QueueName()]))
  }

  /** Ingesting a claim: lease, find or create the assignment, start delivering it, mark. */
  ghost function TakeClaim(addresses: iset<string>, w: World, s: Step): World
    requires s.IngestClaim? && s.m.ClaimMessage?
  {
    var a, c := s.m.recipient, s.m.claim;
    if !Holds(w, a, c.itemId) || !Claimable(w.boxes[a][c.itemId]) then w else
    var r := w.boxes[a][c.itemId];
    var held := r.claim.Some? && r.claim.value.holder == c.agentId;
    if !held && (!s.leased || Blank(c.agentId)) then w else
    var w1 := if held then w
              else Leased(w, a, c, s.grant);
    if !CanAssign(addresses, w1, a, r.item, c, s.assignmentId) then w1 else
    var w2 := EnsureAssignment(addresses, w1, a, r.item, c, s.assignmentId, s.logged);
    if s.marked then MarkAssigned(w2, a, c, s.assignmentId) else w2
  }

  /** `id` is the assignment the code would find, or a fresh one it can create. */
  ghost predicate CanAssign(addresses: iset<string>, w: World, a: Address, item: Item, c: QueueClaim, id: string)
    requires a in w.boxes
  {
    if Answered(addresses, w.boxes[a], c) then Answers(addresses, w.boxes[a], id, c)
    else Fresh(w, id) && AssignmentItem(item, c, id).ValidForCreate()
  }

  ghost function EnsureAssignment(
        addresses: iset<string>, w: World, a: Address, item: Item, c: QueueClaim, id: string, logged: bool): World
    requires a in w.boxes && CanAssign(addresses, w, a, item, c, id)
  {
    if Answered(addresses, w.boxes[a], c) then Started(w, a, id)
    else
      Started(Originate(w, a, AssignmentItem(item, c, id), logged)
          .(assignments := w.assignments + {Assignment(a, c, id)}), a, id)
  }

  /** `DeliverMailboxRecord` begins on the record as it is now. */
  function Started(w: World, a: Address, id: string): World
    requires a in w.boxes && id in w.boxes[a]
  {
    Reach(w, Delivery(a, w.boxes[a][id], Listed), Listed)
  }

  function Originate(w: World, a: Address, item: Item, logged: bool): World
    requires a in w.boxes
  {
    AddRecord(w, a, item, logged).(origins := w.origins[item.id := item.Essence()])
  }

  ghost function MarkAssigned(w: World, a: Address, c: QueueClaim, id: string): World
    requires Holds(w, a, c.itemId)
  {
    var r := w.boxes[a][c.itemId];
    if r.Has(Assigned, "assignment_item_id", id) then w
    else SetLease(AddEvent(w, a, c.itemId, AssignedEvent(c, r.item.QueueName(), id)), a, c.itemId, None)
  }

  ghost function Next(addresses: iset<string>, w: World, s: Step): World {
    match s
    case CreateItem(a, item, logged) =>
      if a in w.boxes && Fresh(w, item.id) && item.ValidForCreate() then Originate(w, a, item, logged) else w
    case Local(a, id, e) =>
      if Holds(w, a, id) && LocalEvent(w, a, w.boxes[a][id].item, e) then AddEvent(w, a, id, e) else w
    case ChangeLease(a, id, lease) =>
      if Holds(w, a, id) then SetLease(w, a, id, lease) else w
    case Compact(a, id) =>
      if Holds(w, a, id) && Retirable(w.boxes[a][id]) then DropRecord(w, a, id) else w
    case List(a, id) =>
      if Holds(w, a, id) then Started(w, a, id) else w
    case Attempt(d) => StartAttempt(addresses, w, d)
    case PeerHandles(call, peer, logged) =>
      if call !in w.calls || peer !in w.boxes || peer == call.sender then w else
      var w' := Receive(w, peer, call.item, logged);
      if call.item.id in w'.boxes[peer] then w'.(acks := w'.acks + {Ack(call.sender, call.item.id, peer)}) else w'
    case LiveSucceeds(d, peer) =>
      if d in w.deliveries && d.point.Sending? && Ack(d.node, d.record.item.id, peer) in w.acks
          && Holds(w, d.node, d.record.item.id)
      then AddEvent(w, d.node, d.record.item.id, LiveDeliveredEvent(d.node, d.record.item.Target(addresses))) else w
    case LiveFails(d) => FallBack(addresses, w, d)
    case Publish(d) =>
      if !(d in w.deliveries && d.point.HandingOff?) then w
      else Reach(w.(relay := w.relay + {Handoff(addresses, d.node, d.record.item.Wire())}), d, HandoffDone)
    case FinishHandoff(d) =>
      if !(d in w.deliveries && d.point.HandoffDone? && Holds(w, d.node, d.record.item.id)) then w
      else
        var state := w.boxes[d.node][d.record.item.id].State();
        if state.InDelivered? || state.Terminal() then w
        else AddEvent(w, d.node, d.record.item.id,
            HandedOffEvent(d.node, d.record.item.Target(addresses), d.record.item.id))
    case GiveUp(d) =>
      if d in w.deliveries && !d.point.Listed? && Holds(w, d.node, d.record.item.id)
      then AddEvent(w, d.node, d.record.item.id, FailedEvent(d.node)) else w
    case IngestItem(m, logged) =>
      if m in w.relay && m.ItemMessage? && m.recipient in w.boxes then Receive(w, m.recipient, m.item, logged) else w
    case SendReceipt(m) =>
      if m in w.relay && m.ItemMessage? && Holds(w, m.recipient, m.item.id) && TrimSpace(m.sender) in addresses
      then w.(relay := w.relay + {Receipt(m)}) else w
    case IngestReceipt(m, eventId) =>
      if !(m in w.relay && m.ReceiptMessage? && Holds(w, m.recipient, m.itemId)) then w
      else if w.boxes[m.recipient][m.itemId].Has(Delivered, "handoff_id", Coalesce(m.handoffId, m.itemId)) then w
      else AddEvent(w, m.recipient, m.itemId, ReceiptEvent(m, m.itemId, eventId))
    case OfferClaim(sender, recipient, claim) =>
      w.(relay := w.relay + {ClaimMessage(sender, recipient, claim)})
    case IngestClaim(m, _, _, _, _, _) =>
      if m in w.relay && m.ClaimMessage? then TakeClaim(addresses, w, s) else w
  }

  /** The guards are evaluated on the listed record, not on the current one. */
  function StartAttempt(addresses: iset<string>, w: World, d: Delivery): World {
    var state, target, id := d.record.State(), d.record.item.Target(addresses), d.record.item.id;
    if !(d in w.deliveries && d.point.Listed? && d.node in w.boxes && id in w.boxes[d.node]) then w
    else if d.record.item.to.None? || state.InDelivered? || state.InCompleted? then w
    else if target == "" then AddEvent(w, d.node, id, FailedEvent(d.node))
    else Reach(AddEvent(w, d.node, id, AttemptedEvent(d.node, "skylink", target))
        .(calls := w.calls + {LiveCall(d.node, d.record.item.Wire())}),
               d, Sending)
  }

  ghost predicate EverHandedOff(r: Record) {
    exists e :: e in r.events && e.typ == HandedOff
  }

  /** A failed live call goes to the relay unless the listed record was already there. */
  ghost function FallBack(addresses: iset<string>, w: World, d: Delivery): World {
    if !(d in w.deliveries && d.point.Sending? && Holds(w, d.node, d.record.item.id)) || EverHandedOff(d.record) then w
    else Reach(AddEvent(w, d.node, d.record.item.id,
        AttemptedEvent(d.node, "nostr_dropbox", d.record.item.Target(addresses))), d, HandingOff)
  }

  /** The dropbox stamps its own address on items whose sender has no route. */
  function Handoff(addresses: iset<string>, a: Address, item: Item): Message {
    var stored := if item.from.RouteAddress(addresses) == "" then item.(from := item.from.(routeHint := a)) else item;
    ItemMessage(a, item.Target(addresses), stored, stored.id)
  }

  predicate Proper(a: Address, addresses: iset<string>) {
    a != "" && a in addresses && TrimSpace(a) == a
  }

  /** The relay gets the item under its own id for its target; a sender that could not
      be answered becomes reachable at the node's address, nothing else changes. */
  lemma HandoffReachable(addresses: iset<string>, a: Address, item: Item)
    ensures var m := Handoff(addresses, a, item);
      && m.ItemMessage? && m.sender == a && m.recipient == item.Target(addresses) && m.handoffId == m.item.id == item.id
      && m.item.Essence() == item.Essence()
      && (item.from.RouteAddress(addresses) != "" ==> m.item == item)
      && (item.from.RouteAddress(addresses) == "" && item.from.Scope() == Sky10Network && Proper(a, addresses) ==>
            m.item.from.RouteAddress(addresses) == a)
  {}

  function Receipt(m: Message): Message
    requires m.ItemMessage?
  {
    ReceiptMessage(m.recipient, m.sender, m.item.id, Coalesce(m.handoffId, m.item.id), m.recipient)
  }

  ghost function Run(addresses: iset<string>, w: World, steps: seq<Step>): World {
    if steps == [] then w else Next(addresses, Run(addresses, w, steps[..|steps| - 1]), steps[|steps| - 1])
  }
}
