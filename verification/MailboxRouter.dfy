/**
The router's code against the step system: one call changes the node's mailbox
exactly as one step, or one run of steps, of the protocol does.

`w` is the state of the whole network at the moment of the call; the code sees
only its own mailbox. Outcomes of backends, live calls and the relay are
parameters.
*/
module MailboxRouter {
  import opened Ordering
  import opened Mailbox
  import opened MailboxProtocol

  /** How the live call and the relay behaved; `NoRelay` if none is configured. */
  datatype Outcome = Acked(peer: Address) | NoRelay | RelayFails | RelayStores

  // ---- What the steps do to the node that takes them ----------------------------------

  function Appended(box: Box, id: string, e: Event): Box
    requires id in box
  {
    box[id := box[id].Append(e)]
  }

  function Extended(box: Box, id: string, events: seq<Event>): Box {
    if id in box then box[id := box[id].(events := box[id].events + events)] else box
  }

  lemma ExtendedByNothing(box: Box, id: string)
    ensures Extended(box, id, []) == box
  {
    if id in box { assert box[id].events + [] == box[id].events; }
  }

  lemma ExtendedTwice(box: Box, id: string, xs: seq<Event>, ys: seq<Event>)
    ensures Extended(Extended(box, id, xs), id, ys) == Extended(box, id, xs + ys)
    ensures id in box ==> id in Extended(box, id, xs)
  {
    if id in box { assert box[id].events + xs + ys == box[id].events + (xs + ys); }
  }

  lemma AttemptEffect(addresses: iset<string>, w: World, d: Delivery)
    requires d in w.deliveries && d.point.Listed? && Holds(w, d.node, d.record.item.id)
    ensures var w' := Next(addresses, w, Attempt(d)); var box, id := w.boxes[d.node], d.record.item.id;
      var target := d.record.item.Target(addresses);
      && w'.boxes == w.boxes[d.node := w'.boxes[d.node]] && w'.born == w.born
      && if d.record.item.to.None? || d.record.State().InDelivered? || d.record.State().InCompleted? then
           w'.boxes[d.node] == box
         else if target == "" then w'.boxes[d.node] == Appended(box, id, FailedEvent(d.node))
         else
           && w'.boxes[d.node] == Appended(box, id, AttemptedEvent(d.node, "skylink", target))
           && d.(point := Sending) in w'.deliveries && LiveCall(d.node, d.record.item.Wire()) in w'.calls
  {
    assert w.boxes[d.node := w.boxes[d.node]] == w.boxes;
  }

  lemma PeerEffect(addresses: iset<string>, w: World, d: Delivery, peer: Address)
    requires d in w.deliveries && d.point.Sending? && Holds(w, d.node, d.record.item.id)
    requires var item := d.record.item.Wire();
      LiveCall(d.node, item) in w.calls && peer in w.boxes && peer != d.node
          && (item.id in w.boxes[peer] || item.ValidForCreate())
    ensures var w' := Next(addresses, w, PeerHandles(LiveCall(d.node, d.record.item.Wire()), peer, true));
      && d.node in w'.boxes && w'.boxes[d.node] == w.boxes[d.node]
      && d in w'.deliveries && Ack(d.node, d.record.item.id, peer) in w'.acks
  {}

  lemma LiveEffect(addresses: iset<string>, w: World, d: Delivery, peer: Address)
    requires d in w.deliveries && d.point.Sending? && Holds(w, d.node, d.record.item.id)
    requires Ack(d.node, d.record.item.id, peer) in w.acks
    ensures var w' := Next(addresses, w, LiveSucceeds(d, peer));
      d.node in w'.boxes && w'.boxes[d.node] ==
          Appended(w.boxes[d.node], d.record.item.id, LiveDeliveredEvent(d.node, d.record.item.Target(addresses)))
  {}

  lemma GiveUpEffect(addresses: iset<string>, w: World, d: Delivery)
    requires d in w.deliveries && !d.point.Listed? && Holds(w, d.node, d.record.item.id)
    ensures var w' := Next(addresses, w, GiveUp(d));
      d.node in w'.boxes && w'.boxes[d.node] == Appended(w.boxes[d.node], d.record.item.id, FailedEvent(d.node))
  {}

  lemma LiveFailEffect(addresses: iset<string>, w: World, d: Delivery)
    requires d in w.deliveries && d.point.Sending? && Holds(w, d.node, d.record.item.id)
    ensures var w' := Next(addresses, w, LiveFails(d)); var box := w.boxes[d.node];
      && w'.boxes.Keys == w.boxes.Keys && w'.born == w.born
      && if EverHandedOff(d.record) then w'.boxes[d.node] == box
         else
           && w'.boxes[d.node] ==
               Appended(box, d.record.item.id, AttemptedEvent(d.node, "nostr_dropbox", d.record.item.Target(addresses)))
           && d.(point := HandingOff) in w'.deliveries
  {
    assert Next(addresses, w, LiveFails(d)) == FallBack(addresses, w, d);
    hide Next;
  }

  lemma PublishEffect(addresses: iset<string>, w: World, d: Delivery)
    requires d in w.deliveries && d.point.HandingOff? && Holds(w, d.node, d.record.item.id)
    ensures var w' := Next(addresses, w, Publish(d));
      && w'.boxes == w.boxes && w'.born == w.born && d.(point := HandoffDone) in w'.deliveries
      && Handoff(addresses, d.node, d.record.item.Wire()) in w'.relay
  {}

  lemma FinishEffect(addresses: iset<string>, w: World, d: Delivery)
    requires d in w.deliveries && d.point.HandoffDone? && Holds(w, d.node, d.record.item.id)
    ensures var w' := Next(addresses, w, FinishHandoff(d)); var box, id := w.boxes[d.node], d.record.item.id;
      && d.node in w'.boxes
      && w'.boxes[d.node] == if box[id].State().InDelivered? || box[id].State().Terminal() then box
         else Appended(box, id, HandedOffEvent(d.node, d.record.item.Target(addresses), id))
  {}

  lemma ItemEffect(addresses: iset<string>, w: World, m: Message, logged: bool)
    requires m in w.relay && m.ItemMessage? && m.recipient in w.boxes
    ensures var w' := Next(addresses, w, IngestItem(m, logged));
        w' == Receive(w, m.recipient, m.item, logged) && w'.relay == w.relay
  {}

  lemma ReceiptEffect(addresses: iset<string>, w: World, m: Message)
    requires m in w.relay && m.ItemMessage?
    ensures var w' := Next(addresses, w, SendReceipt(m));
      && w'.boxes == w.boxes && w'.born == w.born
      && if Holds(w, m.recipient, m.item.id) && TrimSpace(m.sender) in addresses then
           Receipt(m) in w'.relay
         else
           w' == w
  {}

  lemma ClaimEffect(addresses: iset<string>, w: World, s: Step, w1: World)
    requires s.IngestClaim? && s.m in w.relay && s.m.ClaimMessage? && Holds(w, s.m.recipient, s.m.claim.itemId)
    requires Claimable(w.boxes[s.m.recipient][s.m.claim.itemId])
    requires var a, c := s.m.recipient, s.m.claim; var r := w.boxes[a][c.itemId];
      if r.claim.Some? && r.claim.value.holder == c.agentId then w1 == w
      else s.leased && !Blank(c.agentId) && w1 == Leased(w, a, c, s.grant)
    ensures var w' := Next(addresses, w, s); var a, c, id := s.m.recipient, s.m.claim, s.assignmentId;
      var item := w.boxes[a][c.itemId].item;
      if !CanAssign(addresses, w1, a, item, c, id) then w' == w1
      else var w2 := EnsureAssignment(addresses, w1, a, item, c, id, s.logged);
        Holds(w2, a, c.itemId) && w' == if s.marked then MarkAssigned(w2, a, c, id) else w2
  {
    hide Leased, MarkAssigned, CanAssign, Claimable, Blank, EnsureAssignment;
    NextTakesClaim(addresses, w, s);
    var a, c, item := s.m.recipient, s.m.claim, w.boxes[s.m.recipient][s.m.claim.itemId].item;
    LeasedBox(w, a, c, s.grant);
    hide Next;
    if CanAssign(addresses, w1, a, item, c, s.assignmentId) {
      EnsureHolds(addresses, w1, a, item, c, s.assignmentId, s.logged);
    }
  }

  lemma NextTakesClaim(addresses: iset<string>, w: World, s: Step)
    requires s.IngestClaim? && s.m in w.relay && s.m.ClaimMessage?
    ensures Next(addresses, w, s) == TakeClaim(addresses, w, s)
  {
    hide TakeClaim;
  }

  lemma EnsureHolds(addresses: iset<string>, w: World, a: Address, item: Item, c: QueueClaim, id: string, logged: bool)
    requires a in w.boxes && CanAssign(addresses, w, a, item, c, id)
    ensures forall x :: Holds(w, a, x) ==> Holds(EnsureAssignment(addresses, w, a, item, c, id, logged), a, x)
  {}

  lemma LeasedBox(w: World, a: Address, c: QueueClaim, grant: Lease)
    requires Holds(w, a, c.itemId)
    ensures var w', r := Leased(w, a, c, grant), w.boxes[a][c.itemId];
      && a in w'.boxes && w'.origins == w.origins
      && w'.boxes[a] == w.boxes[a][c.itemId := r.(claim := Some(grant)).Append(
           Event(Claimed, c.Actor(), map["queue" := r.item.QueueName()]))]
  {}

  lemma AnswersIgnoreLeases(addresses: iset<string>, box: Box, box': Box, id: string, c: QueueClaim)
    requires box'.Keys == box.Keys && forall x :: x in box ==> box'[x].item == box[x].item
    ensures Answers(addresses, box', id, c) <==> Answers(addresses, box, id, c)
  {}

  lemma CannotAssign(addresses: iset<string>, w: World, a: Address, item: Item, c: QueueClaim, id: string)
    requires a in w.boxes && !Answered(addresses, w.boxes[a], c) && !AssignmentItem(item, c, id).ValidForCreate()
    ensures !CanAssign(addresses, w, a, item, c, id)
  {}

  lemma LeaseEffect(addresses: iset<string>, w: World, a: Address, id: string, lease: Option<Lease>)
    requires Holds(w, a, id)
    ensures var w' := Next(addresses, w, ChangeLease(a, id, lease));
      w' == w.(boxes := w.boxes[a := w.boxes[a][id := w.boxes[a][id].(claim := lease)]])
  {}

  lemma PlainLocalEffect(addresses: iset<string>, w: World, a: Address, id: string, e: Event)
    requires Holds(w, a, id) && !e.typ.Created? && !e.typ.Assigned? && !e.typ.Delivered?
    ensures Next(addresses, w, Local(a, id, e)) == AddEvent(w, a, id, e)
  {}

  // ---- The code -----------------------------------------------------------------------

  class Router {
    const address: Address
    const addresses: iset<string>
    var box: Box

    constructor (address: Address, addresses: iset<string>)
      ensures this.address == address && this.addresses == addresses && box == map[]
    {
      this.address, this.addresses, box := address, addresses, map[];
    }

    ghost predicate In(w: World)
      reads this
    {
      address in w.boxes && w.boxes[address] == box
    }

    method AppendEvent(id: string, e: Event)
      requires id in box
      modifies this`box
      ensures box == old(box)[id := old(box)[id].Append(e)]
    {
      box := box[id := box[id].Append(e)];
    }

    /** Appending to a record that is gone fails. */
    method TryAppend(id: string, e: Event) returns (ok: bool)
      modifies this`box
      ensures ok == (id in old(box)) && box == Extended(old(box), id, [e])
    {
      ok := id in box;
      if ok { AppendEvent(id, e); }
    }

    /** Get, then create. An invalid item is refused. */
    method GetOrCreate(item: Item, logged: bool) returns (ok: bool)
      modifies this`box
      ensures ok <==> item.id in box
      ensures forall w :: old(In(w)) ==> box == Receive(w, address, item, logged).boxes[address]
    {
      if item.id in box { return true; }
      if !item.ValidForCreate() { return false; }
      box := box[item.id := NewRecord(item, logged)];
      ok := true;
    }

    /** The live delivery handler; `accepted` is the reply a sender may see. */
    method HandleDeliver(ghost w: World, sender: Address, item: Item, logged: bool) returns (accepted: bool)
      requires In(w) && LiveCall(sender, item) in w.calls && sender != address
      modifies this`box
      ensures var w' := Next(addresses, w, PeerHandles(LiveCall(sender, item), address, logged));
        && In(w') && (accepted ==> Ack(sender, item.id, address) in w'.acks)
      ensures accepted <==> item.id in old(box) || item.ValidForCreate()
    {
      accepted := GetOrCreate(item, logged);
    }

    /** The receipt is what remains to be published, if the sender can be reached. */
    method IngestRelayItem(ghost w: World, m: Message, logged: bool) returns (receipt: Option<Message>)
      requires In(w) && m in w.relay && m.ItemMessage? && m.recipient == address
      modifies this`box
      ensures var w' := Next(addresses, w, IngestItem(m, logged));
        && In(w') && (receipt.Some? ==> receipt.value in Next(addresses, w', SendReceipt(m)).relay)
        && (receipt.None? ==> Next(addresses, w', SendReceipt(m)) == w')
    {
      hide Next;
      ItemEffect(addresses, w, m, logged);
      ReceiptEffect(addresses, Next(addresses, w, IngestItem(m, logged)), m);
      var ok := GetOrCreate(m.item, logged);
      receipt := if ok && TrimSpace(m.sender) in addresses then Some(Receipt(m)) else None;
    }

    method IngestRelayReceipt(ghost w: World, m: Message, eventId: string)
      requires In(w) && m in w.relay && m.ReceiptMessage? && m.recipient == address
      modifies this`box
      ensures In(Next(addresses, w, IngestReceipt(m, eventId)))
    {
      if m.itemId !in box { return; }
      var seen := HasMailboxEvent(box[m.itemId], Delivered, "handoff_id", Coalesce(m.handoffId, m.itemId));
      if seen { return; }
      AppendEvent(m.itemId, ReceiptEvent(m, m.itemId, eventId));
    }

    /** The scan over replies, in whatever order they are listed. */
    method FindAssignment(claim: QueueClaim) returns (id: Option<string>)
      ensures id.Some? ==> Answers(addresses, box, id.value, claim)
      ensures id.None? ==> !Answered(addresses, box, claim)
    {
      var pending := box.Keys;
      while pending != {}
        invariant pending <= box.Keys
        invariant forall x :: x in box && x !in pending ==> !Answers(addresses, box, x, claim)
        decreases pending
      {
        var x :| x in pending;
        if Answers(addresses, box, x, claim) { return Some(x); }
        pending := pending - {x};
      }
      id := None;
    }

    /** `newId` is the id a new item would get. */
    method EnsureAssignment(
          ghost w: World, item: Item, claim: QueueClaim, newId: string, logged: bool) returns (id: Option<string>)
      requires In(w) && Fresh(w, newId)
      modifies this`box
      ensures id.Some? ==> CanAssign(addresses, w, address, item, claim, id.value)
      ensures id.Some? ==>
          In(MailboxProtocol.EnsureAssignment(addresses, w, address, item, claim, id.value, logged))
          && id.value in box
      ensures id.Some? ==> id.value == newId || Answers(addresses, old(box), id.value, claim)
      ensures id.None? ==>
          box == old(box) && !Answered(addresses, box, claim)
          && !AssignmentItem(item, claim, newId).ValidForCreate()
    {
      id := FindAssignment(claim);
      if id.Some? { return; }
      var made := AssignmentItem(item, claim, newId);
      if !made.ValidForCreate() { return; }
      box := box[newId := NewRecord(made, logged)];
      id := Some(newId);
    }

    method MarkPublicQueueAssigned(ghost w: World, claim: QueueClaim, id: string)
      requires In(w) && claim.itemId in box
      modifies this`box
      ensures In(MarkAssigned(w, address, claim, id))
    {
      var record := box[claim.itemId];
      var seen := HasMailboxEvent(record, Assigned, "assignment_item_id", id);
      if seen { return; }
      AppendEvent(claim.itemId, AssignedEvent(claim, record.item.QueueName(), id));
      box := box[claim.itemId := box[claim.itemId].(claim := None)];
    }

    /** One ingested claim is one step, for some choice of assignment. */
    /** The world after the lease, if it was not held before. */
    ghost function Granted(w: World, c: QueueClaim, grant: Lease): World
      requires Holds(w, address, c.itemId)
    {
      var lease := w.boxes[address][c.itemId].claim;
      if lease.Some? && lease.value.holder == c.agentId then w else Leased(w, address, c, grant)
    }

    method TakeLease(ghost w: World, c: QueueClaim, grant: Lease, leased: bool) returns (held: bool)
      requires In(w) && c.itemId in box
      modifies this`box
      ensures var lease := old(box)[c.itemId].claim;
        held <==> (lease.Some? && lease.value.holder == c.agentId) || (leased && !Blank(c.agentId))
      ensures !held ==> box == old(box)
      ensures held ==> In(Granted(w, c, grant)) && box.Keys == old(box).Keys
      ensures held ==> forall x :: x in box ==> box[x].item == old(box)[x].item
    {
      var record := box[c.itemId];
      if record.claim.Some? && record.claim.value.holder == c.agentId { return true; }
      if Blank(c.agentId) || !leased { return false; }
      LeasedBox(w, address, c, grant);
      hide Leased;
      box := box[c.itemId := record.(claim := Some(grant))];
      AppendEvent(c.itemId, Event(Claimed, c.Actor(), map["queue" := record.item.QueueName()]));
      held := true;
    }

    method IngestQueueClaim(
          ghost w: World, m: Message, grant: Lease, leased: bool, newId: string, logged: bool, marked: bool)
      returns (ghost s: Step)
      requires In(w) && m in w.relay && m.ClaimMessage? && m.recipient == address && Fresh(w, newId)
      modifies this`box
      ensures s.IngestClaim? && s == IngestClaim(m, grant, leased, s.assignmentId, logged, marked)
      ensures In(Next(addresses, w, s))
      ensures s.assignmentId == newId || Answers(addresses, old(box), s.assignmentId, m.claim)
    {
      var c := m.claim;
      ghost var first := box;
      s := IngestClaim(m, grant, leased, newId, logged, marked);
      NextTakesClaim(addresses, w, s);
      hide Next, Leased, Claimable, CanAssign, MarkAssigned, MailboxProtocol.EnsureAssignment, Answers;
      if c.itemId !in box || !Claimable(box[c.itemId]) { return; }
      var record := box[c.itemId];
      var held := TakeLease(w, c, grant, leased);
      if !held { return; }
      ghost var w1 := Granted(w, c, grant);
      GrantedFresh(w, c, grant, newId);
      hide TakeClaim, Granted;
      var id := EnsureAssignment(w1, record.item, c, newId, logged);
      if id.Some? {
        AnswersIgnoreLeases(addresses, first, w1.boxes[address], id.value, c);
        s := IngestClaim(m, grant, leased, id.value, logged, marked);
      } else {
        CannotAssign(addresses, w1, address, record.item, c, newId);
      }
      GrantedEffect(addresses, w, s, w1);
      if id.Some? && marked {
        MarkPublicQueueAssigned(MailboxProtocol.EnsureAssignment(addresses, w1, address, record.item, c, id.value,
            logged), c, id.value);
      }
    }

    lemma GrantedFresh(w: World, c: QueueClaim, grant: Lease, id: string)
      requires Holds(w, address, c.itemId)
      ensures address in Granted(w, c, grant).boxes
      ensures Fresh(w, id) ==> Fresh(Granted(w, c, grant), id)
    {
      LeasedBox(w, address, c, grant);
    }

    lemma GrantedEffect(addresses: iset<string>, w: World, s: Step, w1: World)
      requires s.IngestClaim? && s.m in w.relay && s.m.ClaimMessage? && s.m.recipient == address
        && Holds(w, address, s.m.claim.itemId) && Claimable(w.boxes[address][s.m.claim.itemId])
      requires w1 == Granted(w, s.m.claim, s.grant)
      requires var lease := w.boxes[address][s.m.claim.itemId].claim;
        (lease.Some? && lease.value.holder == s.m.claim.agentId) || (s.leased && !Blank(s.m.claim.agentId))
      ensures address in w1.boxes
      ensures var w', c, id := Next(addresses, w, s), s.m.claim, s.assignmentId;
        var item := w.boxes[address][c.itemId].item;
        if !CanAssign(addresses, w1, address, item, c, id) then w' == w1
        else var w2 := MailboxProtocol.EnsureAssignment(addresses, w1, address, item, c, id, s.logged);
          Holds(w2, address, c.itemId) && w' == if s.marked then MarkAssigned(w2, address, c, id) else w2
    {
      LeasedBox(w, address, s.m.claim, s.grant);
      ClaimEffect(addresses, w, s, w1);
    }

    // ---- Network delivery, one part per control point -----------------------------------

    /** Up to the live call. Nothing is done for a delivered or completed record. */
    method StartDelivery(ghost w: World, record: Record) returns (calling: bool)
      requires In(w) && Delivery(address, record, Listed) in w.deliveries
      modifies this`box
      ensures var w', id := Next(addresses, w, Attempt(Delivery(address, record, Listed))), record.item.id;
        && In(w') && (calling <==> Wanting(record) && record.item.Target(addresses) != "" && id in old(box))
        && (calling ==> Delivery(address, record, Sending) in w'.deliveries
                        && LiveCall(address, record.item.Wire()) in w'.calls)
      ensures box == Extended(old(box), record.item.id,
        if !Wanting(record) then []
        else if record.item.Target(addresses) == "" then [FailedEvent(address)]
        else [AttemptedEvent(address, "skylink", record.item.Target(addresses))])
    {
      ghost var d := Delivery(address, record, Listed);
      var id, target := record.item.id, record.item.Target(addresses);
      if id in box { AttemptEffect(addresses, w, d); } else { assert Next(addresses, w, Attempt(d)) == w; }
      hide Next;
      ExtendedByNothing(box, id);
      if record.item.to.None? || record.State().InDelivered? || record.State().InCompleted? { return false; }
      if target == "" {
        var _ := TryAppend(id, FailedEvent(address));
        return false;
      }
      calling := TryAppend(id, AttemptedEvent(address, "skylink", target));
    }

    /** From the answer to the live call, whatever has happened meanwhile, to the relay. */
    method AfterCall(ghost w: World, record: Record, outcome: Outcome) returns (handing: bool)
      requires In(w) && Delivery(address, record, Sending) in w.deliveries
      requires outcome.Acked? ==> Ack(address, record.item.id, outcome.peer) in w.acks
      modifies this`box
      ensures var w', id := Next(addresses, w, AnswerStep(record, outcome)), record.item.id;
        && In(w')
        && (handing <==> (outcome.RelayFails? || outcome.RelayStores?) && !EverHandedOff(record) && id in old(box))
        && (handing ==> Delivery(address, record, HandingOff) in w'.deliveries)
      ensures box == Extended(old(box), record.item.id,
        match outcome
        case Acked(_) => [LiveDeliveredEvent(address, record.item.Target(addresses))]
        case NoRelay => [FailedEvent(address)]
        case RelayFails | RelayStores =>
          if EverHandedOff(record) then []
          else [AttemptedEvent(address, "nostr_dropbox", record.item.Target(addresses))])
    {
      ghost var sending := Delivery(address, record, Sending);
      var id, target := record.item.id, record.item.Target(addresses);
      AnswerEffect(addresses, w, record, outcome);
      hide Next;
      match outcome
      case Acked(_) =>
        var _ := TryAppend(id, LiveDeliveredEvent(address, target));
        handing := false;
      case NoRelay =>
        var _ := TryAppend(id, FailedEvent(address));
        handing := false;
      case RelayFails | RelayStores =>
        var existing := RelayHandoffForRecord(record);
        if existing.Some? { return false; }
        handing := TryAppend(id, AttemptedEvent(address, "nostr_dropbox", target));
    }

    /** From the relay's answer, whatever has happened meanwhile, to the end. */
    method AfterHandoff(ghost w: World, record: Record, stored: bool)
      requires In(w) && Delivery(address, record, if stored then HandoffDone else HandingOff) in w.deliveries
      modifies this`box
      ensures In(Next(addresses, w,
        if stored then FinishHandoff(Delivery(address, record, HandoffDone))
        else GiveUp(Delivery(address, record, HandingOff))))
      ensures box == Extended(old(box), record.item.id,
        if !stored then [FailedEvent(address)]
        else if Settled(old(box), record.item.id) then []
        else [HandedOffEvent(address, record.item.Target(addresses), record.item.id)])
    {
      var id, target := record.item.id, record.item.Target(addresses);
      HandoffEffect(addresses, w, record, stored);
      hide Next;
      if !stored {
        var _ := TryAppend(id, FailedEvent(address));
        return;
      }
      if id in box && (box[id].State().InDelivered? || box[id].State().Terminal()) { return; }
      var _ := TryAppend(id, HandedOffEvent(address, target, id));
    }

    /** The record on file is delivered or terminal. */
    predicate Settled(box: Box, id: string) {
      id in box && (box[id].State().InDelivered? || box[id].State().Terminal())
    }

    predicate Wanting(record: Record) {
      record.item.to.Some? && !record.State().InDelivered? && !record.State().InCompleted?
    }

    /** The protocol's step for the answer. */
    function AnswerStep(record: Record, outcome: Outcome): Step {
      match outcome
      case Acked(peer) => LiveSucceeds(Delivery(address, record, Sending), peer)
      case NoRelay => GiveUp(Delivery(address, record, Sending))
      case RelayFails | RelayStores => LiveFails(Delivery(address, record, Sending))
    }

    lemma AnswerEffect(addresses: iset<string>, w: World, record: Record, outcome: Outcome)
      requires In(w) && Delivery(address, record, Sending) in w.deliveries
      requires outcome.Acked? ==> Ack(address, record.item.id, outcome.peer) in w.acks
      ensures var w', id := Next(addresses, w, AnswerStep(record, outcome)), record.item.id;
        var target := record.item.Target(addresses);
        && address in w'.boxes
        && w'.boxes[address] == Extended(box, id,
             match outcome
             case Acked(_) => [LiveDeliveredEvent(address, target)]
             case NoRelay => [FailedEvent(address)]
             case RelayFails | RelayStores =>
               if EverHandedOff(record) then [] else [AttemptedEvent(address, "nostr_dropbox", target)])
        && ((outcome.RelayFails? || outcome.RelayStores?) && id in box && !EverHandedOff(record) ==>
              Delivery(address, record, HandingOff) in w'.deliveries)
    {
      var sending := Delivery(address, record, Sending);
      if record.item.id in box {
        ExtendedByNothing(box, record.item.id);
        match outcome
        case Acked(peer) => LiveEffect(addresses, w, sending, peer);
        case NoRelay => GiveUpEffect(addresses, w, sending);
        case RelayFails | RelayStores => LiveFailEffect(addresses, w, sending);
      } else {
        assert Next(addresses, w, AnswerStep(record, outcome)) == w;
      }
    }

    lemma HandoffEffect(addresses: iset<string>, w: World, record: Record, stored: bool)
      requires In(w) && Delivery(address, record, if stored then HandoffDone else HandingOff) in w.deliveries
      ensures var id := record.item.id;
        var w' := Next(addresses, w,
          if stored then FinishHandoff(Delivery(address, record, HandoffDone))
          else GiveUp(Delivery(address, record, HandingOff)));
        && address in w'.boxes
        && w'.boxes[address] == Extended(box, id,
             if !stored then [FailedEvent(address)] else if Settled(box, id) then []
             else [HandedOffEvent(address, record.item.Target(addresses), id)])
    {
      if record.item.id in box {
        ExtendedByNothing(box, record.item.id);
        if stored {
          FinishEffect(addresses, w, Delivery(address, record, HandoffDone));
        } else {
          GiveUpEffect(addresses, w, Delivery(address, record, HandingOff));
        }
      }
    }

    /** A whole delivery during which nothing else happens on its node is a run of
        steps, and adds to the timeline what the outcome calls for. */
    method DeliverNetworkMailbox(ghost w: World, record: Record, outcome: Outcome) returns (ghost steps: seq<Step>)
      requires In(w) && Delivery(address, record, Listed) in w.deliveries && record.item.id in box
      requires outcome.Acked? ==> outcome.peer != address && outcome.peer in w.boxes
      requires outcome.Acked? ==> record.item.id in w.boxes[outcome.peer] || record.item.Wire().ValidForCreate()
      modifies this`box
      ensures In(Run(addresses, w, steps))
      ensures box == Extended(old(box), record.item.id, DeliveryTrail(record, outcome))
    {
      ghost var d, id, first := Delivery(address, record, Listed), record.item.id, box;
      steps := [Attempt(d)];
      RunStep(addresses, w, [], Attempt(d));
      AttemptEffect(addresses, w, d);
      var calling := StartDelivery(w, record);
      hide Run, Next, Extended, Item.Target, Record.State, Item.ValidForCreate;
      if !calling { return; }
      ghost var tried := [AttemptedEvent(address, "skylink", record.item.Target(addresses))];
      ExtendedTwice(first, id, tried, AfterAnswer(record, outcome) + AfterRelay(record, outcome));
      if outcome.Acked? {
        ghost var handled := PeerHandles(LiveCall(address, record.item.Wire()), outcome.peer, true);
        PeerEffect(addresses, Run(addresses, w, steps), Delivery(address, record, Sending), outcome.peer);
        RunStep(addresses, w, steps, handled);
        steps := steps + [handled];
      }
      steps := Answer(w, steps, record, outcome);
    }

    /** From the answer to the live call to the end, undisturbed. */
    method Answer(
          ghost w: World, ghost before: seq<Step>, record: Record, outcome: Outcome) returns (ghost steps: seq<Step>)
      requires In(Run(addresses, w, before))
      requires Delivery(address, record, Sending) in Run(addresses, w, before).deliveries
      requires outcome.Acked? ==> Ack(address, record.item.id, outcome.peer) in Run(addresses, w, before).acks
      requires record.item.id in box
      modifies this`box
      ensures In(Run(addresses, w, steps))
      ensures box == Extended(old(box), record.item.id, AfterAnswer(record, outcome) + AfterRelay(record, outcome))
    {
      hide Run, Next, Extended, Item.Target, Record.State;
      ghost var id, first := record.item.id, box;
      ghost var answered := AfterAnswer(record, outcome);
      steps := before + [AnswerStep(record, outcome)];
      RunStep(addresses, w, before, AnswerStep(record, outcome));
      var handing := AfterCall(Run(addresses, w, before), record, outcome);
      assert !handing ==> answered + AfterRelay(record, outcome) == answered;
      if !handing { return; }
      TriedIsOpen(first, id, answered);
      ExtendedTwice(first, id, answered, AfterRelay(record, outcome));
      ghost var last := if outcome.RelayStores? then FinishHandoff(Delivery(address, record, HandoffDone))
                        else GiveUp(Delivery(address, record, HandingOff));
      if outcome.RelayStores? {
        PublishEffect(addresses, Run(addresses, w, steps), Delivery(address, record, HandingOff));
        RunStep(addresses, w, steps, Publish(Delivery(address, record, HandingOff)));
        steps := steps + [Publish(Delivery(address, record, HandingOff))];
      }
      RunStep(addresses, w, steps, last);
      AfterHandoff(Run(addresses, w, steps), record, outcome.RelayStores?);
      steps := steps + [last];
    }

    /** A record whose last event is an attempt is neither delivered nor terminal. */
    lemma TriedIsOpen(box: Box, id: string, events: seq<Event>)
      requires id in box && events != [] && events[|events| - 1].typ.DeliveryAttempted?
      ensures id in Extended(box, id, events) && !Settled(Extended(box, id, events), id)
    {
      var r := Extended(box, id, events)[id];
      assert r.events[|r.events| - 1] == events[|events| - 1];
    }

    /** What the answer to the live call adds. */
    ghost function AfterAnswer(record: Record, outcome: Outcome): seq<Event> {
      var target := record.item.Target(addresses);
      match outcome
      case Acked(_) => [LiveDeliveredEvent(address, target)]
      case NoRelay => [FailedEvent(address)]
      case RelayFails | RelayStores =>
        if EverHandedOff(record) then [] else [AttemptedEvent(address, "nostr_dropbox", target)]
    }

    /** What the relay's answer adds. */
    ghost function AfterRelay(record: Record, outcome: Outcome): seq<Event> {
      if (outcome.Acked? || outcome.NoRelay?) || EverHandedOff(record) then []
      else if outcome.RelayFails? then [FailedEvent(address)]
      else [HandedOffEvent(address, record.item.Target(addresses), record.item.id)]
    }

    /** What an undisturbed delivery adds to the timeline. */
    ghost function DeliveryTrail(record: Record, outcome: Outcome): seq<Event> {
      if !Wanting(record) then []
      else if record.item.Target(addresses) == "" then [FailedEvent(address)]
      else [AttemptedEvent(address, "skylink", record.item.Target(addresses))]
           + (AfterAnswer(record, outcome) + AfterRelay(record, outcome))
    }

    /** What publishing a queue offer adds to the timeline: a failure if there is no
        public queue; nothing if the listed record is terminal or was offered before;
        otherwise an attempt and then its outcome. */
    ghost function OfferTrail(record: Record, configured: bool, published: bool): seq<Event> {
      if !configured then [FailedEvent(address)]
      else if record.State().Terminal() || record.Has(HandedOff, "transport", "nostr_queue") then []
      else [QueueEvent(DeliveryAttempted), QueueEvent(if published then HandedOff else DeliveryFailed)]
    }

    method DeliverNetworkQueueOffer(
          ghost w: World, record: Record, configured: bool, published: bool) returns (ghost steps: seq<Step>)
      requires In(w) && record.item.id in box
      modifies this`box
      ensures In(Run(addresses, w, steps))
      ensures box == Extended(old(box), record.item.id, OfferTrail(record, configured, published))
    {
      hide Run, Next;
      var id := record.item.id;
      steps := [];
      RunNothing(addresses, w);
      assert box[id].events + [] == box[id].events;
      if !configured {
        PlainLocalEffect(addresses, w, address, id, FailedEvent(address));
        AppendEvent(id, FailedEvent(address));
        RunStep(addresses, w, [], Local(address, id, FailedEvent(address)));
        return [] + [Local(address, id, FailedEvent(address))];
      }
      if record.State().Terminal() { return; }
      var offered := HasMailboxEvent(record, HandedOff, "transport", "nostr_queue");
      if offered { return; }
      var first, second := QueueEvent(DeliveryAttempted), QueueEvent(if published then HandedOff else DeliveryFailed);
      PlainLocalEffect(addresses, w, address, id, first);
      AppendEvent(id, first);
      RunStep(addresses, w, [], Local(address, id, first));
      steps := [] + [Local(address, id, first)];
      PlainLocalEffect(addresses, Run(addresses, w, steps), address, id, second);
      AppendEvent(id, second);
      RunStep(addresses, w, steps, Local(address, id, second));
      steps := steps + [Local(address, id, second)];
      assert old(box[id].events) + [first] + [second] == old(box[id].events) + [first, second];
    }

    function QueueEvent(typ: EventType): Event {
      Event(typ, RouterActor(address), map["transport" := "nostr_queue"])
    }
  }

  lemma RunNothing(addresses: iset<string>, w: World)
    ensures Run(addresses, w, []) == w
  {}

  lemma RunStep(addresses: iset<string>, w: World, steps: seq<Step>, s: Step)
    ensures Run(addresses, w, steps + [s]) == Next(addresses, Run(addresses, w, steps), s)
  {
    assert (steps + [s])[..|steps|] == steps;
  }
}
