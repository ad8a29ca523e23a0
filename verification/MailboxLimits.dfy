/** Where the delivery guarantees stop, and exactly when. */
module MailboxLimits {
  import opened Ordering
  import opened Mailbox
  import opened MailboxProtocol
  import opened MailboxSafety
  import opened MailboxRouter

  // ---- Repeated claims ----------------------------------------------------------------

  /** After an assignment is created, the same claim finds it again exactly when
      the claimant is the address its actor is routed to. */
  lemma RepeatedClaimFindsAssignment(
      addresses: iset<string>, w: World, a: Address, item: Item, c: QueueClaim, id: string, logged: bool)
    requires Inv(addresses, w) && a in w.boxes && item.id == c.itemId
    requires CanAssign(addresses, w, a, item, c, id) && !Answered(addresses, w.boxes[a], c)
    ensures Answered(addresses, EnsureAssignment(addresses, w, a, item, c, id, logged).boxes[a], c) <==>
        c.Routable(addresses)
  {
    Originated(addresses, w, a, AssignmentItem(item, c, id), logged);
    var box := EnsureAssignment(addresses, w, a, item, c, id, logged).boxes[a];
    if c.Routable(addresses) {
      assert Answers(addresses, box, id, c);
    } else {
      forall x ensures !Answers(addresses, box, x, c) {
        assert x != id ==> !Answers(addresses, w.boxes[a], x, c);
      }
    }
  }

  /** What answers a claim: a reply to its item that is addressed to its agent at its
      claimant. */
  lemma AnsweredIff(addresses: iset<string>, box: Box, c: QueueClaim)
    ensures Answered(addresses, box, c) <==>
      exists id :: id in box && (
        var item := box[id].item;
        item.replyTo == c.itemId && item.to.Some? && item.to.value.id == c.agentId
        && item.to.value.RouteAddress(addresses) == c.claimant)
  {
    forall id | id in box ensures Answers(addresses, box, id, c) <==> (
        var item := box[id].item;
        item.replyTo == c.itemId && item.to.Some? && item.to.value.id == c.agentId
        && item.to.value.RouteAddress(addresses) == c.claimant)
    {}
  }

  /** The claim is let in: the item is a network queue item that is not terminal, and
      the claim's agent has its lease or is given it. */
  ghost predicate LetIn(w: World, s: Step)
    requires s.IngestClaim? && s.m.ClaimMessage?
  {
    var a, c := s.m.recipient, s.m.claim;
    && Holds(w, a, c.itemId) && Claimable(w.boxes[a][c.itemId])
    && var lease := w.boxes[a][c.itemId].claim;
       (lease.Some? && lease.value.holder == c.agentId) || (s.leased && !Blank(c.agentId))
  }

  /** The world after the lease. */
  function Admitted(w: World, s: Step): World
    requires s.IngestClaim? && s.m.ClaimMessage? && s.m.recipient in w.boxes
      && s.m.claim.itemId in w.boxes[s.m.recipient]
  {
    var a, c := s.m.recipient, s.m.claim;
    var lease := w.boxes[a][c.itemId].claim;
    if lease.Some? && lease.value.holder == c.agentId then w else Leased(w, a, c, s.grant)
  }

  lemma AdmittedKeeps(addresses: iset<string>, w: World, s: Step)
    requires Inv(addresses, w) && s.IngestClaim? && s.m.ClaimMessage? && Holds(w, s.m.recipient, s.m.claim.itemId)
    ensures var w', a, c := Admitted(w, s), s.m.recipient, s.m.claim;
      && Inv(addresses, w') && a in w'.boxes && w'.assignments == w.assignments && w'.origins == w.origins
      && (Answered(addresses, w'.boxes[a], c) <==> Answered(addresses, w.boxes[a], c))
      && c.itemId in w'.boxes[a] && w'.boxes[a][c.itemId].item == w.boxes[a][c.itemId].item
      && w.boxes[a][c.itemId].item.id == c.itemId
  {
    var w', a, c := Admitted(w, s), s.m.recipient, s.m.claim;
    LeasedKeeps(addresses, w, a, c, s.grant);
    assert RecordOk(addresses, w, a, c.itemId);
    AdmittedItems(w, s);
    hide Inv, Leased, RecordOk, Admitted;
    AnswersSame(addresses, w.boxes[a], w'.boxes[a], c);
  }

  lemma AdmittedItems(w: World, s: Step)
    requires s.IngestClaim? && s.m.ClaimMessage? && Holds(w, s.m.recipient, s.m.claim.itemId)
    ensures var w', a := Admitted(w, s), s.m.recipient;
      && a in w'.boxes && w'.boxes[a].Keys == w.boxes[a].Keys && w'.assignments == w.assignments
      && w'.origins == w.origins
      && w'.relay == w.relay && (forall x :: x in w.boxes[a] ==> w'.boxes[a][x].item == w.boxes[a][x].item)
  {
    LeasedBox(w, s.m.recipient, s.m.claim, s.grant);
  }

  lemma AnswersSame(addresses: iset<string>, box: Box, box': Box, c: QueueClaim)
    requires box'.Keys == box.Keys && forall x :: x in box ==> box'[x].item == box[x].item
    ensures Answered(addresses, box', c) <==> Answered(addresses, box, c)
  {
    forall x ensures Answers(addresses, box', x, c) <==> Answers(addresses, box, x, c) {}
  }

  /** Ingesting a claim makes an assignment exactly when the claim is let in, nothing
      answers it yet, and the new item can be created. */
  lemma AssignsIff(addresses: iset<string>, w: World, s: Step)
    requires Inv(addresses, w) && s.IngestClaim? && s.m in w.relay && s.m.ClaimMessage?
    ensures var a, c := s.m.recipient, s.m.claim; var w' := Next(addresses, w, s);
      && (w'.assignments != w.assignments <==>
            && LetIn(w, s) && !Answered(addresses, w.boxes[a], c)
            && Fresh(w, s.assignmentId)
            && AssignmentItem(w.boxes[a][c.itemId].item, c, s.assignmentId).ValidForCreate())
      && (w'.assignments != w.assignments ==> w'.assignments == w.assignments + {Assignment(a, c, s.assignmentId)})
  {
    var a, c, id := s.m.recipient, s.m.claim, s.assignmentId;
    if LetIn(w, s) {
      AdmittedKeeps(addresses, w, s);
      AssignmentsAfter(addresses, w, s);
      if Fresh(w, id) { NotYetAssigned(addresses, w, Assignment(a, c, id)); }
      hide Next, Inv, LetIn, Answered, Admitted;
    } else {
      assert Next(addresses, w, s) == TakeClaim(addresses, w, s);
      hide Next, Inv;
      NotLetIn(addresses, w, s);
    }
  }

  lemma NotLetIn(addresses: iset<string>, w: World, s: Step)
    requires s.IngestClaim? && s.m.ClaimMessage? && !LetIn(w, s)
    ensures TakeClaim(addresses, w, s) == w
  {
    hide Claimable, EnsureAssignment, MarkAssigned, CanAssign, Leased;
  }

  lemma NotYetAssigned(addresses: iset<string>, w: World, h: Assignment)
    requires Inv(addresses, w) && Fresh(w, h.id)
    ensures h !in w.assignments
  {
    assert forall k :: k in w.assignments ==> AssignmentOk(w, k);
  }

  lemma AssignmentsAfter(addresses: iset<string>, w: World, s: Step)
    requires Inv(addresses, w) && s.IngestClaim? && s.m in w.relay && s.m.ClaimMessage? && LetIn(w, s)
    ensures var a, c, id := s.m.recipient, s.m.claim, s.assignmentId;
        var w1, item := Admitted(w, s), w.boxes[a][c.itemId].item;
      a in w1.boxes && Next(addresses, w, s).assignments ==
        if CanAssign(addresses, w1, a, item, c, id) && !Answered(addresses, w1.boxes[a], c)
        then w.assignments + {Assignment(a, c, id)} else w.assignments
  {
    AdmittedKeeps(addresses, w, s);
    ClaimEffect(addresses, w, s, Admitted(w, s));
    hide Next, Inv, Admitted, LetIn;
  }

  /** A marked item takes no further claims: assigned is a terminal state. */
  lemma MarkedTakesNoClaims(addresses: iset<string>, w: World, a: Address, c: QueueClaim, id: string, s: Step)
    requires Holds(w, a, c.itemId) && !w.boxes[a][c.itemId].Has(Assigned, "assignment_item_id", id)
    requires s.IngestClaim? && s.m.ClaimMessage? && s.m.recipient == a && s.m.claim.itemId == c.itemId
    ensures Next(addresses, MarkAssigned(w, a, c, id), s) == MarkAssigned(w, a, c, id)
  {
    var w' := MarkAssigned(w, a, c, id);
    var r := w'.boxes[a][c.itemId];
    assert r.events[|r.events| - 1].typ == Assigned && r.claim.None?;
    assert r.State().Terminal() && !Claimable(r);
  }

  /** With an assignment for the offer still on record, a repeated claim makes another
      exactly when it is let in and can create an item but nothing answers it; for a
      routable claim that never happens. */
  lemma AssignsAgainIff(addresses: iset<string>, w: World, s: Step, h: Assignment)
    requires Inv(addresses, w) && s.IngestClaim? && s.m in w.relay && s.m.ClaimMessage?
    requires h in w.assignments && h.node == s.m.recipient && SameOffer(h.claim, s.m.claim) && Holds(w, h.node, h.id)
    ensures var a, c := s.m.recipient, s.m.claim;
      Next(addresses, w, s).assignments != w.assignments <==>
      && !c.Routable(addresses) && LetIn(w, s) && !Answered(addresses, w.boxes[a], c)
      && Fresh(w, s.assignmentId) && AssignmentItem(w.boxes[a][c.itemId].item, c, s.assignmentId).ValidForCreate()
  {
    AssignsIff(addresses, w, s);
    assert AssignmentOk(w, h) && RecordOk(addresses, w, h.node, h.id);
    if s.m.claim.Routable(addresses) {
      EarlierAnswers(addresses, w, h, s.m.claim);
      assert Answered(addresses, w.boxes[h.node], s.m.claim);
    }
  }

  /** Every claim offered is one this code makes for some offer and actor. */
  ghost predicate Conforming(addresses: iset<string>, steps: seq<Step>) {
    forall s :: s in steps && s.OfferClaim? ==> MadeHere(addresses, s.claim)
  }

  ghost predicate MadeHere(addresses: iset<string>, c: QueueClaim) {
    exists sender, queue, actor ::
      NewQueueClaim(addresses, c.itemId, sender, queue, actor, c.claimId) == Some(c)
  }

  ghost predicate ClaimsRoutable(addresses: iset<string>, w: World) {
    && (forall m :: m in w.relay && m.ClaimMessage? ==> m.claim.Routable(addresses))
    && (forall h :: h in w.assignments ==> h.claim.Routable(addresses))
  }

  lemma ClaimsStayRoutable(addresses: iset<string>, w: World, s: Step)
    requires Inv(addresses, w) && ClaimsRoutable(addresses, w)
    requires s.OfferClaim? ==> MadeHere(addresses, s.claim)
    ensures ClaimsRoutable(addresses, Next(addresses, w, s))
  {
    hide Next, ClaimsRoutable, Inv, MadeHere;
    if s.IngestClaim? {
      ClaimIngested(addresses, w, s);
    } else if s.OfferClaim? {
      ClaimOffered(addresses, w, s);
    } else {
      ClaimsUntouched(addresses, w, s);
      OldClaimsRoutable(addresses, w, Next(addresses, w, s));
    }
  }

  lemma OldClaimsRoutable(addresses: iset<string>, w: World, w': World)
    requires ClaimsRoutable(addresses, w) && OldClaims(w, w')
    ensures ClaimsRoutable(addresses, w')
  {
    hide QueueClaim.Routable;
  }

  lemma ClaimOffered(addresses: iset<string>, w: World, s: Step)
    requires ClaimsRoutable(addresses, w) && s.OfferClaim? && MadeHere(addresses, s.claim)
    ensures ClaimsRoutable(addresses, Next(addresses, w, s))
  {
    hide Next, QueueClaim.Routable, MadeHere;
    MadeHereRoutable(addresses, s.claim);
    OfferEffect(addresses, w, s.sender, s.recipient, s.claim);
  }

  lemma MadeHereRoutable(addresses: iset<string>, c: QueueClaim)
    requires MadeHere(addresses, c)
    ensures c.Routable(addresses)
  {
    hide QueueClaim.Routable;
    var sender, queue, actor :| NewQueueClaim(addresses, c.itemId, sender, queue, actor, c.claimId) == Some(c);
  }

  lemma ClaimIngested(addresses: iset<string>, w: World, s: Step)
    requires Inv(addresses, w) && ClaimsRoutable(addresses, w) && s.IngestClaim?
    ensures ClaimsRoutable(addresses, Next(addresses, w, s))
  {
    if s.m in w.relay && s.m.ClaimMessage? {
      hide Next, Inv, LetIn, Answered, QueueClaim.Routable, AssignmentItem, Fresh;
      AssignsIff(addresses, w, s);
      ClaimLeavesRelay(addresses, w, s);
    } else {
      assert Next(addresses, w, s) == w;
      hide Next;
    }
  }

  lemma ClaimLeavesRelay(addresses: iset<string>, w: World, s: Step)
    requires s.IngestClaim? && s.m in w.relay && s.m.ClaimMessage?
    ensures Next(addresses, w, s).relay == w.relay
  {
    NextTakesClaim(addresses, w, s);
    hide Next, Claimable, CanAssign, Blank, AssignmentItem;
  }

  ghost predicate OldClaims(w: World, w': World) {
    w'.assignments == w.assignments && forall m :: m in w'.relay && m.ClaimMessage? ==> m in w.relay
  }

  lemma ClaimsUntouched(addresses: iset<string>, w: World, s: Step)
    requires !s.IngestClaim? && !s.OfferClaim?
    ensures OldClaims(w, Next(addresses, w, s))
  {
    match s
    case Publish(_) =>
      hide Item.Target, Principal.RouteAddress;
    case SendReceipt(_) =>
      hide TrimSpace;
    case _ =>
      NoClaims(addresses, w, s);
      hide Next;
  }

  lemma NoClaims(addresses: iset<string>, w: World, s: Step)
    requires !s.IngestClaim? && !s.OfferClaim? && !s.Publish? && !s.SendReceipt?
    ensures var w' := Next(addresses, w, s); w'.assignments == w.assignments && w'.relay == w.relay
  {
    hide Next;
    match s
    case Attempt(_) | LiveFails(_) => CallSteps(addresses, w, s);
    case LiveSucceeds(_, _) | FinishHandoff(_) | GiveUp(_) => OutcomeSteps(addresses, w, s);
    case PeerHandles(_, _, _) => PeerSteps(addresses, w, s);
    case IngestItem(_, _) | IngestReceipt(_, _) => IntakeSteps(addresses, w, s);
    case _ => OwnSteps(addresses, w, s);
  }

  lemma CallSteps(addresses: iset<string>, w: World, s: Step)
    requires s.Attempt? || s.LiveFails?
    ensures var w' := Next(addresses, w, s); w'.assignments == w.assignments && w'.relay == w.relay
  {
    match s
    case Attempt(_) =>
    case LiveFails(_) =>
  }

  lemma OutcomeSteps(addresses: iset<string>, w: World, s: Step)
    requires s.LiveSucceeds? || s.FinishHandoff? || s.GiveUp?
    ensures var w' := Next(addresses, w, s); w'.assignments == w.assignments && w'.relay == w.relay
  {
    match s
    case LiveSucceeds(_, _) =>
    case FinishHandoff(_) =>
    case GiveUp(_) =>
  }

  lemma PeerSteps(addresses: iset<string>, w: World, s: Step)
    requires s.PeerHandles?
    ensures var w' := Next(addresses, w, s); w'.assignments == w.assignments && w'.relay == w.relay
  {}

  lemma IntakeSteps(addresses: iset<string>, w: World, s: Step)
    requires s.IngestItem? || s.IngestReceipt?
    ensures var w' := Next(addresses, w, s); w'.assignments == w.assignments && w'.relay == w.relay
  {
    match s
    case IngestItem(_, _) =>
    case IngestReceipt(_, _) =>
  }

  lemma OwnSteps(addresses: iset<string>, w: World, s: Step)
    requires s.CreateItem? || s.Local? || s.ChangeLease? || s.Compact? || s.List?
    ensures var w' := Next(addresses, w, s); w'.assignments == w.assignments && w'.relay == w.relay
  {
    match s
    case CreateItem(_, _, _) =>
    case Local(_, _, _) =>
    case ChangeLease(_, _, _) =>
    case Compact(_, _) =>
    case List(_, _) =>
  }

  lemma {:induction false} ConformingClaims(addresses: iset<string>, nodes: map<Address, string>, steps: seq<Step>)
    requires Conforming(addresses, steps)
    ensures ClaimsRoutable(addresses, Run(addresses, Start(nodes), steps))
  {
    if steps != [] {
      var n := |steps| - 1;
      assert steps[n] in steps && forall s :: s in steps[..n] ==> s in steps;
      ConformingClaims(addresses, nodes, steps[..n]);
      RunKeeps(addresses, nodes, steps[..n]);
      hide Inv, Next, ClaimsRoutable, MadeHere;
      ClaimsStayRoutable(addresses, Run(addresses, Start(nodes), steps[..n]), steps[n]);
    }
  }

  /** Where every claim comes from a node running this code, a node makes a second
      assignment for an offer only after compacting the first. */
  lemma ConformingAssignedOnce(
        addresses: iset<string>, nodes: map<Address, string>, steps: seq<Step>, h: Assignment, k: Assignment)
    requires Conforming(addresses, steps)
    requires var w := Run(addresses, Start(nodes), steps); h in w.assignments && k in w.assignments
    requires h.node == k.node && SameOffer(h.claim, k.claim)
    ensures var w := Run(addresses, Start(nodes), steps);
      h.id == k.id || Dropped(w, h.node, h.id) || Dropped(w, k.node, k.id)
  {
    ConformingClaims(addresses, nodes, steps);
    AssignedOnce(addresses, nodes, steps, h, k);
  }

  /** A claim let in without being marked leaves the item open for the next one. */
  lemma UnmarkedStaysOpen(addresses: iset<string>, w: World, s: Step)
    requires Inv(addresses, w) && s.IngestClaim? && s.m in w.relay && s.m.ClaimMessage? && LetIn(w, s) && !s.marked
      && s.leased
    requires var a, c := s.m.recipient, s.m.claim;
      && !Blank(c.agentId) && !c.Routable(addresses) && !Answered(addresses, w.boxes[a], c)
      && Fresh(w, s.assignmentId) && AssignmentItem(w.boxes[a][c.itemId].item, c, s.assignmentId).ValidForCreate()
      && Claimable(Admitted(w, s).boxes[a][c.itemId])
    ensures var w', a, c := Next(addresses, w, s), s.m.recipient, s.m.claim;
      && LetIn(w', s) && !Answered(addresses, w'.boxes[a], c) && s.m in w'.relay
      && w'.boxes[a][c.itemId].item == w.boxes[a][c.itemId].item && w'.origins.Keys == w.origins.Keys + {s.assignmentId}
  {
    var a, c, id := s.m.recipient, s.m.claim, s.assignmentId;
    var w1, item := Admitted(w, s), w.boxes[a][c.itemId].item;
    AdmittedKeeps(addresses, w, s);
    AdmittedItems(w, s);
    assert CanAssign(addresses, w1, a, item, c, id);
    ClaimEffect(addresses, w, s, w1);
    RepeatedClaimFindsAssignment(addresses, w1, a, item, c, id, s.logged);
    NewItem(addresses, w1, a, item, c, id, s.logged);
    assert RecordOk(addresses, w, a, c.itemId);
    hide Next, Inv, LetIn, Admitted, Answered, CanAssign, Claimable, EnsureAssignment, RecordOk;
    LetInAgain(addresses, w1, EnsureAssignment(addresses, w1, a, item, c, id, s.logged), s);
  }

  lemma NewItem(addresses: iset<string>, w: World, a: Address, item: Item, c: QueueClaim, id: string, logged: bool)
    requires a in w.boxes && CanAssign(addresses, w, a, item, c, id) && !Answered(addresses, w.boxes[a], c)
    ensures var w' := EnsureAssignment(addresses, w, a, item, c, id, logged);
      && a in w'.boxes && w'.relay == w.relay && w'.origins.Keys == w.origins.Keys + {id}
      && (forall x :: x in w.boxes[a] && x != id ==> x in w'.boxes[a] && w'.boxes[a][x] == w.boxes[a][x])
  {}

  lemma LetInAgain(addresses: iset<string>, w1: World, w2: World, s: Step)
    requires s.IngestClaim? && s.m.ClaimMessage? && s.leased && !Blank(s.m.claim.agentId)
    requires Holds(w1, s.m.recipient, s.m.claim.itemId) && Holds(w2, s.m.recipient, s.m.claim.itemId)
    requires w2.boxes[s.m.recipient][s.m.claim.itemId] == w1.boxes[s.m.recipient][s.m.claim.itemId]
    requires Claimable(w1.boxes[s.m.recipient][s.m.claim.itemId])
    ensures LetIn(w2, s)
  {}

  /** The worlds a run passes through. */
  lemma Unrolled(addresses: iset<string>, w: World, s: seq<Step>) returns (worlds: seq<World>)
    ensures |worlds| == |s| + 1 && worlds[0] == w && worlds[|s|] == Run(addresses, w, s)
    ensures forall i :: 0 <= i < |s| ==> worlds[i + 1] == Next(addresses, worlds[i], s[i])
  {
    hide Next;
    worlds := [w];
    for i := 0 to |s|
      invariant |worlds| == i + 1 && worlds[0] == w && worlds[i] == Run(addresses, w, s[..i])
      invariant forall j :: 0 <= j < i ==> worlds[j + 1] == Next(addresses, worlds[j], s[j])
    {
      assert s[..i + 1] == s[..i] + [s[i]];
      RunStep(addresses, w, s[..i], s[i]);
      worlds := worlds + [Next(addresses, worlds[i], s[i])];
    }
    assert s[..|s|] == s;
  }

  /** A queue item and a claim for it that its actor's address does not match. */
  predicate MisaddressedClaim(addresses: iset<string>, item: Item, c: QueueClaim) {
    && !Blank(item.id) && item.ValidForCreate() && item.Scope() == Sky10Network && item.QueueName() != ""
    && item.replyTo != item.id && c.itemId == item.id && !Blank(c.agentId) && !c.Routable(addresses)
    && AssignmentItem(item, c, "").ValidForCreate()
  }

  lemma OfferedWorld(addresses: iset<string>, nodes: map<Address, string>, a: Address, item: Item, c: QueueClaim)
    requires a in nodes && MisaddressedClaim(addresses, item, c)
    ensures var w := Next(addresses, Next(addresses, Start(nodes), CreateItem(a, item, true)), OfferClaim(a, a, c));
      && a in w.boxes && w.boxes[a] == map[item.id := NewRecord(item, true)] && ClaimMessage(a, a, c) in w.relay
      && w.origins.Keys == {item.id} && w.assignments == {}
  {
    CreateEffect(addresses, nodes, a, item);
    OriginatedFirst(nodes, a, item);
    OfferEffect(addresses, Originate(Start(nodes), a, item, true), a, a, c);
    hide Next, Originate, MisaddressedClaim;
  }

  lemma CreateEffect(addresses: iset<string>, nodes: map<Address, string>, a: Address, item: Item)
    requires a in nodes && !Blank(item.id) && item.ValidForCreate()
    ensures Next(addresses, Start(nodes), CreateItem(a, item, true)) == Originate(Start(nodes), a, item, true)
  {
    hide Originate, Item.ValidForCreate, Blank;
  }

  lemma OfferEffect(addresses: iset<string>, w: World, a: Address, b: Address, c: QueueClaim)
    ensures Next(addresses, w, OfferClaim(a, b, c)) == w.(relay := w.relay + {ClaimMessage(a, b, c)})
  {}

  lemma OriginatedFirst(nodes: map<Address, string>, a: Address, item: Item)
    requires a in nodes
    ensures var w := Originate(Start(nodes), a, item, true);
      && a in w.boxes && w.boxes[a] == map[item.id := NewRecord(item, true)] && w.origins.Keys == {item.id}
      && w.assignments == {}
  {
    var w := Originate(Start(nodes), a, item, true);
    assert w.boxes[a] == map[item.id := NewRecord(item, true)];
  }

  lemma OpenForClaim(addresses: iset<string>, w: World, a: Address, item: Item, s: Step)
    requires a in w.boxes && w.boxes[a] == map[item.id := NewRecord(item, true)]
    requires s.IngestClaim? && s.m.ClaimMessage? && s.m.recipient == a && s.leased
      && MisaddressedClaim(addresses, item, s.m.claim)
    ensures LetIn(w, s) && !Answered(addresses, w.boxes[a], s.m.claim) && Claimable(Admitted(w, s).boxes[a][item.id])
  {
    var c := s.m.claim;
    NewItemOpen(item);
    LeasedBox(w, a, c, s.grant);
    var r' := Admitted(w, s).boxes[a][item.id];
    assert r'.item == item && r'.claim == Some(s.grant) && r'.events[|r'.events| - 1].typ == Claimed;
    LeasedItemOpen(r');
    hide Leased, Record.State, Claimable, NewRecord;
    assert forall x :: x in w.boxes[a] ==> x == item.id && w.boxes[a][x] == NewRecord(item, true);
    NewRecordIs(item);
  }

  lemma NewRecordIs(item: Item)
    ensures NewRecord(item, true).item == item && NewRecord(item, true).claim.None?
    ensures NewRecord(item, true).events == [Event(Created, item.from, map[])] && NewRecord(item, false).events == []
  {}

  lemma NewItemOpen(item: Item)
    requires item.Scope() == Sky10Network && item.QueueName() != ""
    ensures Claimable(NewRecord(item, true))
  {
    hide Item.Scope, Item.QueueName;
    assert NewRecord(item, true).State().Queued?;
  }

  lemma LeasedItemOpen(r: Record)
    requires r.item.Scope() == Sky10Network && r.item.QueueName() != "" && r.claim.Some?
    requires r.events != [] && r.events[|r.events| - 1].typ == Claimed
    ensures Claimable(r)
  {
    hide Item.Scope, Item.QueueName;
    assert r.State().InClaimed?;
  }

  /** A run that assigns one claim twice: the first assignment is made but marking the
      item fails, and the claim is ingested again. */
  lemma UnroutableClaimDuplicates(
      addresses: iset<string>, nodes: map<Address, string>, a: Address, item: Item, c: QueueClaim, grant: Lease,
      id: string, again: string)
      returns (steps: seq<Step>)
    requires a in nodes && MisaddressedClaim(addresses, item, c)
    requires !Blank(id) && !Blank(again) && id != item.id && again != item.id && id != again
    ensures {Assignment(a, c, id), Assignment(a, c, again)} <= Run(addresses, Start(nodes), steps).assignments
  {
    var m := ClaimMessage(a, a, c);
    var first, second := IngestClaim(m, grant, true, id, true, false), IngestClaim(m, grant, true, again, true, true);
    steps := [CreateItem(a, item, true), OfferClaim(a, a, c), first, second];
    OfferedWorld(addresses, nodes, a, item, c);
    hide Next, Run, MisaddressedClaim;
    var w := Unrolled(addresses, Start(nodes), steps);
    assert w[1] == Next(addresses, w[0], steps[0]) && w[2] == Next(addresses, w[1], steps[1]);
    assert w[3] == Next(addresses, w[2], first) && w[4] == Next(addresses, w[3], second);
    ReachedInv(addresses, nodes, steps, w);
    AssignedTwice(addresses, w[2], a, item, first, second);
  }

  lemma ReachedInv(addresses: iset<string>, nodes: map<Address, string>, steps: seq<Step>, w: seq<World>)
    requires |w| == |steps| + 1 && w[0] == Start(nodes) && forall i :: 0 <= i < |steps| ==>
        w[i + 1] == Next(addresses, w[i], steps[i])
    ensures forall i :: 0 <= i < |w| ==> Inv(addresses, w[i])
  {
    RunKeeps(addresses, nodes, []);
    hide Next, Inv;
    for n := 1 to |w|
      invariant forall i :: 0 <= i < n ==> Inv(addresses, w[i])
    {
      NextKeeps(addresses, w[n - 1], steps[n - 1]);
      assert w[n] == Next(addresses, w[n - 1], steps[n - 1]);
    }
  }

  /** Two ingestions of one claim, the first without marking the item. */
  lemma AssignedTwice(addresses: iset<string>, w: World, a: Address, item: Item, first: Step, second: Step)
    requires Inv(addresses, w) && first.IngestClaim? && first.m.ClaimMessage? && first.m in w.relay
      && first.m.recipient == a
    requires second.IngestClaim? && second.m == first.m && second.leased && first.leased && !first.marked
    requires MisaddressedClaim(addresses, item, first.m.claim)
    requires a in w.boxes && w.boxes[a] == map[item.id := NewRecord(item, true)] && w.origins.Keys == {item.id}
    requires !Blank(first.assignmentId) && !Blank(second.assignmentId) && first.assignmentId != second.assignmentId
    requires first.assignmentId != item.id && second.assignmentId != item.id
    ensures var c := first.m.claim;
      {Assignment(a, c, first.assignmentId), Assignment(a, c, second.assignmentId)}
      <= Next(addresses, Next(addresses, w, first), second).assignments
  {
    var c, w' := first.m.claim, Next(addresses, w, first);
    FirstIsOpen(addresses, w, a, item, first, second.assignmentId);
    hide MisaddressedClaim, Next, Inv, LetIn, Answered, Admitted, Claimable, AssignmentItem, NewRecord, Blank;
    AssignedFirst(addresses, w, item, first, second.assignmentId);
    LetInLikewise(w', first, second);
    AssignsWhen(addresses, w', second, item);
  }

  lemma AssignedFirst(addresses: iset<string>, w: World, item: Item, s: Step, again: string)
    requires Inv(addresses, w) && s.IngestClaim? && s.m in w.relay && s.m.ClaimMessage? && LetIn(w, s) && !s.marked
      && s.leased
    requires var a, c := s.m.recipient, s.m.claim;
      && !Blank(c.agentId) && !c.Routable(addresses) && !Answered(addresses, w.boxes[a], c)
      && item == w.boxes[a][c.itemId].item && Fresh(w, s.assignmentId)
      && AssignmentItem(item, c, s.assignmentId).ValidForCreate() && Claimable(Admitted(w, s).boxes[a][c.itemId])
    requires Fresh(w, again) && again != s.assignmentId
    ensures var w', a, c := Next(addresses, w, s), s.m.recipient, s.m.claim;
      && Inv(addresses, w') && LetIn(w', s) && !Answered(addresses, w'.boxes[a], c) && s.m in w'.relay
      && w'.boxes[a][c.itemId].item == item && Fresh(w', again) && Assignment(a, c, s.assignmentId) in w'.assignments
  {
    hide Next, Inv, LetIn, Answered, Admitted, Claimable, AssignmentItem, Blank;
    UnmarkedStaysOpen(addresses, w, s);
    NextKeeps(addresses, w, s);
    AssignsWhen(addresses, w, s, item);
  }

  lemma AssignsWhen(addresses: iset<string>, w: World, s: Step, item: Item)
    requires Inv(addresses, w) && s.IngestClaim? && s.m in w.relay && s.m.ClaimMessage? && LetIn(w, s)
    requires item == w.boxes[s.m.recipient][s.m.claim.itemId].item
      && !Answered(addresses, w.boxes[s.m.recipient], s.m.claim)
    requires Fresh(w, s.assignmentId) && AssignmentItem(item, s.m.claim, s.assignmentId).ValidForCreate()
    ensures Next(addresses, w, s).assignments == w.assignments + {Assignment(s.m.recipient, s.m.claim, s.assignmentId)}
  {
    AssignsIff(addresses, w, s);
    hide Next, Inv, Answered;
  }

  lemma LetInLikewise(w: World, s: Step, t: Step)
    requires s.IngestClaim? && t.IngestClaim? && s.m.ClaimMessage? && t.m == s.m && t.leased == s.leased && LetIn(w, s)
    ensures LetIn(w, t)
  {}

  lemma FirstIsOpen(addresses: iset<string>, w: World, a: Address, item: Item, s: Step, again: string)
    requires s.IngestClaim? && s.m.ClaimMessage? && s.m.recipient == a && s.leased
      && MisaddressedClaim(addresses, item, s.m.claim)
    requires a in w.boxes && w.boxes[a] == map[item.id := NewRecord(item, true)] && w.origins.Keys == {item.id}
    requires !Blank(s.assignmentId) && s.assignmentId != item.id
    ensures var c := s.m.claim;
      && LetIn(w, s) && c.itemId == item.id && w.boxes[a][c.itemId].item == item && !Answered(addresses, w.boxes[a], c)
      && Claimable(Admitted(w, s).boxes[a][c.itemId]) && !Blank(c.agentId) && !c.Routable(addresses)
      && Fresh(w, s.assignmentId)
      && AssignmentItem(item, c, s.assignmentId).ValidForCreate() && AssignmentItem(item, c, again).ValidForCreate()
  {
    OpenForClaim(addresses, w, a, item, s);
    hide LetIn, Answered, Admitted, Claimable;
    assert AssignmentItem(item, s.m.claim, "").ValidForCreate();
  }

  // ---- Compaction and replay ------------------------------------------------------------

  /** Replaying a relay item creates the record again exactly when every record of it
      the node had was compacted. */
  lemma RecreatedIff(addresses: iset<string>, w: World, m: Message, logged: bool)
    requires Inv(addresses, w) && m in w.relay && m.ItemMessage? && m.recipient in w.boxes && m.item.ValidForCreate()
    ensures var w', h := Next(addresses, w, IngestItem(m, logged)), Holding(m.recipient, m.item.id);
      if w.born[h] == w.dropped[h] then
        w' == AddRecord(w, m.recipient, m.item, logged) && w'.born[h] == w.born[h] + 1
      else
        w' == w
  {
    assert Balanced(w, Holding(m.recipient, m.item.id));
    ItemEffect(addresses, w, m, logged);
    hide Next, Inv;
  }

  /** A delivered or terminal record that is compacted and then replayed starts over
      with an empty history. */
  lemma CompactedThenReplayed(addresses: iset<string>, w: World, m: Message)
    requires Inv(addresses, w) && m in w.relay && m.ItemMessage? && m.item.ValidForCreate()
    requires Holds(w, m.recipient, m.item.id) && Retirable(w.boxes[m.recipient][m.item.id])
    ensures var w1 := Next(addresses, w, Compact(m.recipient, m.item.id));
        var w2 := Next(addresses, w1, IngestItem(m, true));
      && !Holds(w1, m.recipient, m.item.id) && Holds(w2, m.recipient, m.item.id)
      && w2.boxes[m.recipient][m.item.id].events == [Event(Created, m.item.from, map[])]
      && w2.born[Holding(m.recipient, m.item.id)] == w.born[Holding(m.recipient, m.item.id)] + 1
  {
    var w1 := Next(addresses, w, Compact(m.recipient, m.item.id));
    assert w1 == DropRecord(w, m.recipient, m.item.id);
    hide Next, Retirable, Item.ValidForCreate;
    RecordDropped(addresses, w, m.recipient, m.item.id);
    assert Balanced(w1, Holding(m.recipient, m.item.id));
    hide Inv;
    assert w1.born == w.born && m in w1.relay && m.recipient in w1.boxes;
    hide DropRecord;
    RecreatedIff(addresses, w1, m, true);
  }

  // ---- Deliveries nobody else holds ---------------------------------------------------------

  /** A receipt names another node exactly when the item is not addressed to the
      node that sent it. */
  lemma ReceiptFromAnotherNode(
        addresses: iset<string>, nodes: map<Address, string>, steps: seq<Step>, a: Address, id: string, e: Event)
    requires var w := Run(addresses, Start(nodes), steps); Holds(w, a, id) && e in w.boxes[a][id].events
    requires e.typ.Delivered? && e.Meta("transport") == "nostr_dropbox"
    ensures var w := Run(addresses, Start(nodes), steps);
      (e.actor.id != a && HasHeld(w, e.actor.id, id)) <==> w.boxes[a][id].item.Target(addresses) != a
  {
    DeliveredMeansHeld(addresses, nodes, steps, a, id, e);
  }

  /** `a` holds `r` under `id`, and no other node ever held the item. */
  ghost predicate Alone(w: World, a: Address, id: string, r: Record) {
    Holds(w, a, id) && w.boxes[a][id] == r && Unshared(w.born, a, id)
  }

  ghost predicate Unshared(born: multiset<Holding>, a: Address, id: string) {
    forall q :: q != a ==> Holding(q, id) !in born
  }

  lemma AloneCreates(addresses: iset<string>, nodes: map<Address, string>, a: Address, item: Item)
    requires a in nodes && !Blank(item.id) && item.ValidForCreate()
    ensures Alone(Next(addresses, Start(nodes), CreateItem(a, item, true)), a, item.id, NewRecord(item, true))
  {}

  lemma AloneLists(addresses: iset<string>, w: World, a: Address, id: string, r: Record)
    requires Alone(w, a, id, r)
    ensures var w' := Next(addresses, w, List(a, id)); Alone(w', a, id, r) && Delivery(a, r, Listed) in w'.deliveries
  {
    hide Unshared;
  }

  lemma AloneTries(addresses: iset<string>, w: World, a: Address, r: Record)
    requires Alone(w, a, r.item.id, r) && Delivery(a, r, Listed) in w.deliveries
    requires a != "" && r.item.Target(addresses) == a && r.State().Queued?
    ensures var w' := Next(addresses, w, Attempt(Delivery(a, r, Listed)));
      Alone(w', a, r.item.id, r.Append(AttemptedEvent(a, "skylink", a))) && Delivery(a, r, Sending) in w'.deliveries
  {
    AttemptEffect(addresses, w, Delivery(a, r, Listed));
    hide Next, Unshared, AttemptedEvent, Item.Target;
  }

  lemma AloneFails(addresses: iset<string>, w: World, a: Address, listed: Record, r: Record)
    requires Alone(w, a, listed.item.id, r) && Delivery(a, listed, Sending) in w.deliveries
      && listed.item.Target(addresses) == a
    requires !EverHandedOff(listed)
    ensures var w' := Next(addresses, w, LiveFails(Delivery(a, listed, Sending)));
      Alone(w', a, listed.item.id, r.Append(AttemptedEvent(a, "nostr_dropbox", a)))
          && Delivery(a, listed, HandingOff) in w'.deliveries
  {
    LiveFailEffect(addresses, w, Delivery(a, listed, Sending));
    hide Next, FallBack, EverHandedOff, AttemptedEvent, Item.Target, Unshared;
  }

  lemma AlonePublishes(addresses: iset<string>, w: World, a: Address, listed: Record, r: Record)
    requires Alone(w, a, listed.item.id, r) && Delivery(a, listed, HandingOff) in w.deliveries
    ensures var w' := Next(addresses, w, Publish(Delivery(a, listed, HandingOff)));
      Alone(w', a, listed.item.id, r) && Handoff(addresses, a, listed.item.Wire()) in w'.relay
  {
    PublishEffect(addresses, w, Delivery(a, listed, HandingOff));
    hide Next, Unshared;
  }

  lemma AloneConfirms(addresses: iset<string>, w: World, a: Address, id: string, r: Record, m: Message)
    requires Alone(w, a, id, r) && m in w.relay && m.ItemMessage? && m.recipient == m.sender == a
      && TrimSpace(a) in addresses
    requires m.item.id == id == m.handoffId && !Blank(id) && (forall e :: e in r.events ==> !e.typ.Delivered?)
    ensures var w' := Next(addresses, Next(addresses, w, SendReceipt(m)), IngestReceipt(Receipt(m), ""));
      Alone(w', a, id, r.Append(ReceiptEvent(Receipt(m), id, "")))
  {
    var w1, confirmed := Next(addresses, w, SendReceipt(m)), Receipt(m);
    ReceiptEffect(addresses, w, m);
    assert confirmed.itemId == id == Coalesce(confirmed.handoffId, id) && confirmed.recipient == a;
    assert !r.Has(Delivered, "handoff_id", id);
    hide Unshared;
    assert Next(addresses, w1, IngestReceipt(confirmed, "")) == AddEvent(w1, a, id, ReceiptEvent(confirmed, id, ""));
    hide Next, ReceiptEvent;
  }

  lemma NoneDelivered(item: Item, a: Address, r: Record)
    requires r == NewRecord(item, true)
        .Append(AttemptedEvent(a, "skylink", a)).Append(AttemptedEvent(a, "nostr_dropbox", a))
    ensures forall e :: e in r.events ==> !e.typ.Delivered?
  {}

  lemma SelfRoute(addresses: iset<string>, a: Address, item: Item)
    requires a != "" && item.Target(addresses) == a
    ensures TrimSpace(a) in addresses
    ensures var m := Handoff(addresses, a, item.Wire()); m.ItemMessage? && m.sender == a
  {}

  lemma HandoffToSelf(addresses: iset<string>, a: Address, item: Item)
    requires item.Target(addresses) == a
    ensures var m := Handoff(addresses, a, item.Wire()); m.recipient == a && m.item.id == item.id == m.handoffId
  {
    EssenceKeepsRoute(item, item.Wire(), addresses);
  }

  /** A node can end up with a receipt for an item it addressed to itself, which no
      other node ever held. */
  lemma SelfAddressedReceipt(
        addresses: iset<string>, nodes: map<Address, string>, a: Address, item: Item)
        returns (steps: seq<Step>, e: Event)
    requires a in nodes && a != "" && item.Target(addresses) == a && !Blank(item.id) && item.ValidForCreate()
    ensures var w := Run(addresses, Start(nodes), steps);
      && Holds(w, a, item.id) && w.boxes[a][item.id].item == item && e in w.boxes[a][item.id].events
      && e.typ.Delivered? && e.Meta("transport") == "nostr_dropbox" && !HeldElsewhere(w, a, item.id)
  {
    hide Next, Run, Start, Item.Target, Item.ValidForCreate;
    var id, r, m := item.id, NewRecord(item, true), Handoff(addresses, a, item.Wire());
    var r1 := r.Append(AttemptedEvent(a, "skylink", a));
    var r2 := r1.Append(AttemptedEvent(a, "nostr_dropbox", a));
    var s := [CreateItem(a, item, true), List(a, id), Attempt(Delivery(a, r, Listed)),
              LiveFails(Delivery(a, r, Sending)),
              Publish(Delivery(a, r, HandingOff)), SendReceipt(m), IngestReceipt(Receipt(m), "")];
    steps, e := s, ReceiptEvent(Receipt(m), id, "");
    AloneToTheEnd(addresses, nodes, a, item, r, r1, r2, m, s);
    var w, last := Run(addresses, Start(nodes), s), r2.Append(e);
    assert Alone(w, a, item.id, last) && e in last.events && last.item == item;
  }

  lemma AloneToTheEnd(
      addresses: iset<string>, nodes: map<Address, string>, a: Address, item: Item, r: Record, r1: Record, r2: Record,
      m: Message, s: seq<Step>)
    requires a in nodes && a != "" && item.Target(addresses) == a && !Blank(item.id) && item.ValidForCreate()
    requires r == NewRecord(item, true) && m == Handoff(addresses, a, item.Wire())
    requires r1 == r.Append(AttemptedEvent(a, "skylink", a)) && r2 == r1.Append(AttemptedEvent(a, "nostr_dropbox", a))
    requires s == [CreateItem(a, item, true), List(a, item.id), Attempt(Delivery(a, r, Listed)),
                   LiveFails(Delivery(a, r, Sending)),
                   Publish(Delivery(a, r, HandingOff)), SendReceipt(m), IngestReceipt(Receipt(m), "")]
    ensures Alone(Run(addresses, Start(nodes), s), a, item.id, r2.Append(ReceiptEvent(Receipt(m), item.id, "")))
  {
    hide Next, Run, Receipt, Handoff, Item.Target, Item.ValidForCreate, Start, Blank;
    var w := Unrolled(addresses, Start(nodes), s);
    assert w[1] == Next(addresses, w[0], s[0]) && w[2] == Next(addresses, w[1], s[1])
      && w[3] == Next(addresses, w[2], s[2]);
    assert w[4] == Next(addresses, w[3], s[3]) && w[5] == Next(addresses, w[4], s[4])
      && w[6] == Next(addresses, w[5], s[5]);
    assert w[7] == Next(addresses, w[6], s[6]);
    AloneFirst(addresses, nodes, a, item, r, w[1], w[2], w[3]);
    AloneThen(addresses, a, item, r, r1, w[3], w[4], w[5]);
    AloneLast(addresses, a, item, r, r1, r2, m, w[5]);
  }

  lemma AloneFirst(
      addresses: iset<string>, nodes: map<Address, string>, a: Address, item: Item, r: Record,
      w1: World, w2: World, w3: World)
    requires a in nodes && a != "" && item.Target(addresses) == a && !Blank(item.id) && item.ValidForCreate()
      && r == NewRecord(item, true)
    requires w1 == Next(addresses, Start(nodes), CreateItem(a, item, true))
      && w2 == Next(addresses, w1, List(a, item.id))
    requires w3 == Next(addresses, w2, Attempt(Delivery(a, r, Listed)))
    ensures Alone(w3, a, item.id, r.Append(AttemptedEvent(a, "skylink", a))) && Delivery(a, r, Sending) in w3.deliveries
  {
    hide Next, Start;
    AloneCreates(addresses, nodes, a, item);
    AloneLists(addresses, w1, a, item.id, r);
    AloneTries(addresses, w2, a, r);
  }

  lemma AloneThen(
        addresses: iset<string>, a: Address, item: Item, r: Record, r1: Record, w3: World, w4: World, w5: World)
    requires item.Target(addresses) == a && r == NewRecord(item, true)
    requires Alone(w3, a, item.id, r1) && Delivery(a, r, Sending) in w3.deliveries
    requires w4 == Next(addresses, w3, LiveFails(Delivery(a, r, Sending)))
      && w5 == Next(addresses, w4, Publish(Delivery(a, r, HandingOff)))
    ensures Alone(w5, a, item.id, r1.Append(AttemptedEvent(a, "nostr_dropbox", a)))
      && Handoff(addresses, a, item.Wire()) in w5.relay
  {
    hide Next, Handoff;
    AloneFails(addresses, w3, a, r, r1);
    AlonePublishes(addresses, w4, a, r, r1.Append(AttemptedEvent(a, "nostr_dropbox", a)));
  }

  lemma AloneLast(
        addresses: iset<string>, a: Address, item: Item, r: Record, r1: Record, r2: Record, m: Message, w5: World)
    requires a != "" && item.Target(addresses) == a && !Blank(item.id)
    requires r == NewRecord(item, true) && m == Handoff(addresses, a, item.Wire())
    requires r1 == r.Append(AttemptedEvent(a, "skylink", a)) && r2 == r1.Append(AttemptedEvent(a, "nostr_dropbox", a))
    requires Alone(w5, a, item.id, r2) && m in w5.relay
    ensures Alone(Next(addresses, Next(addresses, w5, SendReceipt(m)), IngestReceipt(Receipt(m), "")), a, item.id,
                  r2.Append(ReceiptEvent(Receipt(m), item.id, "")))
  {
    hide Next, Handoff, Item.Target, TrimSpace, Blank;
    NoneDelivered(item, a, r2);
    SelfRoute(addresses, a, item);
    HandoffToSelf(addresses, a, item);
    hide AttemptedEvent, NewRecord;
    AloneConfirms(addresses, w5, a, item.id, r2, m);
  }

  /** A message from the device's own id can be sent privately and count as delivered
      although no other node ever held it, whatever its scope. */
  lemma PrivateDelivery(
        addresses: iset<string>, nodes: map<Address, string>, a: Address, item: Item)
        returns (steps: seq<Step>, e: Event)
    requires a in nodes && !Blank(item.id) && item.ValidForCreate() && PrivatelySent(nodes, a, item)
    ensures var w := Run(addresses, Start(nodes), steps);
      && Holds(w, a, item.id) && w.boxes[a][item.id].item == item && e in w.boxes[a][item.id].events
      && e.typ.Delivered? && e.Meta("transport") == "skylink" && !HeldElsewhere(w, a, item.id)
  {
    hide Next, Run, LocalEvent, RouterActor, PrivatelySent;
    e := Event(Delivered, RouterActor(a), map["transport" := "skylink", "device_id" := ""]);
    steps := [CreateItem(a, item, true), Local(a, item.id, e)];
    var w := Unrolled(addresses, Start(nodes), steps);
    assert w[1] == Next(addresses, w[0], steps[0]) && w[2] == Next(addresses, w[1], steps[1]);
    AloneCreates(addresses, nodes, a, item);
    AloneSends(addresses, nodes, a, item, e);
  }

  lemma AloneSends(addresses: iset<string>, nodes: map<Address, string>, a: Address, item: Item, e: Event)
    requires a in nodes && !Blank(item.id) && item.ValidForCreate() && PrivatelySent(nodes, a, item)
    requires e == Event(Delivered, RouterActor(a), map["transport" := "skylink", "device_id" := ""])
    ensures var w := Next(addresses, Start(nodes), CreateItem(a, item, true));
      Alone(Next(addresses, w, Local(a, item.id, e)), a, item.id, NewRecord(item, true).Append(e))
      && e.Meta("transport") == "skylink"
  {
    var w := Next(addresses, Start(nodes), CreateItem(a, item, true));
    AloneCreates(addresses, nodes, a, item);
    CreateEffect(addresses, nodes, a, item);
    assert w.devices == nodes && e.Meta("transport") == "skylink";
    assert LocalEvent(w, a, item, e);
    hide LocalEvent, RouterActor, PrivatelySent, Originate;
    assert Next(addresses, w, Local(a, item.id, e)) == AddEvent(w, a, item.id, e);
    hide Next;
  }

  /** A delivery that was not a local hand-over. */
  predicate Remote(e: Event) { e.typ.Delivered? && e.Meta("transport") != "local_registry" }

  /** In every run, a remote delivery on `a`'s record of the item means that another
      node has held it. */
  ghost predicate Trustworthy(addresses: iset<string>, nodes: map<Address, string>, a: Address, item: Item) {
    forall steps, e :: Claims(Run(addresses, Start(nodes), steps), a, item, e) ==>
      HeldElsewhere(Run(addresses, Start(nodes), steps), a, item.id)
  }

  ghost predicate Claims(w: World, a: Address, item: Item, e: Event) {
    Holds(w, a, item.id) && w.boxes[a][item.id].item == item && e in w.boxes[a][item.id].events && Remote(e)
  }

  /** That holds exactly for items that are not messages from the device's own id and
      not addressed to the node itself. */
  lemma TrustworthyIff(addresses: iset<string>, nodes: map<Address, string>, a: Address, item: Item)
    requires a in nodes && a != "" && !Blank(item.id) && item.ValidForCreate()
    ensures Trustworthy(addresses, nodes, a, item) <==>
      && !(item.inline.MessageInline? && (nodes[a] == "" || item.from.id == nodes[a]))
      && item.Target(addresses) != a
  {
    hide Run, Start, Item.Target, Item.ValidForCreate, Blank;
    if PrivatelySent(nodes, a, item) {
      var steps, e := PrivateDelivery(addresses, nodes, a, item);
      assert Claims(Run(addresses, Start(nodes), steps), a, item, e);
    } else if item.Target(addresses) == a {
      var steps, e := SelfAddressedReceipt(addresses, nodes, a, item);
      assert Claims(Run(addresses, Start(nodes), steps), a, item, e);
    } else {
      forall steps, e | Claims(Run(addresses, Start(nodes), steps), a, item, e)
        ensures HeldElsewhere(Run(addresses, Start(nodes), steps), a, item.id)
      {
        DeliveredMeansHeld(addresses, nodes, steps, a, item.id, e);
      }
    }
  }
}
