/** Durable mailbox records (pkg/agent/mailbox) and the router's scans over them. */
module Mailbox {
  import opened Ordering

  // ---- Strings ------------------------------------------------------------

  predicate IsSpace(c: char) {
    c == ' ' || '\t' <= c <= '\r' || c == '\U{85}' || c == '\U{A0}' || c == '\U{1680}'
    || '\U{2000}' <= c <= '\U{200A}' || c == '\U{2028}' || c == '\U{2029}' || c == '\U{202F}'
    || c == '\U{205F}' || c == '\U{3000}'
  }

  function TrimSpace(s: string): (r: string)
    ensures r != [] ==> !IsSpace(r[0]) && !IsSpace(r[|r| - 1])
    ensures |r| <= |s| && (r == s <==> s == [] || (!IsSpace(s[0]) && !IsSpace(s[|s| - 1])))
  {
    if s == [] then s
    else if IsSpace(s[0]) then TrimSpace(s[1..])
    else if IsSpace(s[|s| - 1]) then TrimSpace(s[..|s| - 1])
    else s
  }

  /** Trimming drops the spaces at both ends and nothing else. */
  lemma {:induction false} TrimmedPart(s: string) returns (i: nat, j: nat)
    ensures i <= j <= |s| && TrimSpace(s) == s[i..j]
    ensures forall k :: 0 <= k < i || j <= k < |s| ==> IsSpace(s[k])
  {
    i, j := 0, |s|;
    if s != [] {
      if IsSpace(s[0]) {
        i, j := TrimmedPart(s[1..]);
        assert s[1..][i..j] == s[i + 1..j + 1];
        assert forall k :: 1 <= k < |s| ==> s[k] == s[1..][k - 1];
        i, j := i + 1, j + 1;
      } else if IsSpace(s[|s| - 1]) {
        i, j := TrimmedPart(s[..|s| - 1]);
        assert s[..|s| - 1][i..j] == s[i..j];
        assert forall k :: 0 <= k < |s| - 1 ==> s[k] == s[..|s| - 1][k];
      }
    }
  }

  predicate Blank(s: string) { TrimSpace(s) == "" }

  /** The first value that is not blank. */
  function Coalesce(a: string, b: string): (r: string)
    ensures r == "" <==> Blank(a) && Blank(b)
    ensures r != "" ==> !Blank(r) && (r == a || (r == b && Blank(a)))
    ensures (!Blank(a) ==> r == a) && (Blank(a) && !Blank(b) ==> r == b)
  {
    if !Blank(a) then a else if !Blank(b) then b else ""
  }

  // ---- Principals and items -----------------------------------------------

  const PrivateNetwork := "private_network"
  const Sky10Network := "sky10_network"
  const NetworkAgent := "network_agent"
  const CapabilityQueue := "capability_queue"

  datatype Principal = Principal(id: string, kind: string, scope: string, deviceHint: string, routeHint: string) {
    function Scope(): string {
      if Blank(scope) then PrivateNetwork else TrimSpace(scope)
    }

    /** The sky10 address to reach this principal at, or "". `addresses` are the
        strings that parse as addresses. */
    function RouteAddress(addresses: iset<string>): (r: string)
      ensures r != "" ==> r in addresses && TrimSpace(r) == r && Scope() == Sky10Network
    {
      if Scope() != Sky10Network then ""
      else if !Blank(routeHint) && TrimSpace(routeHint) in addresses then Trimmed(routeHint)
      else if !Blank(id) && TrimSpace(id) in addresses then Trimmed(id)
      else ""
    }
  }

  /** The route hint is tried before the id, and only on the public network. */
  lemma RouteMeans(p: Principal, addresses: iset<string>)
    ensures var r, hint, id := p.RouteAddress(addresses), TrimSpace(p.routeHint), TrimSpace(p.id);
      r == if TrimSpace(p.scope) != "sky10_network" then ""
           else if hint != "" && hint in addresses then hint
           else if id != "" && id in addresses then id
           else ""
  {
    hide TrimSpace, IsSpace;
  }

  function Trimmed(s: string): (r: string)
    ensures r == TrimSpace(s) && TrimSpace(r) == r
  {
    TrimSpace(s)
  }

  /** Bytes stored outside the envelope. */
  datatype PayloadRef = PayloadRef(kind: string, key: string, size: int, digest: string) {
    predicate Valid() {
      kind != "" && key != "" && size >= 0 && (digest == "" || |digest| >= |"sha256:"| + 64)
    }
  }

  /** The inline payload, by whether it parses as a message. */
  datatype Inline = NoInline | MessageInline(text: string) | OtherInline(text: string)

  /** Everything the router looks at; `body` stands for the rest of the envelope. */
  datatype Item = Item(
    id: string, kind: string, from: Principal, to: Option<Principal>, targetSkill: string,
    replyTo: string, idempotencyKey: string, inline: Inline, reference: Option<PayloadRef>, body: string)
  {
    function Scope(): string {
      if to.Some? then to.value.Scope() else from.Scope()
    }

    function QueueName(): string {
      if to.Some? && to.value.kind == CapabilityQueue then TrimSpace(to.value.id)
      else if !Blank(targetSkill) then "skill:" + TrimSpace(targetSkill)
      else ""
    }

    function Target(addresses: iset<string>): string {
      if to.Some? then to.value.RouteAddress(addresses) else ""
    }

    predicate ValidForCreate() {
      && !Blank(kind) && !Blank(from.id)
      && (to.Some? ==> !Blank(to.value.id))
      && (to.None? ==> !Blank(targetSkill))
      && (reference.Some? ==> reference.value.Valid())
    }

    /** The copy put on the wire: the recipient's device hint is cleared. */
    function Wire(): Item {
      if to.Some? then this.(to := Some(to.value.(deviceHint := ""))) else this
    }

    /** What a transfer may not change. */
    function Essence(): Item {
      Wire().(from := from.(routeHint := ""))
    }
  }

  /** An item belongs to its recipient's network, or its sender's if it is for anyone
      with a skill; a principal that names none is on the private network. */
  lemma ScopeMeans(item: Item)
    ensures var p := if item.to.Some? then item.to.value else item.from;
      item.Scope() == if TrimSpace(p.scope) == "" then "private_network" else TrimSpace(p.scope)
  {
    hide TrimSpace;
  }

  /** It is in a queue if it is addressed to one or else names a skill. */
  lemma QueueMeans(item: Item)
    ensures var queued := item.to.Some? && item.to.value.kind == "capability_queue";
      item.QueueName() ==
      if queued then TrimSpace(item.to.value.id)
      else if TrimSpace(item.targetSkill) == "" then "" else "skill:" + TrimSpace(item.targetSkill)
  {
    hide TrimSpace;
  }

  lemma TargetMeans(item: Item, addresses: iset<string>)
    ensures item.Target(addresses) != "" <==> item.to.Some? && item.to.value.RouteAddress(addresses) != ""
    ensures item.to.Some? ==> item.Target(addresses) == item.to.value.RouteAddress(addresses)
  {
    hide TrimSpace, Principal.RouteAddress;
  }

  /** What may be stored: a kind, a sender, a recipient or a skill, and a sound payload
      reference if there is one. */
  lemma CreatableIff(item: Item)
    ensures item.ValidForCreate() <==>
      && TrimSpace(item.kind) != "" && TrimSpace(item.from.id) != ""
      && (if item.to.Some? then TrimSpace(item.to.value.id) != "" else TrimSpace(item.targetSkill) != "")
      && (item.reference.Some? ==>
            var ref := item.reference.value;
            && ref.kind != "" && ref.key != "" && 0 <= ref.size && (ref.digest == "" || |ref.digest| >= 71))
  {
    hide TrimSpace;
    assert |"sha256:"| == 7;
  }

  /** A transfer may change the recipient's device hint, which the wire copy clears, and
      the sender's route hint, and nothing else. */
  lemma SameEssenceIff(a: Item, b: Item)
    ensures a.Essence() == b.Essence() <==>
      && a == b.(from := b.from.(routeHint := a.from.routeHint), to := a.to)
      && (a.to.Some? <==> b.to.Some?)
      && (a.to.Some? ==> a.to.value == b.to.value.(deviceHint := a.to.value.deviceHint))
    ensures a.Wire().from == a.from && a.Wire().Essence() == a.Essence()
    ensures a.to.Some? ==> a.Wire().to.Some? && a.Wire().to.value.deviceHint == ""
  {}

  // ---- Events, states, records ----------------------------------------------

  datatype EventType =
    | Created | DeliveryAttempted | HandedOff | Delivered | DeliveryFailed | Seen | Claimed | Assigned
    | LeaseExpired | Approved | Rejected | Completed | Cancelled | Expired | DeadLettered | OtherEvent(name: string)

  datatype Event = Event(typ: EventType, actor: Principal, meta: map<string, string>) {
    /** Indexing a missing key gives the empty string. */
    function Meta(key: string): string {
      if key in meta then meta[key] else ""
    }
  }

  datatype MailboxState =
    | Queued | InDelivered | InClaimed | InAssigned | InApproved | InCompleted | InRejected
    | InCancelled | InExpired | InFailed | InDeadLettered
  {
    predicate Terminal() {
      InAssigned? || InCompleted? || InRejected? || InCancelled? || InExpired? || InDeadLettered?
    }
  }

  datatype Lease = Lease(holder: string, token: string)

  datatype Record = Record(item: Item, events: seq<Event>, claim: Option<Lease>) {
    function State(): MailboxState {
      var latest := if events == [] then Queued else StateFor(events[|events| - 1].typ);
      if claim.Some? && !latest.Terminal() && latest != InFailed then InClaimed
      else if claim.None? && latest == InClaimed then Queued
      else latest
    }

    ghost predicate Has(typ: EventType, key: string, value: string) {
      exists e :: e in events && e.typ == typ && e.Meta(key) == value
    }

    function Append(e: Event): Record {
      this.(events := events + [e])
    }
  }

  function StateFor(typ: EventType): MailboxState {
    match typ
    case Delivered | Seen => InDelivered
    case Claimed => InClaimed
    case Assigned => InAssigned
    case Approved => InApproved
    case Completed => InCompleted
    case Rejected => InRejected
    case Cancelled => InCancelled
    case Expired => InExpired
    case DeadLettered => InDeadLettered
    case DeliveryFailed => InFailed
    case Created | DeliveryAttempted | HandedOff | LeaseExpired | OtherEvent(_) => Queued
  }

  type Box = map<string, Record>

  /** What a record's state says about its last event and its lease: a lease shows
      unless the record is terminal or has failed. */
  lemma StateMeans(r: Record)
    ensures var last := if r.events == [] then Created else r.events[|r.events| - 1].typ;
      && (r.State().Terminal() <==> last in {Assigned, Completed, Rejected, Cancelled, Expired, DeadLettered})
      && (r.State().InAssigned? <==> last.Assigned?) && (r.State().InCompleted? <==> last.Completed?)
      && (r.State().InRejected? <==> last.Rejected?) && (r.State().InCancelled? <==> last.Cancelled?)
      && (r.State().InExpired? <==> last.Expired?) && (r.State().InDeadLettered? <==> last.DeadLettered?)
      && (r.State().InFailed? <==> last.DeliveryFailed?)
      && (r.State().InDelivered? <==> r.claim.None? && last in {Delivered, Seen})
      && (r.State().InApproved? <==> r.claim.None? && last.Approved?)
      && (r.State().InClaimed? <==> r.claim.Some? && !r.State().Terminal() && !last.DeliveryFailed?)
  {}

  /** At most one position of the timeline satisfies `f`. */
  ghost predicate Once(events: seq<Event>, f: Event -> bool) {
    forall i, j :: 0 <= i < |events| && 0 <= j < |events| && f(events[i]) && f(events[j]) ==> i == j
  }

  lemma AppendOnce(events: seq<Event>, e: Event, f: Event -> bool)
    requires Once(events, f) && (f(e) ==> forall x :: x in events ==> !f(x))
    ensures Once(events + [e], f)
  {
    forall i, j | 0 <= i < |events| + 1 && 0 <= j < |events| + 1 && f((events + [e])[i]) && f((events + [e])[j])
      ensures i == j
    {
      if i < |events| { assert events[i] in events; }
      if j < |events| { assert events[j] in events; }
    }
  }

  /** A forward scan, stopping at the first match. */
  method HasMailboxEvent(record: Record, typ: EventType, key: string, value: string) returns (found: bool)
    ensures found <==> record.Has(typ, key, value)
  {
    for i := 0 to |record.events|
      invariant forall j :: 0 <= j < i ==> !(record.events[j].typ == typ && record.events[j].Meta(key) == value)
    {
      if record.events[i].typ == typ && record.events[i].Meta(key) == value { return true; }
    }
    found := false;
  }

  /** A backward scan: the handoff id of the latest handed_off event, or the item
      id when that event does not name one. */
  method RelayHandoffForRecord(record: Record) returns (handoff: Option<string>)
    ensures handoff.None? <==> forall e :: e in record.events ==> e.typ != HandedOff
    ensures handoff.Some? ==> exists i ::
      && 0 <= i < |record.events| && record.events[i].typ == HandedOff
      && (forall j :: i < j < |record.events| ==> record.events[j].typ != HandedOff)
      && var named := TrimSpace(record.events[i].Meta("handoff_id"));
         handoff.value == if named != "" then named else record.item.id
  {
    var i := |record.events|;
    while i > 0
      invariant 0 <= i <= |record.events|
      invariant forall j :: i <= j < |record.events| ==> record.events[j].typ != HandedOff
    {
      i := i - 1;
      if record.events[i].typ == HandedOff {
        assert record.events[i] in record.events;
        var named := TrimSpace(record.events[i].Meta("handoff_id"));
        return Some(if named != "" then named else record.item.id);
      }
    }
    handoff := None;
  }

  /** Clearing hints on the way does not change where an item is routed. */
  lemma EssenceKeepsRoute(a: Item, b: Item, addresses: iset<string>)
    requires a.Essence() == b.Essence()
    ensures a.Target(addresses) == b.Target(addresses) && a.id == b.id
  {
    if a.to.Some? {
      assert a.Essence().to.value.RouteAddress(addresses) == a.to.value.RouteAddress(addresses);
      assert b.Essence().to.value.RouteAddress(addresses) == b.to.value.RouteAddress(addresses);
    }
  }
}
