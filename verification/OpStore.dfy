/** Envelopes around encrypted ops, and reading the shared log back (pkg/fs/op.go). */
module OpStore {
  import opened Ordering
  import opened OpReplay
  import opened OpKeys

  const EnvelopeSize := 22
  /** Schema version 1.1.0. */
  const Major: byte := 1
  const Minor: byte := 1
  const Patch: byte := 0

  function Pow256(n: nat): nat { if n == 0 then 1 else 256 * Pow256(n - 1) }

  function BigEndian(u: nat, n: nat): (s: seq<byte>)
    ensures |s| == n
  {
    if n == 0 then [] else BigEndian(u / 256, n - 1) + [u % 256]
  }

  function FromBigEndian(s: seq<byte>): nat {
    if s == [] then 0 else 256 * FromBigEndian(s[..|s| - 1]) + s[|s| - 1]
  }

  lemma {:induction false} BigEndianInverse(u: nat, n: nat)
    requires u < Pow256(n)
    ensures FromBigEndian(BigEndian(u, n)) == u
  {
    if n > 0 {
      BigEndianInverse(u / 256, n - 1);
      assert BigEndian(u, n)[..n - 1] == BigEndian(u / 256, n - 1);
    }
  }

  const TwoTo64: nat := 0x1_0000_0000_0000_0000

  function Unsigned(ts: int): int { if ts < 0 then ts + TwoTo64 else ts }

  function Signed(u: int): int { if u > MaxInt64 then u - TwoTo64 else u }

  /** The code's five type codes; the layout comment in the source lists only two. */
  function TypeCode(typ: OpType): byte {
    match typ
    case OpDelete => 1
    case OpDeleteDir => 2
    case OpCreateDir => 3
    case OpSymlink => 4
    case OpPut | OpOther(_) => 0
  }

  /** The first six bytes of the device id, zero-filled. */
  function DeviceField(device: seq<byte>): (s: seq<byte>)
    ensures |s| == 6 && forall i :: 0 <= i < 6 ==> s[i] == if i < |device| then device[i] else 0
  {
    if |device| >= 6 then device[..6] else device + seq(6 - |device|, _ => 0)
  }

  function Header(op: Op, device: seq<byte>): (s: seq<byte>)
    requires -MaxInt64 - 1 <= op.timestamp <= MaxInt64
    ensures |s| == EnvelopeSize
  {
    [79, 80, 83, 1, Major, Minor, Patch] + BigEndian(Unsigned(op.timestamp), 8) + DeviceField(device)
        + [TypeCode(op.typ)]
  }

  /** Fills a zeroed buffer field by field. */
  method MakeOpEnvelope(op: Op, device: seq<byte>, encrypted: seq<byte>) returns (blob: seq<byte>)
    requires -MaxInt64 - 1 <= op.timestamp <= MaxInt64
    ensures blob == Header(op, device) + encrypted
  {
    hide BigEndian, TypeCode, Header, DeviceField;
    var buf := new byte[EnvelopeSize + |encrypted|](_ => 0);
    FillHeader(buf, op, device);
    CopyInto(buf, EnvelopeSize, encrypted);
    blob := buf[..];
    Assembled(blob, op, device, encrypted);
  }

  method FillHeader(buf: array<byte>, op: Op, device: seq<byte>)
    requires -MaxInt64 - 1 <= op.timestamp <= MaxInt64 && buf.Length >= EnvelopeSize
    requires forall i :: 15 <= i < 21 ==> buf[i] == 0
    modifies buf
    ensures buf[0] == 79 && buf[1] == 80 && buf[2] == 83 && buf[3] == 1 && buf[4] == Major && buf[5] == Minor
      && buf[6] == Patch
    ensures forall i :: 7 <= i < 15 ==> buf[i] == BigEndian(Unsigned(op.timestamp), 8)[i - 7]
    ensures forall i :: 15 <= i < 21 ==> buf[i] == DeviceField(device)[i - 15]
    ensures buf[21] == TypeCode(op.typ)
  {
    hide BigEndian, TypeCode;
    var stamp := BigEndian(Unsigned(op.timestamp), 8);
    CopyInto(buf, 0, [79, 80, 83, 1, Major, Minor, Patch]);
    CopyInto(buf, 7, stamp);
    CopyInto(buf, 15, if |device| < 6 then device else device[..6]);
    buf[21] := TypeCode(op.typ);
  }

  lemma Assembled(b: seq<byte>, op: Op, device: seq<byte>, encrypted: seq<byte>)
    requires -MaxInt64 - 1 <= op.timestamp <= MaxInt64 && |b| == EnvelopeSize + |encrypted|
    requires b[0] == 79 && b[1] == 80 && b[2] == 83 && b[3] == 1 && b[4] == Major && b[5] == Minor && b[6] == Patch
    requires forall i :: 7 <= i < 15 ==> b[i] == BigEndian(Unsigned(op.timestamp), 8)[i - 7]
    requires forall i :: 15 <= i < 21 ==> b[i] == DeviceField(device)[i - 15]
    requires b[21] == TypeCode(op.typ) && forall i :: 22 <= i < |b| ==> b[i] == encrypted[i - 22]
    ensures b == Header(op, device) + encrypted
  {
    hide BigEndian, DeviceField, TypeCode;
    assert b[..7] == [79, 80, 83, 1, Major, Minor, Patch];
    assert b[7..15] == BigEndian(Unsigned(op.timestamp), 8) && b[15..21] == DeviceField(device) && b[22..] == encrypted;
    assert b == b[..7] + b[7..15] + b[15..21] + [b[21]] + b[22..];
  }

  method CopyInto(buf: array<byte>, at: nat, s: seq<byte>)
    requires at + |s| <= buf.Length
    modifies buf
    ensures forall i :: 0 <= i < buf.Length ==> buf[i] == if at <= i < at + |s| then s[i - at] else old(buf[i])
  {
    for n := 0 to |s|
      invariant forall i :: 0 <= i < buf.Length ==> buf[i] == if at <= i < at + n then s[i - at] else old(buf[i])
    {
      buf[at + n] := s[n];
    }
  }

  datatype Parsed = Parsed(encrypted: seq<byte>, version: seq<byte>, isNew: bool)

  /** A blob without the magic is an old one and is all payload. */
  function ParseOpEnvelope(data: seq<byte>): Parsed {
    if |data| >= EnvelopeSize && data[0] == 79 && data[1] == 80 && data[2] == 83
    then Parsed(data[EnvelopeSize..], data[4..7], true)
    else Parsed(data, [0, 0, 0], false)
  }

  /** An envelope gives back the payload it wrapped and the header it was made with. */
  lemma EnvelopeRoundTrip(op: Op, device: seq<byte>, encrypted: seq<byte>)
    requires -MaxInt64 - 1 <= op.timestamp <= MaxInt64
    ensures var blob := Header(op, device) + encrypted;
      && ParseOpEnvelope(blob) == Parsed(encrypted, [Major, Minor, Patch], true)
      && Signed(FromBigEndian(blob[7..15])) == op.timestamp
      && blob[15..21] == DeviceField(device)
      && blob[21] == match op.typ
           case OpPut | OpOther(_) => 0
           case OpDelete => 1
           case OpDeleteDir => 2
           case OpCreateDir => 3
           case OpSymlink => 4
  {
    var stamp := BigEndian(Unsigned(op.timestamp), 8);
    assert Signed(FromBigEndian(stamp)) == op.timestamp by {
      assert Pow256(8) == TwoTo64;
      BigEndianInverse(Unsigned(op.timestamp), 8);
    }
    hide BigEndian, FromBigEndian, TypeCode, DeviceField;
    var blob := Header(op, device) + encrypted;
    assert blob[..7] == [79, 80, 83, 1, Major, Minor, Patch];
    assert blob[7..15] == stamp && blob[15..21] == DeviceField(device) && blob[21] == TypeCode(op.typ);
    assert blob[EnvelopeSize..] == encrypted;
    assert blob[4..7] == blob[..7][4..] == [Major, Minor, Patch];
    assert blob[0] == blob[..7][0] && blob[1] == blob[..7][1] && blob[2] == blob[..7][2];
  }

  /** A payload kept without an envelope is read as one exactly when it is long
      enough and happens to start with the magic. */
  lemma LegacyPayload(data: seq<byte>)
    ensures ParseOpEnvelope(data).encrypted == data <==> !(|data| >= EnvelopeSize && data[..3] == [79, 80, 83])
  {
    assert |data| >= 3 ==> data[..3] == [data[0], data[1], data[2]];
  }

  // ---- The store ------------------------------------------------------------------

  datatype ReadError = TooNew | Undecodable

  datatype Result<T> = Ok(value: T) | Err(error: ReadError)

  type Store = map<string, seq<byte>>

  function Decode(open: seq<byte> -> Option<Op>, blob: seq<byte>): Result<Op> {
    var p := ParseOpEnvelope(blob);
    if p.isNew && p.version[0] > Major then Err(TooNew)
    else match open(p.encrypted)
      case Some(op) => Ok(op)
      case None => Err(Undecodable)
  }

  /** An envelope of a later major version is refused; otherwise the payload is what
      follows the 22 header bytes, or all of a blob without the magic. */
  lemma DecodeMeans(open: seq<byte> -> Option<Op>, blob: seq<byte>)
    ensures var enveloped := |blob| >= 22 && blob[..3] == [79, 80, 83];
      if enveloped && blob[4] > 1 then Decode(open, blob) == Err(TooNew)
      else
        var found := open(if enveloped then blob[22..] else blob);
        Decode(open, blob) == if found.Some? then Ok(found.value) else Err(Undecodable)
  {
    assert |blob| >= 3 ==> blob[..3] == [blob[0], blob[1], blob[2]];
  }

  predicate Selected(key: string, since: int) {
    "ops/" <= key && ParseOpTimestamp(key) > since
  }

  /** Every op is stored under its own key. */
  ghost predicate WellKeyed(store: Store, open: seq<byte> -> Option<Op>) {
    forall k :: k in store && "ops/" <= k ==>
      var d := Decode(open, store[k]); d.Ok? && OpKey(d.value) == k
  }

  ghost predicate Reads(store: Store, since: int, open: seq<byte> -> Option<Op>, op: Op) {
    exists k :: k in store && Selected(k, since) && Decode(open, store[k]) == Ok(op)
  }

  /** The ops under the selected keys, key by key. */
  ghost predicate Gathered(store: Store, since: int, open: seq<byte> -> Option<Op>, keys: seq<string>, ops: seq<Op>) {
    && |keys| == |ops|
    && (forall i :: 0 <= i < |keys| ==>
        keys[i] in store && Selected(keys[i], since) && Decode(open, store[keys[i]]) == Ok(ops[i]))
    && (forall i, j :: 0 <= i < j < |keys| ==> keys[i] != keys[j])
  }

  /** Lists keys in any order, filters them by timestamp, decodes what is left. */
  method Gather(
        store: Store, since: int, open: seq<byte> -> Option<Op>) returns (r: Result<seq<Op>>, ghost keys: seq<string>)
    ensures r.Err? <==> exists k :: k in store && Selected(k, since) && Decode(open, store[k]).Err?
    ensures r.Ok? ==>
        Gathered(store, since, open, keys, r.value)
        && forall k :: k in store && Selected(k, since) ==> k in keys
  {
    hide Decode, Selected;
    var pending, ops := store.Keys, [];
    keys := [];
    while pending != {}
      invariant pending <= store.Keys && Gathered(store, since, open, keys, ops)
      invariant forall k :: k in store && k !in pending && Selected(k, since) ==> k in keys
      invariant forall k :: k in keys ==> k !in pending
      decreases pending
    {
      var k :| k in pending;
      pending := pending - {k};
      if Selected(k, since) {
        var d := Decode(open, store[k]);
        if d.Err? { return Err(d.error), keys; }
        ops, keys := ops + [d.value], keys + [k];
      }
    }
    forall k | k in store && Selected(k, since) ensures Decode(open, store[k]).Ok? { assert k in keys; }
    r := Ok(ops);
  }

  method ReadOps(store: Store, since: int, open: seq<byte> -> Option<Op>) returns (r: Result<seq<Op>>)
    ensures r.Err? <==> exists k :: k in store && Selected(k, since) && Decode(open, store[k]).Err?
    ensures r.Ok? ==> InOrder(r.value) && forall op :: op in r.value <==> Reads(store, since, open, op)
    ensures r.Ok? && WellKeyed(store, open) ==> DistinctClocks(r.value)
  {
    hide Decode, Selected, WellKeyed;
    var gathered, keys := Gather(store, since, open);
    if gathered.Err? { return gathered; }
    var ops := gathered.value;
    var sorted := SortOps(ops);
    forall op ensures op in sorted <==> Reads(store, since, open, op) {
      assert op in sorted <==> op in multiset(sorted);
      assert op in ops <==> op in multiset(ops);
      GatheredReads(store, since, open, keys, ops, op);
    }
    if WellKeyed(store, open) {
      KeyedAreDistinct(store, since, open, keys, ops);
      DistinctAreSet(ops, sorted);
    }
    r := Ok(sorted);
  }

  lemma GatheredReads(store: Store, since: int, open: seq<byte> -> Option<Op>, keys: seq<string>, ops: seq<Op>, op: Op)
    requires Gathered(store, since, open, keys, ops) && forall k :: k in store && Selected(k, since) ==> k in keys
    ensures op in ops <==> Reads(store, since, open, op)
  {
    hide Decode, Selected;
    if op in ops {
      var i :| 0 <= i < |ops| && ops[i] == op;
      assert keys[i] in store;
    }
    if Reads(store, since, open, op) {
      var k :| k in store && Selected(k, since) && Decode(open, store[k]) == Ok(op);
      var i :| 0 <= i < |keys| && keys[i] == k;
      assert ops[i] == op;
    }
  }

  lemma KeyedAreDistinct(store: Store, since: int, open: seq<byte> -> Option<Op>, keys: seq<string>, ops: seq<Op>)
    requires WellKeyed(store, open) && Gathered(store, since, open, keys, ops)
    ensures DistinctClocks(ops)
  {
    hide Decode, OpKey;
    forall i, j | 0 <= i < j < |ops| ensures ops[i].At() != ops[j].At() {
      assert OpKey(ops[i]) == keys[i] && OpKey(ops[j]) == keys[j];
      SameClockSameKey(ops[i], ops[j]);
    }
  }

  lemma SameClockSameKey(a: Op, b: Op)
    ensures a.At() == b.At() ==> OpKey(a) == OpKey(b)
  {}

  // ---- Written logs ------------------------------------------------------------------

  /** An op as it may be written: its numbers fit their columns. */
  predicate Storable(op: Op) { 0 <= op.timestamp <= MaxInt64 && op.seqNo >= 0 }

  function WriteOp(store: Store, op: Op, device: string -> seq<byte>, seal: Op -> seq<byte>): Store
    requires Storable(op)
  {
    store[OpKey(op) := Header(op, device(op.device)) + seal(op)]
  }

  function Written(ops: seq<Op>, device: string -> seq<byte>, seal: Op -> seq<byte>): Store
    requires forall op :: op in ops ==> Storable(op)
  {
    if ops == [] then map[]
    else
      assert ops[|ops| - 1] in ops;
      WriteOp(Written(ops[..|ops| - 1], device, seal), ops[|ops| - 1], device, seal)
  }

  /** No later write used the same clock. */
  ghost predicate LastWrite(ops: seq<Op>, op: Op) {
    exists i :: 0 <= i < |ops| && ops[i] == op && forall j :: i < j < |ops| ==> ops[j].At() != op.At()
  }

  lemma WrittenDecodes(op: Op, device: string -> seq<byte>, seal: Op -> seq<byte>, open: seq<byte> -> Option<Op>)
    requires Storable(op) && open(seal(op)) == Some(op)
    ensures Decode(open, Header(op, device(op.device)) + seal(op)) == Ok(op)
  {
    EnvelopeRoundTrip(op, device(op.device), seal(op));
  }

  lemma KeyPrefix(op: Op)
    ensures "ops/" <= OpKey(op)
  {
    KeyMiddle(op);
    assert OpKey(op)[..4] == "ops/";
  }

  /** Under each clock's key the store holds the last op written with it. */
  ghost predicate HoldsLast(ops: seq<Op>, store: Store, open: seq<byte> -> Option<Op>) {
    && (forall k :: k in store ==> HoldsAt(ops, store, open, k))
    && (forall op :: LastWrite(ops, op) ==> OpKey(op) in store && Decode(open, store[OpKey(op)]) == Ok(op))
  }

  ghost predicate HoldsAt(ops: seq<Op>, store: Store, open: seq<byte> -> Option<Op>, k: string)
    requires k in store
  {
    var d := Decode(open, store[k]);
    "ops/" <= k && d.Ok? && LastWrite(ops, d.value) && OpKey(d.value) == k
  }

  lemma {:induction false} WrittenHolds(
        ops: seq<Op>, device: string -> seq<byte>, seal: Op -> seq<byte>, open: seq<byte> -> Option<Op>)
    requires (forall op :: op in ops ==> Storable(op)) && forall op :: open(seal(op)) == Some(op)
    ensures HoldsLast(ops, Written(ops, device, seal), open)
  {
    if ops != [] {
      var n := |ops| - 1;
      var front, last := ops[..n], ops[n];
      assert last in ops;
      WrittenHolds(front, device, seal, open);
      WrittenDecodes(last, device, seal, open);
      var blob := Header(last, device(last.device)) + seal(last);
      assert Written(ops, device, seal) == Written(front, device, seal)[OpKey(last) := blob];
      hide Decode, OpKey, Header, Written, HoldsLast;
      OneMoreWritten(ops, Written(front, device, seal), open, blob);
    }
  }

  lemma OneMoreWritten(ops: seq<Op>, before: Store, open: seq<byte> -> Option<Op>, blob: seq<byte>)
    requires ops != [] && (forall op :: op in ops ==> Storable(op)) && HoldsLast(ops[..|ops| - 1], before, open)
    requires Decode(open, blob) == Ok(ops[|ops| - 1])
    ensures HoldsLast(ops, before[OpKey(ops[|ops| - 1]) := blob], open)
  {
    var last := ops[|ops| - 1];
    var store := before[OpKey(last) := blob];
    hide Decode, OpKey, LastWrite;
    LastOfAll(ops);
    KeyPrefix(last);
    forall k | k in store ensures HoldsAt(ops, store, open, k) { KeptAt(ops, before, open, blob, k); }
    forall op | LastWrite(ops, op) ensures OpKey(op) in store && Decode(open, store[OpKey(op)]) == Ok(op) {
      WrittenIsListed(ops, op);
      assert last in ops && Storable(op) && Storable(last);
      OpKeyInjective(op, last);
      LastWriteGrows(ops, op);
    }
  }

  lemma KeptAt(ops: seq<Op>, before: Store, open: seq<byte> -> Option<Op>, blob: seq<byte>, k: string)
    requires ops != [] && HoldsLast(ops[..|ops| - 1], before, open) && Decode(open, blob) == Ok(ops[|ops| - 1])
    requires k in before[OpKey(ops[|ops| - 1]) := blob]
    ensures HoldsAt(ops, before[OpKey(ops[|ops| - 1]) := blob], open, k)
  {
    var last := ops[|ops| - 1];
    hide Decode, OpKey, LastWrite;
    if k == OpKey(last) {
      LastOfAll(ops);
      KeyPrefix(last);
    } else {
      assert HoldsAt(ops[..|ops| - 1], before, open, k);
      var op := Decode(open, before[k]).value;
      SameClockSameKey(last, op);
      LastWriteGrows(ops, op);
    }
  }

  lemma WrittenIsListed(ops: seq<Op>, op: Op)
    requires LastWrite(ops, op)
    ensures op in ops
  {}

  lemma LastOfAll(ops: seq<Op>)
    requires ops != []
    ensures LastWrite(ops, ops[|ops| - 1])
  {}

  lemma LastWriteGrows(ops: seq<Op>, op: Op)
    requires ops != []
    ensures var n := |ops| - 1; op.At() != ops[n].At() ==> (LastWrite(ops, op) <==> LastWrite(ops[..n], op))
    ensures LastWrite(ops, op) && op.At() == ops[|ops| - 1].At() ==> op == ops[|ops| - 1]
  {
    var n := |ops| - 1;
    if op.At() != ops[n].At() {
      if LastWrite(ops[..n], op) {
        var i :| 0 <= i < n && ops[..n][i] == op && forall j :: i < j < n ==> ops[..n][j].At() != op.At();
        assert forall j :: i < j < n ==> ops[j] == ops[..n][j];
        assert ops[i] == op;
      }
      if LastWrite(ops, op) {
        var i :| 0 <= i < |ops| && ops[i] == op && forall j :: i < j < |ops| ==> ops[j].At() != op.At();
        assert ops[..n][i] == op;
      }
    }
  }

  /** Filtering by key is filtering by content: reading a written log since any
      moment gives exactly the last op written for each clock after it, in
      replay order. */
  lemma ReadIsWritten(
        ops: seq<Op>, since: int, device: string -> seq<byte>, seal: Op -> seq<byte>, open: seq<byte> -> Option<Op>,
        op: Op)
    requires (forall x :: x in ops ==> Storable(x)) && forall x :: open(seal(x)) == Some(x)
    ensures var store := Written(ops, device, seal);
      && WellKeyed(store, open)
      && (Reads(store, since, open, op) <==> LastWrite(ops, op) && op.timestamp > since)
  {
    WrittenHolds(ops, device, seal, open);
    hide Decode, OpKey, ParseOpTimestamp;
    var store := Written(ops, device, seal);
    assert forall k :: k in store ==> HoldsAt(ops, store, open, k);
    hide Written, LastWrite;
    if Reads(store, since, open, op) {
      var k :| k in store && Selected(k, since) && Decode(open, store[k]) == Ok(op);
      assert HoldsAt(ops, store, open, k);
    }
    if LastWrite(ops, op) {
      WrittenIsListed(ops, op);
      ParseInvertsOpKey(op);
      KeyPrefix(op);
    }
  }
}
