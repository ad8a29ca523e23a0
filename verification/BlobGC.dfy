/** Mark-and-sweep over snapshots and blobs (pkg/fs/gc.go). */
module BlobGC {
  import opened Ordering
  import opened OpsLog
  import opened OpKeys

  type Bytes = seq<byte>
  type Store = map<string, Bytes>

  /** The chunk hashes a snapshot's files refer to, or none if it cannot be read. */
  type Decoder = Bytes -> Option<set<string>>

  datatype Stats = Stats(referenced: nat, found: nat, blobsDeleted: nat, snapshotsDeleted: nat, snapshotsRetained: nat)

  const NoStats := Stats(0, 0, 0, 0, 0)

  // ---- Keys --------------------------------------------------------------------------

  function SnapshotPrefix(ns: string): string { "fs/" + ns + "/snapshots/" }

  function BlobPrefix(ns: string): string { "fs/" + ns + "/blobs/" }

  predicate InSnapshots(ns: string, k: string) { SnapshotPrefix(ns) <= k }

  predicate InBlobs(ns: string, k: string) { BlobPrefix(ns) <= k }

  predicate HasSuffix(s: string, suffix: string) {
    |suffix| <= |s| && s[|s| - |suffix|..] == suffix
  }

  function LastSegment(key: string): string { key[LastSlash(key) + 1..] }

  function ParseSnapshotTS(key: string): int {
    var name := TrimSuffix(key, ".enc");
    if LastSlash(name) < 0 then 0 else ScanInt64(LastSegment(name))
  }

  function HashOf(blobKey: string): string {
    if LastSlash(blobKey) >= 0 then TrimSuffix(LastSegment(blobKey), ".enc") else blobKey
  }

  /** A history snapshot from before the cutoff; the latest one never expires. */
  predicate Expired(key: string, cutoff: int) {
    && !HasSuffix(key, "/latest.enc") && HasSuffix(key, ".enc")
    && 0 < ParseSnapshotTS(key) < cutoff
  }

  lemma {:induction false} LastSlashAt(a: string, b: string)
    requires '/' !in b
    ensures LastSlash(a + "/" + b) == |a|
  {
    var s := a + "/" + b;
    if b != [] {
      assert s[..|s| - 1] == a + "/" + b[..|b| - 1] && s[|s| - 1] == b[|b| - 1];
      LastSlashAt(a, b[..|b| - 1]);
    }
  }

  lemma SuffixTrimmed(s: string)
    ensures TrimSuffix(s + ".enc", ".enc") == s && HasSuffix(s + ".enc", ".enc")
  {
    var t := s + ".enc";
    assert t[|t| - 4..] == ".enc" && t[..|t| - 4] == s;
  }

  lemma LastSegmentIs(dir: string, name: string)
    requires '/' !in name
    ensures LastSlash(dir + "/" + name) >= 0 && LastSegment(dir + "/" + name) == name
  {
    LastSlashAt(dir, name);
    assert (dir + "/" + name)[|dir| + 1..] == name;
  }

  /** A blob's key gives back its hash. */
  lemma BlobKeyNamesHash(dir: string, hash: string)
    requires '/' !in hash
    ensures HashOf(dir + "/" + hash + ".enc") == hash
  {
    hide TrimSuffix, LastSegment;
    assert dir + "/" + hash + ".enc" == dir + "/" + (hash + ".enc");
    LastSegmentIs(dir, hash + ".enc");
    SuffixTrimmed(hash);
  }

  lemma LatestEnds(key: string)
    requires HasSuffix(key, "/latest.enc")
    ensures |key| >= 11 && key[|key| - 5] == 't'
  {
    assert key[|key| - 11..][6] == 't';
  }

  /** A history snapshot's key gives back its time, so it expires exactly when that
      is positive and before the cutoff; the latest snapshot never does. */
  lemma SnapshotExpiresByTime(dir: string, ts: nat, cutoff: int)
    requires ts <= MaxInt64
    ensures Expired(dir + "/" + Decimal(ts) + ".enc", cutoff) <==> 0 < ts < cutoff
    ensures !Expired(dir + "/latest.enc", cutoff)
  {
    var d := Decimal(ts);
    assert d[|d| - 1] in d && '/' !in d;
    ScanDecimal(ts);
    hide TrimSuffix, LastSegment, ScanInt64, Decimal;
    LastSegmentIs(dir, d);
    var key, latest := dir + "/" + d + ".enc", dir + "/latest.enc";
    SuffixTrimmed(dir + "/" + d);
    assert ParseSnapshotTS(key) == ts;
    assert key[|key| - 5] == d[|d| - 1];
    if HasSuffix(key, "/latest.enc") { LatestEnds(key); }
    assert latest[|latest| - 11..] == "/latest.enc";
  }

  predicate SlashFree(ns: string) { '/' !in ns }

  function FirstSegment(k: string): string {
    if k == [] || k[0] == '/' then [] else [k[0]] + FirstSegment(k[1..])
  }

  lemma {:induction false} FirstSegmentIs(m: string, rest: string)
    requires SlashFree(m)
    ensures FirstSegment(m + "/" + rest) == m
  {
    if m != [] {
      assert (m + "/" + rest)[1..] == m[1..] + "/" + rest && m == [m[0]] + m[1..];
      FirstSegmentIs(m[1..], rest);
    }
  }

  // ---- What a collection does ------------------------------------------------------------

  function Listed(store: Store, prefix: string): set<string> { set k | k in store && prefix <= k }

  function ExpiredKeys(store: Store, ns: string, cutoff: int): set<string> {
    set k | k in store && InSnapshots(ns, k) && Expired(k, cutoff)
  }

  function RetainedKeys(store: Store, ns: string, cutoff: int): set<string> {
    set k | k in store && InSnapshots(ns, k) && !Expired(k, cutoff)
  }

  /** A retained, readable snapshot of the namespace refers to the hash. */
  ghost predicate Referenced(store: Store, ns: string, cutoff: int, decode: Decoder, hash: string) {
    exists k :: k in RetainedKeys(store, ns, cutoff) && decode(store[k]).Some? && hash in decode(store[k]).value
  }

  ghost function Garbage(store: Store, ns: string, cutoff: int, decode: Decoder): set<string> {
    set k | k in store && InBlobs(ns, k) && !Referenced(store, ns, cutoff, decode, HashOf(k))
  }

  ghost function Doomed(store: Store, ns: string, cutoff: int, decode: Decoder): set<string> {
    ExpiredKeys(store, ns, cutoff) + Garbage(store, ns, cutoff, decode)
  }

  ghost function Swept(store: Store, ns: string, cutoff: int, decode: Decoder): Store {
    store - Doomed(store, ns, cutoff, decode)
  }

  ghost function Collected(store: Store, nss: seq<string>, cutoff: int, decode: Decoder): Store {
    if nss == [] then store
    else Swept(Collected(store, nss[..|nss| - 1], cutoff, decode), nss[|nss| - 1], cutoff, decode)
  }

  // ---- The code -----------------------------------------------------------------------------

  /** `refs` are the hashes that the readable snapshots under `keys` refer to. */
  ghost predicate Gathers(refs: set<string>, store: Store, keys: set<string>, decode: Decoder) {
    keys <= store.Keys && forall h :: h in refs <==> exists k :: k in keys && Mentions(decode, store[k], h)
  }

  predicate Mentions(decode: Decoder, blob: Bytes, h: string) {
    decode(blob).Some? && h in decode(blob).value
  }

  lemma GathersMore(refs: set<string>, store: Store, keys: set<string>, decode: Decoder, k: string, more: set<string>)
    requires Gathers(refs, store, keys, decode) && k in store
    requires forall h :: h in more <==> Mentions(decode, store[k], h)
    ensures Gathers(refs + more, store, keys + {k}, decode)
  {
    hide Mentions;
    forall h ensures h in refs + more <==> exists x :: x in keys + {k} && Mentions(decode, store[x], h) {
      if h in refs {
        var x :| x in keys && Mentions(decode, store[x], h);
        assert x in keys + {k};
      } else if h in more {
        assert k in keys + {k};
      }
    }
  }

  /** One retained snapshot's references; an unreadable one adds none. */
  method CollectBlobRefs(store: Store, k: string, decode: Decoder, refs: set<string>, ghost keys: set<string>)
    returns (all: set<string>)
    requires k in store && Gathers(refs, store, keys, decode)
    ensures Gathers(all, store, keys + {k}, decode)
  {
    var more := if decode(store[k]).Some? then decode(store[k]).value else {};
    GathersMore(refs, store, keys, decode, k, more);
    all := refs + more;
  }

  /** The loop over the snapshots: expired ones are deleted and counted, the others
      counted and read. */
  method SweepSnapshots(store: Store, ns: string, cutoff: int, decode: Decoder, dryRun: bool)
    returns (after: Store, refs: set<string>, deleted: nat, retained: nat)
    ensures after == if dryRun then store else store - ExpiredKeys(store, ns, cutoff)
    ensures Gathers(refs, store, RetainedKeys(store, ns, cutoff), decode)
    ensures deleted == |ExpiredKeys(store, ns, cutoff)| && retained == |RetainedKeys(store, ns, cutoff)|
  {
    var all := Listed(store, SnapshotPrefix(ns));
    ghost var expired, kept := ExpiredKeys(store, ns, cutoff), RetainedKeys(store, ns, cutoff);
    SnapshotKeys(store, ns, cutoff);
    DropNone(store, expired);
    DropNone(store, kept);
    GathersNone(store, decode);
    after, refs, deleted, retained := store, {}, 0, 0;
    var pending := all;
    hide Expired, Gathers, Without, ExpiredKeys, RetainedKeys, Listed, SnapshotPrefix;
    assert Midway(store, expired, kept, pending, decode, dryRun, after, refs, deleted, retained);
    while pending != {}
      invariant pending <= all
      invariant Midway(store, expired, kept, pending, decode, dryRun, after, refs, deleted, retained)
      decreases pending
    {
      hide Midway;
      var k :| k in pending;
      assert k in all;
      if Expired(k, cutoff) {
        MidwayExpired(store, expired, kept, pending, decode, dryRun, after, refs, deleted, retained, k);
        deleted := deleted + 1;
        if !dryRun { after := after - {k}; }
      } else {
        ghost var read := kept - pending;
        MidwayRefs(store, expired, kept, pending, decode, dryRun, after, refs, deleted, retained);
        var more := CollectBlobRefs(store, k, decode, refs, read);
        MidwayRetained(store, expired, kept, pending, decode, dryRun, after, refs, deleted, retained, k, more);
        refs, retained := more, retained + 1;
      }
      pending := pending - {k};
    }
  }

  /** Where the loop stands with `pending` still to visit. */
  ghost predicate Midway(store: Store, expired: set<string>, kept: set<string>, pending: set<string>, decode: Decoder,
                         dryRun: bool, after: Store, refs: set<string>, deleted: nat, retained: nat)
  {
    && deleted == |expired - pending| && retained == |kept - pending|
    && after == (if dryRun then store else Without(store, expired - pending))
    && Gathers(refs, store, kept - pending, decode)
  }

  lemma MidwayExpired(store: Store, expired: set<string>, kept: set<string>, pending: set<string>, decode: Decoder,
                      dryRun: bool, after: Store, refs: set<string>, deleted: nat, retained: nat, k: string)
    requires Midway(store, expired, kept, pending, decode, dryRun, after, refs, deleted, retained)
    requires k in pending && k in expired && k !in kept
    ensures Midway(store, expired, kept, pending - {k}, decode, dryRun, if dryRun then after else after - {k},
                   refs, deleted + 1, retained)
  {
    hide Gathers, Without;
    VisitOne(expired, pending, k);
    VisitOne(kept, pending, k);
    DropOne(store, expired - pending, k);
    assert kept - (pending - {k}) == kept - pending;
  }

  lemma MidwayRefs(store: Store, expired: set<string>, kept: set<string>, pending: set<string>, decode: Decoder,
                   dryRun: bool, after: Store, refs: set<string>, deleted: nat, retained: nat)
    requires Midway(store, expired, kept, pending, decode, dryRun, after, refs, deleted, retained)
    ensures Gathers(refs, store, kept - pending, decode)
  {}

  lemma MidwayRetained(store: Store, expired: set<string>, kept: set<string>, pending: set<string>, decode: Decoder,
                       dryRun: bool, after: Store, refs: set<string>, deleted: nat, retained: nat, k: string,
                       more: set<string>)
    requires Midway(store, expired, kept, pending, decode, dryRun, after, refs, deleted, retained)
    requires k in pending && k !in expired && k in kept && Gathers(more, store, (kept - pending) + {k}, decode)
    ensures Midway(store, expired, kept, pending - {k}, decode, dryRun, after, more, deleted, retained + 1)
  {
    hide Gathers, Without;
    VisitOne(expired, pending, k);
    VisitOne(kept, pending, k);
    assert expired - (pending - {k}) == expired - pending;
  }

  /** Visiting a key moves it, if it is in `keys`, from the pending to the done ones. */
  lemma VisitOne(keys: set<string>, pending: set<string>, k: string)
    requires k in pending
    ensures keys - (pending - {k}) == (keys - pending) + (if k in keys then {k} else {})
    ensures |keys - (pending - {k})| == |keys - pending| + (if k in keys then 1 else 0)
  {
    assert keys - (pending - {k}) == (keys - pending) + (if k in keys then {k} else {});
  }

  function Without(store: Store, keys: set<string>): Store { store - keys }

  lemma DropOne(store: Store, gone: set<string>, k: string)
    ensures Without(store, gone) - {k} == Without(store, gone + {k})
  {}

  lemma DropNone(store: Store, keys: set<string>)
    ensures Without(store, keys - keys) == store && keys - {} == keys && keys - keys == {}
  {}

  /** The listed snapshots are the expired and the retained ones. */
  lemma SnapshotKeys(store: Store, ns: string, cutoff: int)
    ensures var all := Listed(store, SnapshotPrefix(ns));
        var e, r := ExpiredKeys(store, ns, cutoff), RetainedKeys(store, ns, cutoff);
      && all <= store.Keys && e - all == {} == e - e && r - all == {}
      && (forall k :: k in all ==> (k in e <==> Expired(k, cutoff)) && (k in r <==> !Expired(k, cutoff)))
      && Without(store, e) == store - e
  {
    hide Expired;
  }

  lemma GathersNone(store: Store, decode: Decoder)
    ensures Gathers({}, store, {}, decode)
  {}

  /** The loop over the blobs: those no hash in `refs` names are deleted and counted. */
  method SweepBlobs(
        store: Store, ns: string, refs: set<string>, dryRun: bool) returns (after: Store, found: nat, deleted: nat)
    ensures var garbage := set k | k in store && InBlobs(ns, k) && HashOf(k) !in refs;
      after == (if dryRun then store else store - garbage) && deleted == |garbage|
    ensures found == |Listed(store, BlobPrefix(ns))|
  {
    hide HashOf;
    var blobs := Listed(store, BlobPrefix(ns));
    found := |blobs|;
    after, deleted := store, 0;
    var pending := blobs;
    ghost var garbage := set k | k in store && InBlobs(ns, k) && HashOf(k) !in refs;
    DropNone(store, garbage);
    UnnamedBlobs(store, ns, refs, garbage);
    hide Without, Listed, InBlobs, BlobPrefix;
    while pending != {}
      invariant pending <= blobs && deleted == |garbage - pending|
      invariant after == if dryRun then store else Without(store, garbage - pending)
      decreases pending
    {
      var k :| k in pending;
      VisitOne(garbage, pending, k);
      DropOne(store, garbage - pending, k);
      pending := pending - {k};
      if HashOf(k) !in refs {
        deleted := deleted + 1;
        if !dryRun { after := after - {k}; }
      }
    }
    DropNone(store, garbage);
  }

  lemma UnnamedBlobs(store: Store, ns: string, refs: set<string>, garbage: set<string>)
    requires garbage == set k | k in store && InBlobs(ns, k) && HashOf(k) !in refs
    ensures var blobs := Listed(store, BlobPrefix(ns));
      && garbage - blobs == {} == garbage - garbage
          && (forall k :: k in blobs ==> (k in garbage <==> HashOf(k) !in refs))
      && Without(store, garbage) == store - garbage
  {
    hide HashOf;
  }

  method GcNamespace(store: Store, ns: string, cutoff: int, decode: Decoder, dryRun: bool, before: Stats)
    returns (after: Store, stats: Stats)
    ensures after == if dryRun then store else Swept(store, ns, cutoff, decode)
    ensures stats.snapshotsDeleted == before.snapshotsDeleted + |ExpiredKeys(store, ns, cutoff)|
    ensures stats.snapshotsRetained == before.snapshotsRetained + |RetainedKeys(store, ns, cutoff)|
    ensures stats.blobsDeleted == before.blobsDeleted + |Garbage(store, ns, cutoff, decode)|
    ensures stats.found == |Listed(store, BlobPrefix(ns))|
  {
    hide Expired, HashOf, SnapshotPrefix, BlobPrefix, InSnapshots;
    var kept, refs, expired, retained := SweepSnapshots(store, ns, cutoff, decode, dryRun);
    BlobsKept(store, ns, cutoff);
    var found, deleted;
    after, found, deleted := SweepBlobs(kept, ns, refs, dryRun);
    GarbageIs(store, kept, ns, cutoff, decode, refs);
    stats := Stats(|refs|, found, before.blobsDeleted + deleted, before.snapshotsDeleted + expired,
        before.snapshotsRetained + retained);
  }

  /** What the second loop deletes is the namespace's garbage. */
  lemma GarbageIs(store: Store, kept: Store, ns: string, cutoff: int, decode: Decoder, refs: set<string>)
    requires kept == store || kept == store - ExpiredKeys(store, ns, cutoff)
    requires Gathers(refs, store, RetainedKeys(store, ns, cutoff), decode)
    ensures (set k | k in kept && InBlobs(ns, k) && HashOf(k) !in refs) == Garbage(store, ns, cutoff, decode)
    ensures store - ExpiredKeys(store, ns, cutoff) - Garbage(store, ns, cutoff, decode) ==
        Swept(store, ns, cutoff, decode)
  {
    PrefixesApart(ns);
    hide Expired, HashOf, InSnapshots, InBlobs;
    forall h ensures h in refs <==> Referenced(store, ns, cutoff, decode, h) {
      if h in refs {
        var k :| k in RetainedKeys(store, ns, cutoff) && Mentions(decode, store[k], h);
      }
      if Referenced(store, ns, cutoff, decode, h) {
        var k :| k in RetainedKeys(store, ns, cutoff) && decode(store[k]).Some? && h in decode(store[k]).value;
        assert Mentions(decode, store[k], h);
      }
    }
    var e, g := ExpiredKeys(store, ns, cutoff), Garbage(store, ns, cutoff, decode);
    assert store - e - g == store - (e + g);
  }

  lemma BlobsKept(store: Store, ns: string, cutoff: int)
    ensures Listed(store - ExpiredKeys(store, ns, cutoff), BlobPrefix(ns)) == Listed(store, BlobPrefix(ns))
  {
    PrefixesApart(ns);
  }

  /** No key is both a blob and a snapshot of one namespace. */
  lemma PrefixesApart(ns: string)
    ensures forall k :: !(InSnapshots(ns, k) && InBlobs(ns, k))
  {
    var i := |"fs/" + ns + "/"|;
    assert SnapshotPrefix(ns)[i] == 's' && BlobPrefix(ns)[i] == 'b';
    assert forall k :: InSnapshots(ns, k) ==> |k| > i && k[i] == 's';
    assert forall k :: InBlobs(ns, k) ==> |k| > i && k[i] == 'b';
  }

  /** What a dry run counts: every namespace against the untouched store. */
  ghost function DryBlobs(store: Store, nss: seq<string>, cutoff: int, decode: Decoder): nat {
    if nss == [] then 0
    else DryBlobs(store, nss[..|nss| - 1], cutoff, decode) + |Garbage(store, nss[|nss| - 1], cutoff, decode)|
  }

  ghost function DrySnapshots(store: Store, nss: seq<string>, cutoff: int): nat {
    if nss == [] then 0
    else DrySnapshots(store, nss[..|nss| - 1], cutoff) + |ExpiredKeys(store, nss[|nss| - 1], cutoff)|
  }

  ghost function DryRetained(store: Store, nss: seq<string>, cutoff: int): nat {
    if nss == [] then 0
    else DryRetained(store, nss[..|nss| - 1], cutoff) + |RetainedKeys(store, nss[|nss| - 1], cutoff)|
  }

  ghost predicate Distinct(nss: seq<string>) {
    (forall ns :: ns in nss ==> SlashFree(ns)) && forall i, j :: 0 <= i < j < |nss| ==> nss[i] != nss[j]
  }

  /** A dry run changes nothing and, for distinct namespaces, reports the numbers
      the real run reports. */
  method GC(
        store: Store, nss: seq<string>, cutoff: int, decode: Decoder, dryRun: bool) returns (after: Store, stats: Stats)
    ensures after == if dryRun then store else Collected(store, nss, cutoff, decode)
    ensures dryRun || Distinct(nss) ==>
      && stats.blobsDeleted == DryBlobs(store, nss, cutoff, decode)
      && stats.snapshotsDeleted == DrySnapshots(store, nss, cutoff)
      && stats.snapshotsRetained == DryRetained(store, nss, cutoff)
  {
    after, stats := store, NoStats;
    for i := 0 to |nss|
      invariant after == if dryRun then store else Collected(store, nss[..i], cutoff, decode)
      invariant dryRun || Distinct(nss) ==>
        && stats.blobsDeleted == DryBlobs(store, nss[..i], cutoff, decode)
        && stats.snapshotsDeleted == DrySnapshots(store, nss[..i], cutoff)
        && stats.snapshotsRetained == DryRetained(store, nss[..i], cutoff)
    {
      assert nss[..i + 1][..i] == nss[..i];
      if !dryRun && Distinct(nss) {
        CollectedElsewhere(store, nss[..i], cutoff, decode, nss[i]);
        SameView(store, after, nss[i], cutoff, decode);
      }
      after, stats := GcNamespace(after, nss[i], cutoff, decode, dryRun, stats);
    }
    assert nss[..|nss|] == nss;
  }

  // ---- Proofs ------------------------------------------------------------------------------------

  /** The two stores hold the same snapshots and blobs of a namespace. */
  ghost predicate SameIn(s: Store, t: Store, ns: string) {
    forall k :: InSnapshots(ns, k) || InBlobs(ns, k) ==>
      (k in s <==> k in t) && (k in s ==> s[k] == t[k])
  }

  lemma SameView(s: Store, t: Store, ns: string, cutoff: int, decode: Decoder)
    requires SameIn(s, t, ns)
    ensures ExpiredKeys(s, ns, cutoff) == ExpiredKeys(t, ns, cutoff)
      && RetainedKeys(s, ns, cutoff) == RetainedKeys(t, ns, cutoff)
    ensures forall h :: Referenced(s, ns, cutoff, decode, h) <==> Referenced(t, ns, cutoff, decode, h)
    ensures Garbage(s, ns, cutoff, decode) == Garbage(t, ns, cutoff, decode)
  {
    assert RetainedKeys(s, ns, cutoff) == RetainedKeys(t, ns, cutoff);
    forall h ensures Referenced(s, ns, cutoff, decode, h) <==> Referenced(t, ns, cutoff, decode, h) {}
  }

  lemma OtherNamespace(m: string, n: string, k: string)
    requires SlashFree(m) && SlashFree(n) && m != n
    requires InSnapshots(m, k) || InBlobs(m, k)
    ensures !InSnapshots(n, k) && !InBlobs(n, k)
  {
    var rest := k[3..];
    var sm, bm, sn, bn := m + "/" + "snapshots/", m + "/" + "blobs/", n + "/" + "snapshots/", n + "/" + "blobs/";
    assert SnapshotPrefix(m)[3..] == sm && BlobPrefix(m)[3..] == bm && SnapshotPrefix(n)[3..] == sn
      && BlobPrefix(n)[3..] == bn;
    if InSnapshots(n, k) || InBlobs(n, k) {
      TwoNames(m, n, rest, if InSnapshots(m, k) then "snapshots/" else "blobs/",
          if InSnapshots(n, k) then "snapshots/" else "blobs/");
    }
  }

  lemma TwoNames(m: string, n: string, k: string, x: string, y: string)
    requires SlashFree(m) && SlashFree(n) && m + "/" + x <= k && n + "/" + y <= k
    ensures m == n
  {
    assert k == m + "/" + k[|m| + 1..] && k == n + "/" + k[|n| + 1..];
    FirstSegmentIs(m, k[|m| + 1..]);
    FirstSegmentIs(n, k[|n| + 1..]);
  }

  lemma {:induction false} CollectedElsewhere(store: Store, nss: seq<string>, cutoff: int, decode: Decoder, ns: string)
    requires SlashFree(ns) && ns !in nss && forall n :: n in nss ==> SlashFree(n)
    ensures SameIn(store, Collected(store, nss, cutoff, decode), ns)
  {
    if nss != [] {
      var last := |nss| - 1;
      assert nss[last] in nss && forall n :: n in nss[..last] ==> n in nss;
      CollectedElsewhere(store, nss[..last], cutoff, decode, ns);
      forall k | InSnapshots(ns, k) || InBlobs(ns, k)
        ensures k !in Doomed(Collected(store, nss[..last], cutoff, decode), nss[last], cutoff, decode)
      {
        OtherNamespace(ns, nss[last], k);
      }
    }
  }

  /** Sweeping a namespace leaves its retained snapshots and what they refer to. */
  lemma SweptKeeps(store: Store, ns: string, cutoff: int, decode: Decoder)
    ensures var after := Swept(store, ns, cutoff, decode);
      && RetainedKeys(after, ns, cutoff) == RetainedKeys(store, ns, cutoff) && ExpiredKeys(after, ns, cutoff) == {}
      && (forall h :: Referenced(after, ns, cutoff, decode, h) <==> Referenced(store, ns, cutoff, decode, h))
      && Garbage(after, ns, cutoff, decode) == {}
  {
    PrefixesApart(ns);
    var after := Swept(store, ns, cutoff, decode);
    assert forall k :: k in RetainedKeys(store, ns, cutoff) ==> k !in Doomed(store, ns, cutoff, decode);
    assert RetainedKeys(after, ns, cutoff) == RetainedKeys(store, ns, cutoff);
    forall h ensures Referenced(after, ns, cutoff, decode, h) <==> Referenced(store, ns, cutoff, decode, h) {
      if Referenced(store, ns, cutoff, decode, h) {
        var k :| k in RetainedKeys(store, ns, cutoff) && decode(store[k]).Some? && h in decode(store[k]).value;
        assert k in RetainedKeys(after, ns, cutoff) && after[k] == store[k];
      }
    }
  }

  lemma {:induction false} CollectedView(store: Store, nss: seq<string>, cutoff: int, decode: Decoder, ns: string)
    requires ns in nss && forall n :: n in nss ==> SlashFree(n)
    ensures var after := Collected(store, nss, cutoff, decode);
      && RetainedKeys(after, ns, cutoff) == RetainedKeys(store, ns, cutoff) && ExpiredKeys(after, ns, cutoff) == {}
      && (forall h :: Referenced(after, ns, cutoff, decode, h) <==> Referenced(store, ns, cutoff, decode, h))
      && Garbage(after, ns, cutoff, decode) == {}
      && (forall k :: k in store && InBlobs(ns, k) ==>
          (k in after <==> Referenced(store, ns, cutoff, decode, HashOf(k))))
  {
    var last := |nss| - 1;
    var front, n := nss[..last], nss[last];
    assert nss == front + [n] && forall x :: x in front ==> x in nss;
    var before, after := Collected(store, front, cutoff, decode), Collected(store, nss, cutoff, decode);
    PrefixesApart(ns);
    if n == ns {
      SweptKeeps(before, ns, cutoff, decode);
      if ns in front { CollectedView(store, front, cutoff, decode, ns); }
      else { CollectedElsewhere(store, front, cutoff, decode, ns); SameView(store, before, ns, cutoff, decode); }
    } else {
      CollectedView(store, front, cutoff, decode, ns);
      forall k | InSnapshots(ns, k) || InBlobs(ns, k) ensures k !in Doomed(before, n, cutoff, decode) {
        OtherNamespace(ns, n, k);
      }
      SameView(before, after, ns, cutoff, decode);
    }
  }

  /** Every blob of a collected namespace survives exactly when a retained, readable
      snapshot of that namespace refers to it. */
  lemma SurvivesIffReferenced(store: Store, nss: seq<string>, cutoff: int, decode: Decoder, ns: string, k: string)
    requires ns in nss && (forall n :: n in nss ==> SlashFree(n)) && k in store && InBlobs(ns, k)
    ensures k in Collected(store, nss, cutoff, decode) <==> Referenced(store, ns, cutoff, decode, HashOf(k))
  {
    CollectedView(store, nss, cutoff, decode, ns);
  }

  /** Nothing outside the collected namespaces changes, and what survives is unchanged. */
  lemma {:induction false} OthersUntouched(store: Store, nss: seq<string>, cutoff: int, decode: Decoder, k: string)
    ensures var after := Collected(store, nss, cutoff, decode);
      && (k in after ==> k in store && after[k] == store[k])
      && (k in store && (forall n :: n in nss ==> !InSnapshots(n, k) && !InBlobs(n, k)) ==> k in after)
  {
    if nss != [] {
      assert nss[|nss| - 1] in nss && forall n :: n in nss[..|nss| - 1] ==> n in nss;
      OthersUntouched(store, nss[..|nss| - 1], cutoff, decode, k);
    }
  }

  /** A second collection with the same cutoff deletes nothing. */
  lemma {:induction false} CollectionIdempotent(
        store: Store, nss: seq<string>, more: seq<string>, cutoff: int, decode: Decoder)
    requires (forall n :: n in nss ==> SlashFree(n)) && forall n :: n in more ==> n in nss
    ensures var after := Collected(store, nss, cutoff, decode);
      && Collected(after, more, cutoff, decode) == after
      && DryBlobs(after, more, cutoff, decode) == 0 && DrySnapshots(after, more, cutoff) == 0
  {
    if more != [] {
      var after, n := Collected(store, nss, cutoff, decode), more[|more| - 1];
      assert n in more && forall x :: x in more[..|more| - 1] ==> x in more;
      CollectionIdempotent(store, nss, more[..|more| - 1], cutoff, decode);
      CollectedView(store, nss, cutoff, decode, n);
      assert after - {} == after;
    }
  }

  // ---- Where it stops short ----------------------------------------------------------------------

  /** A retained snapshot that cannot be read protects nothing: a blob only it
      refers to is deleted. */
  lemma UnreadableSnapshotProtectsNothing(store: Store, ns: string, cutoff: int, decode: Decoder, blob: string)
    requires SlashFree(ns) && blob in store && InBlobs(ns, blob)
    requires forall k :: k in RetainedKeys(store, ns, cutoff) ==> decode(store[k]).None?
    ensures blob !in Collected(store, [ns], cutoff, decode)
  {
    CollectedView(store, [ns], cutoff, decode, ns);
  }

  /** Naming a namespace twice doubles what a dry run reports. */
  lemma DryRunCountsRepeats(store: Store, ns: string, cutoff: int, decode: Decoder)
    requires SlashFree(ns)
    ensures DryBlobs(store, [ns, ns], cutoff, decode) == 2 * |Garbage(store, ns, cutoff, decode)|
    ensures Collected(store, [ns, ns], cutoff, decode) == Collected(store, [ns], cutoff, decode)
  {
    assert [ns, ns][..1] == [ns] && [ns][..0] == [];
    assert DryBlobs(store, [ns], cutoff, decode) == |Garbage(store, ns, cutoff, decode)|;
    CollectionIdempotent(store, [ns], [ns], cutoff, decode);
    var once := Collected(store, [ns], cutoff, decode);
    assert Collected(once, [ns], cutoff, decode) == Swept(once, ns, cutoff, decode);
  }
}
