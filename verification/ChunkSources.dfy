/** Ordering chunk sources by health, and the delays between retries and scans
    (pkg/fs/chunk_source_planner.go, pkg/fs/daemon_v2_5.go). Times are in nanoseconds. */
module ChunkSources {
  import opened Ordering

  const Second := 1_000_000_000
  const DefaultBase := 5 * Second
  const DefaultCap := 60 * Second

  function Pow2(n: nat): (p: nat)
    ensures p >= 1
  {
    if n == 0 then 1 else 2 * Pow2(n - 1)
  }

  lemma {:induction false} Pow2Monotone(m: nat, n: nat)
    requires m <= n
    ensures Pow2(m) <= Pow2(n)
  {
    if m < n { Pow2Monotone(m, n - 1); }
  }

  function Min(a: int, b: int): int { if a < b then a else b }

  /** The wait after that many failures in a row: the base doubled for each further one,
      cut off at the cap, which is also reached from one below it. */
  predicate Waits(retryBase: int, retryMax: int, failures: int, wait: int)
    requires failures >= 1
  {
    var base, cap := (if retryBase <= 0 then 5 * Second else retryBase),
        (if retryMax <= 0 then 60 * Second else retryMax);
    var doubled := base * Pow2(failures - 1);
    wait == if failures >= 2 && doubled == cap - 1 then cap else Min(doubled, cap)
  }

  /** Doubling from base to cap; nothing is ever doubled past the cap. */
  method BackoffForFailures(retryBase: int, retryMax: int, failures: int) returns (r: int)
    ensures failures <= 0 ==> r == 0
    ensures failures >= 1 ==>
      var base, cap := (if retryBase <= 0 then DefaultBase else retryBase),
          (if retryMax <= 0 then DefaultCap else retryMax);
      && 0 < r <= cap
      && (r == Min(base * Pow2(failures - 1), cap) <==> !(failures >= 2 && base * Pow2(failures - 1) == cap - 1))
      && Waits(retryBase, retryMax, failures, r)
  {
    if failures <= 0 { return 0; }
    var base, cap := (if retryBase <= 0 then DefaultBase else retryBase),
        (if retryMax <= 0 then DefaultCap else retryMax);
    var backoff, i := base, 1;
    while i < failures
      invariant 1 <= i <= failures && 0 < backoff == base * Pow2(i - 1)
      invariant i > 1 ==> backoff < cap - 1
    {
      if backoff >= cap / 2 {
        Pow2Monotone(i, failures - 1);
        BackoffReached(base, cap, i, failures);
        return cap;
      }
      assert base * Pow2(i) == 2 * backoff;
      backoff := backoff * 2;
      i := i + 1;
    }
    r := if backoff > cap then cap else backoff;
    if failures >= 2 { HalfReached(base, cap, failures); }
  }

  /** The early return is exact unless it rounds up from one below an odd cap. */
  lemma BackoffReached(base: int, cap: int, i: nat, failures: nat)
    requires base > 0 && cap > 0 && 1 <= i < failures && base * Pow2(i - 1) >= cap / 2 && Pow2(i) <= Pow2(failures - 1)
    ensures cap == Min(base * Pow2(failures - 1), cap) <==> !(base * Pow2(failures - 1) == cap - 1)
  {
    var x, y := base * Pow2(i - 1), base * Pow2(failures - 1);
    assert base * Pow2(i) == 2 * x;
    assert y >= 2 * x by { Scale(base, Pow2(i), Pow2(failures - 1)); }
  }

  lemma Scale(base: int, a: int, b: int)
    requires base > 0 && a <= b
    ensures base * a <= base * b
  {}

  /** Where the loop ran to its end, the last doubling started below half the cap. */
  lemma HalfReached(base: int, cap: int, failures: nat)
    requires failures >= 2
    ensures base * Pow2(failures - 1) == 2 * (base * Pow2(failures - 2))
  {}

  /** With an even cap the backoff is the doubled base, cut off at the cap. */
  lemma EvenCapIsExact(base: int, cap: int, failures: nat)
    requires base > 0 && cap > 0 && cap % 2 == 0 && failures >= 2
    ensures base * Pow2(failures - 1) != cap - 1
  {
    HalfReached(base, cap, failures);
  }

  // ---- Ordering sources -------------------------------------------------------------------------

  datatype Kind = LocalSource | PeerSource | S3Pack | S3Blob | OtherSource {
    /** Which health record the kind uses. */
    function Key(): string { if PeerSource? then "peer" else if S3Pack? || S3Blob? then "s3" else "" }
    function Priority(
          ): int { if LocalSource? then 0 else if PeerSource? then 10 else if OtherSource? then 100 else 20 }
  }

  /** `degradedUntil` is none while the source is healthy. */
  datatype Health = Health(failures: nat, degradedUntil: Option<int>)

  type Healths = map<string, Health>

  function HealthOf(hs: Healths, k: Kind): Health {
    if k.Key() in hs then hs[k.Key()] else Health(0, None)
  }

  predicate InBackoff(hs: Healths, k: Kind, now: int) {
    k.Key() != "" && HealthOf(hs, k).degradedUntil.Some? && HealthOf(hs, k).degradedUntil.value > now
  }

  function Score(hs: Healths, k: Kind, now: int): int {
    if k.Key() == "" then k.Priority()
    else k.Priority() + (if InBackoff(hs, k, now) then 100 else 0) + Min(HealthOf(hs, k).failures, 10)
  }

  /** What a recorded health costs: a hundred while in backoff, and one per failure up
      to ten. */
  function Penalty(hs: Healths, key: string, now: int): int {
    if key !in hs then 0
    else (if hs[key].degradedUntil.Some? && now < hs[key].degradedUntil.value then 100 else 0)
         + (if hs[key].failures > 10 then 10 else hs[key].failures)
  }

  /** Local and unknown sources have no health; peers share one record, S3 packs and
      blobs another. */
  lemma ScoreMeans(hs: Healths, k: Kind, now: int)
    ensures Score(hs, k, now) ==
      match k
      case LocalSource => 0
      case OtherSource => 100
      case PeerSource => 10 + Penalty(hs, "peer", now)
      case S3Pack | S3Blob => 20 + Penalty(hs, "s3", now)
    ensures InBackoff(hs, k, now) <==> k.Key() in hs && k.Key() != "" && Penalty(hs, k.Key(), now) >= 100
  {}

  /** `order` rearranges the positions of `sources` by score, ties in listed order. */
  ghost predicate StablyOrders(order: seq<nat>, sources: seq<Kind>, hs: Healths, now: int) {
    && |order| == |sources| && (forall i :: 0 <= i < |order| ==> order[i] < |sources|)
    && (forall i, j :: 0 <= i < j < |order| ==>
          var a, b := Score(hs, sources[order[i]], now), Score(hs, sources[order[j]], now);
          order[i] != order[j] && (a < b || (a == b && order[i] < order[j])))
  }

  /** A source with the position it was listed at. */
  datatype Ranked = Ranked(kind: Kind, at: nat)

  ghost predicate InOrder(rs: seq<Ranked>, hs: Healths, now: int) {
    forall i, j :: 0 <= i < j < |rs| ==> Before(hs, now, rs[i], rs[j])
  }

  /** Behind everything that is no worse: later positions lose ties. */
  method InsertStable(rs: seq<Ranked>, r: Ranked, hs: Healths, now: int) returns (next: seq<Ranked>)
    requires InOrder(rs, hs, now) && forall x :: x in rs ==> x.at < r.at
    ensures InOrder(next, hs, now) && |next| == |rs| + 1 && forall x :: x in next <==> x in rs || x == r
  {
    var at := |rs|;
    hide Score;
    while at > 0 && Score(hs, r.kind, now) < Score(hs, rs[at - 1].kind, now)
      invariant 0 <= at <= |rs|
      invariant forall i :: at <= i < |rs| ==> Before(hs, now, r, rs[i])
    {
      at := at - 1;
    }
    forall i | 0 <= i < at ensures Before(hs, now, rs[i], r) {
      if i < at - 1 { assert Before(hs, now, rs[i], rs[at - 1]); }
      assert rs[i] in rs;
    }
    next := rs[..at] + [r] + rs[at..];
    Spliced(rs, r, at, hs, now);
  }

  lemma Spliced(rs: seq<Ranked>, r: Ranked, at: nat, hs: Healths, now: int)
    requires at <= |rs| && InOrder(rs, hs, now)
    requires forall i :: at <= i < |rs| ==> Before(hs, now, r, rs[i])
    requires forall i :: 0 <= i < at ==> Before(hs, now, rs[i], r)
    ensures var next := rs[..at] + [r] + rs[at..];
        InOrder(next, hs, now) && forall x :: x in next <==> x in rs || x == r
  {
    hide Before;
    var next := rs[..at] + [r] + rs[at..];
    assert rs == rs[..at] + rs[at..];
    forall i, j | 0 <= i < j < |next| ensures Before(hs, now, next[i], next[j]) {
      var x, y := (if i < at then i else i - 1), (if j < at then j else j - 1);
      assert i != at ==> next[i] == rs[x];
      assert j != at ==> next[j] == rs[y];
    }
  }

  /** `ordered` lists `sources` in the given order of positions. */
  predicate Arranges(ordered: seq<Kind>, order: seq<nat>, sources: seq<Kind>) {
    |ordered| == |order| && forall i :: 0 <= i < |order| ==> order[i] < |sources| && ordered[i] == sources[order[i]]
  }

  /** A stable sort by score. */
  method Prioritize(sources: seq<Kind>, hs: Healths, now: int) returns (ordered: seq<Kind>)
    ensures exists order :: StablyOrders(order, sources, hs, now) && Arranges(ordered, order, sources)
  {
    var rs: seq<Ranked> := [];
    for n := 0 to |sources|
      invariant |rs| == n && InOrder(rs, hs, now)
      invariant forall x :: x in rs ==> x.at < n && sources[x.at] == x.kind
    {
      rs := InsertStable(rs, Ranked(sources[n], n), hs, now);
    }
    assert forall i :: 0 <= i < |rs| ==> rs[i] in rs;
    ordered := seq(|rs|, i requires 0 <= i < |rs| => rs[i].kind);
    ghost var order: seq<nat> := seq(|rs|, i requires 0 <= i < |rs| => rs[i].at);
    forall i, j | 0 <= i < j < |order| ensures
      var a, b := Score(hs, sources[order[i]], now), Score(hs, sources[order[j]], now);
      order[i] != order[j] && (a < b || (a == b && order[i] < order[j]))
    {
      assert Before(hs, now, rs[i], rs[j]);
    }
    assert StablyOrders(order, sources, hs, now) && Arranges(ordered, order, sources);
  }

  predicate Before(hs: Healths, now: int, a: Ranked, b: Ranked) {
    var x, y := Score(hs, a.kind, now), Score(hs, b.kind, now);
    x < y || (x == y && a.at < b.at)
  }

  /** Local sources come first; an S3 source out of backoff precedes a peer in it. */
  lemma LocalFirst(order: seq<nat>, sources: seq<Kind>, hs: Healths, now: int, i: nat, j: nat)
    requires StablyOrders(order, sources, hs, now) && i < |order| && j < |order|
    requires var a, b := sources[order[i]], sources[order[j]];
      || (a.LocalSource? && !b.LocalSource?)
      || ((a.S3Pack? || a.S3Blob?) && !InBackoff(hs, a, now) && b.PeerSource? && InBackoff(hs, b, now))
    ensures i < j
  {}

  /** A peer out of backoff comes after an S3 source exactly when it has failed at
      least ten times, the S3 source is healthy, and that one was listed earlier. */
  lemma HealthyPeerBeforeS3(order: seq<nat>, sources: seq<Kind>, hs: Healths, now: int, i: nat, j: nat)
    requires StablyOrders(order, sources, hs, now) && i < |order| && j < |order|
    requires sources[order[i]].PeerSource? && !InBackoff(hs, sources[order[i]], now)
    requires sources[order[j]].S3Pack? || sources[order[j]].S3Blob?
    ensures i > j <==>
      && HealthOf(hs, sources[order[i]]).failures >= 10 && HealthOf(hs, sources[order[j]]).failures == 0
      && !InBackoff(hs, sources[order[j]], now) && order[j] < order[i]
  {}

  class Planner {
    var states: Healths
    const base: int
    const cap: int

    constructor (base: int, cap: int)
      ensures states == map[] && this.base == base && this.cap == cap
    {
      states, this.base, this.cap := map[], base, cap;
    }

    method RecordSuccess(k: Kind)
      modifies this
      ensures k.Key() == "" ==> states == old(states)
      ensures k.Key() != "" ==> states == old(states)[k.Key() := Health(0, None)]
      ensures forall now :: !InBackoff(states, k, now)
    {
      if k.Key() == "" { return; }
      states := states[k.Key() := Health(0, None)];
    }

    /** Cancelled and timed-out attempts are not failures of the source. */
    method RecordFailure(k: Kind, counts: bool, now: int)
      modifies this
      ensures k.Key() == "" || !counts ==> states == old(states)
      ensures k.Key() != "" && counts ==>
        && HealthOf(states, k).failures == HealthOf(old(states), k).failures + 1
        && InBackoff(states, k, now) && states == old(states)[k.Key() := HealthOf(states, k)]
        && Waits(base, cap, HealthOf(states, k).failures, HealthOf(states, k).degradedUntil.value - now)
    {
      if k.Key() == "" || !counts { return; }
      var n := HealthOf(states, k).failures + 1;
      var wait := BackoffForFailures(base, cap, n);
      states := states[k.Key() := Health(n, Some(now + wait))];
    }
  }

  // ---- Scan delays -----------------------------------------------------------------------------------

  function ScanBase(seconds: int): int { if seconds <= 0 then 60 * Second else seconds * Second }

  /** The delay before jitter: doubled per failure, at most five times the base. */
  function PlainDelay(
        seconds: int, failures: nat): int { Min(ScanBase(seconds) * Pow2(failures), 5 * ScanBase(seconds)) }

  /** `hash` is the 64-bit hash of the drive, interval and failure count. */
  method NextLocalScanDelay(seconds: int, failures: int, hash: nat) returns (delay: int)
    ensures var plain := PlainDelay(seconds, if failures < 0 then 0 else failures);
      plain <= delay < plain + plain / 5
    ensures var base := if seconds <= 0 then 60_000_000_000 else seconds * 1_000_000_000;
      var doubled := base * Pow2(if failures < 0 then 0 else failures);
      if doubled < 5 * base then doubled <= delay < doubled + doubled / 5 else 5 * base <= delay < 6 * base
  {
    var base := ScanBase(seconds);
    var n := if failures < 0 then 0 else failures;
    var plain, i := base, 0;
    while i < n
      invariant 0 <= i <= n && plain == base * Pow2(i) <= 5 * base
      invariant plain < 5 * base
    {
      assert base * Pow2(i + 1) == 2 * (base * Pow2(i));
      plain := plain * 2;
      i := i + 1;
      if plain >= 5 * base {
        Pow2Monotone(i, n);
        Scale(base, Pow2(i), Pow2(n));
        plain := 5 * base;
        break;
      }
    }
    assert plain == PlainDelay(seconds, n);
    var window := plain / 5;
    delay := plain + hash % window;
  }

  /** Jitter never makes a later step of the backoff come sooner, and no delay
      reaches six times the base. */
  lemma JitterKeepsOrder(seconds: int, failures: nat, d: int, e: int)
    requires PlainDelay(seconds, failures) <= d < PlainDelay(seconds, failures) + PlainDelay(seconds, failures) / 5
    requires PlainDelay(seconds, failures + 1) <= e
    ensures PlainDelay(seconds, failures) < 5 * ScanBase(seconds) ==> d < e
    ensures d < 6 * ScanBase(seconds)
  {
    var base, x := ScanBase(seconds), ScanBase(seconds) * Pow2(failures);
    assert base * Pow2(failures + 1) == 2 * x;
    if x < 5 * base {
      SmallPowers(failures);
      if Pow2(failures) > 4 { Scale(base, 5, Pow2(failures)); }
      Scale(base, Pow2(failures), 4);
    }
  }

  /** No power of two lies strictly between four and eight. */
  lemma SmallPowers(n: nat)
    ensures Pow2(n) <= 4 || Pow2(n) >= 8
  {
    if n >= 3 { Pow2Monotone(3, n); assert Pow2(3) == 8; } else { Pow2Monotone(n, 2); assert Pow2(2) == 4; }
  }
}
