/** Object keys and envelopes of the shared op log, and reading it back (pkg/fs/op.go). */
module OpKeys {
  import opened OpReplay

  const MaxInt64 := 0x7FFF_FFFF_FFFF_FFFF

  // ---- Decimal numerals -------------------------------------------------------

  predicate IsDigit(c: char) { '0' <= c <= '9' }

  function Digit(d: nat): (c: char)
    requires d < 10
    ensures IsDigit(c) && DigitValue(c) == d
  {
    '0' + d as char
  }

  function DigitValue(c: char): nat
    requires IsDigit(c)
  {
    c as int - '0' as int
  }

  /** Go's %d for a non-negative value. */
  function Decimal(n: nat): (s: string)
    ensures s != [] && (forall c :: c in s ==> IsDigit(c)) && Value(s) == n && (s[0] == '0' ==> n == 0)
  {
    if n < 10 then [Digit(n)]
    else
      assert (Decimal(n / 10) + [Digit(n % 10)])[..|Decimal(n / 10)|] == Decimal(n / 10);
      Decimal(n / 10) + [Digit(n % 10)]
  }

  /** The number a string of digits denotes. */
  function Value(s: string): nat
    requires forall c :: c in s ==> IsDigit(c)
  {
    if s == [] then 0 else
      assert s[|s| - 1] in s;
      10 * Value(s[..|s| - 1]) + DigitValue(s[|s| - 1])
  }

  function Integer(n: int): string {
    if n < 0 then "-" + Decimal(-n) else Decimal(n)
  }

  function Padded(n: nat, width: nat): (s: string)
    ensures s != [] && (forall c :: c in s ==> IsDigit(c)) && Value(s) == n
    ensures |s| >= width && (|s| > width && s[0] == '0' ==> n == 0)
  {
    var d := Decimal(n);
    if |d| < width then LeadingZeros(width - |d|, d); Zeros(width - |d|) + d else d
  }

  function Zeros(k: nat): (s: string)
    ensures |s| == k && forall c :: c in s ==> c == '0'
  {
    seq(k, _ => '0')
  }

  lemma {:induction false} LeadingZeros(k: nat, d: string)
    requires forall c :: c in d ==> IsDigit(c)
    ensures Value(Zeros(k) + d) == Value(d)
  {
    if d != [] {
      LeadingZeros(k, d[..|d| - 1]);
      assert (Zeros(k) + d)[..k + |d| - 1] == Zeros(k) + d[..|d| - 1];
    } else if k > 0 {
      assert Zeros(k) + d == Zeros(k - 1) + ['0'];
      assert (Zeros(k - 1) + ['0'])[..k - 1] == Zeros(k - 1) + [];
      LeadingZeros(k - 1, []);
    }
  }

  /** Go's %04d: the sign takes one of the four columns. */
  function Padded4(n: int): (s: string)
    ensures |s| >= 4 && (|s| > 4 ==> s[if n < 0 then 1 else 0] != '0')
  {
    if n < 0 then "-" + Padded(-n, 3) else Padded(n, 4)
  }

  // ---- Keys ----------------------------------------------------------------------

  function OpKey(op: Op): string {
    "ops/" + Integer(op.timestamp) + "-" + op.device + "-" + Padded4(op.seqNo) + ".enc"
  }

  function UpToDash(s: string): (r: string)
    ensures r <= s && '-' !in r && (r == s || s[|r|] == '-')
  {
    if s == [] || s[0] == '-' then [] else [s[0]] + UpToDash(s[1..])
  }

  function TrimPrefix(s: string, prefix: string): string {
    if prefix <= s then s[|prefix|..] else s
  }

  function TrimSuffix(s: string, suffix: string): string {
    if |suffix| <= |s| && s[|s| - |suffix|..] == suffix then s[..|s| - |suffix|] else s
  }

  function DigitsPrefix(s: string): (r: string)
    ensures r <= s && (forall c :: c in r ==> IsDigit(c)) && (r == s || !IsDigit(s[|r|]))
  {
    if s == [] || !IsDigit(s[0]) then [] else [s[0]] + DigitsPrefix(s[1..])
  }

  predicate Blank(c: char) { c == ' ' || c == '\t' || c == '\r' }

  /** `fmt.Sscanf(s, "%d", &ts)` into a zero: no digits or an overflow leaves zero. */
  function ScanInt64(s: string): (ts: int) {
    if s != [] && Blank(s[0]) then ScanInt64(s[1..])
    else
      var negative := s != [] && s[0] == '-';
      var digits := DigitsPrefix(if s != [] && (s[0] == '-' || s[0] == '+') then s[1..] else s);
      var v := if negative then 0 - Value(digits) else Value(digits);
      if -MaxInt64 - 1 <= v <= MaxInt64 then v else 0
  }

  function ParseOpTimestamp(key: string): int {
    ScanInt64(UpToDash(TrimSuffix(TrimPrefix(key, "ops/"), ".enc")))
  }

  lemma {:induction false} UpToFirstDash(a: string, b: string)
    requires '-' !in a
    ensures UpToDash(a + "-" + b) == a
  {
    if a != [] {
      assert (a + "-" + b)[1..] == a[1..] + "-" + b && a == [a[0]] + a[1..];
      UpToFirstDash(a[1..], b);
    }
  }

  lemma AllDigits(s: string)
    requires forall c :: c in s ==> IsDigit(c)
    ensures DigitsPrefix(s) == s
  {}

  /** The key without its fixed ends: what the timestamp scan sees. */
  function Middle(op: Op): string {
    Integer(op.timestamp) + "-" + (op.device + "-" + Padded4(op.seqNo))
  }

  lemma Trimmed(name: string)
    ensures TrimSuffix(TrimPrefix("ops/" + name + ".enc", "ops/"), ".enc") == name
  {
    var key, rest := "ops/" + name + ".enc", name + ".enc";
    assert key[..4] == "ops/" && key[4..] == rest;
    assert rest[|rest| - 4..] == ".enc" && rest[..|rest| - 4] == name;
  }

  lemma Regrouped(a: string, b: string, c: string)
    ensures "ops/" + a + "-" + b + "-" + c + ".enc" == "ops/" + (a + "-" + (b + "-" + c)) + ".enc"
  {}

  lemma KeyMiddle(op: Op)
    ensures OpKey(op) == "ops/" + Middle(op) + ".enc"
    ensures TrimSuffix(TrimPrefix(OpKey(op), "ops/"), ".enc") == Middle(op)
  {
    hide Integer, Padded4, TrimPrefix, TrimSuffix;
    Regrouped(Integer(op.timestamp), op.device, Padded4(op.seqNo));
    Trimmed(Middle(op));
  }

  lemma ScanDecimal(n: nat)
    requires n <= MaxInt64
    ensures ScanInt64(Decimal(n)) == n
  {
    var d := Decimal(n);
    assert d[0] in d;
    AllDigits(d);
  }

  /** The timestamp is read back exactly when it is not negative; a negative one
      reads as zero. Device names may contain dashes. */
  lemma ParseInvertsOpKey(op: Op)
    requires -MaxInt64 - 1 <= op.timestamp <= MaxInt64
    ensures ParseOpTimestamp(OpKey(op)) == if op.timestamp >= 0 then op.timestamp else 0
  {
    KeyMiddle(op);
    hide UpToDash, TrimPrefix, TrimSuffix, OpKey, Padded4;
    var rest := op.device + "-" + Padded4(op.seqNo);
    if op.timestamp >= 0 {
      UpToFirstDash(Decimal(op.timestamp), rest);
      ScanDecimal(op.timestamp);
    } else {
      assert Integer(op.timestamp) == "-" + Decimal(-op.timestamp);
      hide Integer, Decimal;
      assert Middle(op) == [] + "-" + (Decimal(-op.timestamp) + "-" + rest);
      UpToFirstDash([], Decimal(-op.timestamp) + "-" + rest);
      assert DigitsPrefix([]) == [];
    }
  }

  function PastDash(s: string): (r: string)
    ensures |r| <= |s| && s[|s| - |r|..] == r && '-' !in r && (r == s || s[|s| - |r| - 1] == '-')
  {
    if s == [] || s[|s| - 1] == '-' then [] else PastDash(s[..|s| - 1]) + [s[|s| - 1]]
  }

  lemma {:induction false} PastLastDash(a: string, b: string)
    requires '-' !in b
    ensures PastDash(a + "-" + b) == b
  {
    var s := a + "-" + b;
    if b != [] {
      var n := |b| - 1;
      assert s[|s| - 1] == b[n] && s[..|s| - 1] == a + "-" + b[..n] && b == b[..n] + [b[n]];
      PastLastDash(a, b[..n]);
    }
  }

  /** A string cut at its first and last dash. */
  lemma Cut(head: string, middle: string, tail: string)
    requires '-' !in head && '-' !in tail
    ensures var s := head + "-" + (middle + "-" + tail);
      && UpToDash(s) == head && PastDash(s) == tail
      && |s| == |head| + 1 + |middle| + 1 + |tail| && s[|head| + 1..|s| - |tail| - 1] == middle
  {
    hide UpToDash, PastDash;
    var s := head + "-" + (middle + "-" + tail);
    UpToFirstDash(head, middle + "-" + tail);
    assert s == (head + "-" + middle) + "-" + tail;
    PastLastDash(head + "-" + middle, tail);
  }

  lemma CutInjective(h: string, m: string, t: string, h': string, m': string, t': string)
    requires '-' !in h && '-' !in t && '-' !in h' && '-' !in t'
    requires h + "-" + (m + "-" + t) == h' + "-" + (m' + "-" + t')
    ensures h == h' && m == m' && t == t'
  {
    hide UpToDash, PastDash;
    Cut(h, m, t);
    Cut(h', m', t');
  }

  lemma NumeralsInjective(m: nat, n: nat)
    ensures Integer(m) == Integer(n) ==> m == n
    ensures Padded4(m) == Padded4(n) ==> m == n
    ensures '-' !in Integer(m) && '-' !in Padded4(m)
  {
    assert Value(Integer(m)) == m && Value(Integer(n)) == n;
    assert Value(Padded4(m)) == m && Value(Padded4(n)) == n;
  }

  /** Different clocks get different keys. */
  lemma OpKeyInjective(a: Op, b: Op)
    requires a.timestamp >= 0 && a.seqNo >= 0 && b.timestamp >= 0 && b.seqNo >= 0
    ensures OpKey(a) == OpKey(b) <==> a.At() == b.At()
  {
    hide TrimPrefix, TrimSuffix, Integer, Padded4;
    NumeralsInjective(a.timestamp, b.timestamp);
    NumeralsInjective(b.timestamp, a.timestamp);
    NumeralsInjective(a.seqNo, b.seqNo);
    NumeralsInjective(b.seqNo, a.seqNo);
    if OpKey(a) == OpKey(b) {
      KeyMiddle(a);
      KeyMiddle(b);
      hide OpKey;
      CutInjective(Integer(a.timestamp), a.device, Padded4(a.seqNo), Integer(b.timestamp), b.device, Padded4(b.seqNo));
    }
  }

  lemma DashMoves(front: string, device: string, d: string)
    ensures front + "-" + (device + "-") + "-" + d + ".enc" == front + "-" + device + "-" + ("-" + d) + ".enc"
  {}

  /** A negative sequence number can share a key with another device. */
  lemma NegativeSeqCollides(op: Op)
    requires op.seqNo >= 1000
    ensures OpKey(op.(device := op.device + "-")) == OpKey(op.(seqNo := -op.seqNo))
  {
    FourDigits(op.seqNo);
    var d := Decimal(op.seqNo);
    assert Padded4(op.seqNo) == d && Padded4(-op.seqNo) == "-" + d;
    hide Padded4, Integer, Decimal;
    DashMoves("ops/" + Integer(op.timestamp), op.device, d);
  }

  lemma FourDigits(n: nat)
    requires n >= 1000
    ensures |Decimal(n)| >= 4
  {
    assert |Decimal(n / 10 / 10)| >= 1 && n / 10 / 10 >= 10;
  }
}
