/** Go's string order and the (timestamp, device, seq) clock used by both op logs. */
module Ordering {
  datatype Option<+T> = None | Some(value: T)

  type byte = x: int | 0 <= x < 256

  /** `m` with every key in `keys` set to `v`. */
  function SetAll<V>(m: map<string, V>, keys: set<string>, v: V): (r: map<string, V>)
    ensures r.Keys == m.Keys + keys
    ensures forall k :: k in r ==> r[k] == if k in keys then v else m[k]
  {
    map k | k in m.Keys + keys :: if k in keys then v else m[k]
  }

  /** Go compares strings byte by byte, which for UTF-8 is code point order. */
  predicate StrLess(a: string, b: string) {
    if b == [] then false
    else if a == [] then true
    else if a[0] != b[0] then a[0] < b[0]
    else StrLess(a[1..], b[1..])
  }

  lemma {:induction false} StrTrichotomy(a: string, b: string)
    ensures a == b || StrLess(a, b) || StrLess(b, a)
    ensures !(StrLess(a, b) && StrLess(b, a))
    ensures a == b ==> !StrLess(a, b)
  {
    if a != [] && b != [] && a[0] == b[0] {
      StrTrichotomy(a[1..], b[1..]);
      assert a == [a[0]] + a[1..] && b == [b[0]] + b[1..];
    }
  }

  lemma {:induction false} StrTransitive(a: string, b: string, c: string)
    requires StrLess(a, b) && StrLess(b, c)
    ensures StrLess(a, c)
  {
    if a != [] && a[0] == b[0] && b[0] == c[0] {
      StrTransitive(a[1..], b[1..], c[1..]);
    }
  }

  datatype Clock = Clock(ts: int, device: string, seqNo: int) {
    /** True if this clock is strictly greater than `other`. */
    predicate Beats(other: Clock) {
      if ts != other.ts then ts > other.ts
      else if device != other.device then StrLess(other.device, device)
      else seqNo > other.seqNo
    }
  }

  lemma BeatsTrichotomy(a: Clock, b: Clock)
    ensures a == b || a.Beats(b) || b.Beats(a)
    ensures !(a.Beats(b) && b.Beats(a))
    ensures a == b ==> !a.Beats(b)
  {
    StrTrichotomy(a.device, b.device);
  }

  lemma BeatsTransitive(a: Clock, b: Clock, c: Clock)
    requires a.Beats(b) && b.Beats(c)
    ensures a.Beats(c)
  {
    StrTrichotomy(a.device, b.device);
    StrTrichotomy(b.device, c.device);
    if a.ts == b.ts == c.ts && a.device != b.device && b.device != c.device {
      StrTransitive(c.device, b.device, a.device);
      StrTrichotomy(a.device, c.device);
    }
  }
}
