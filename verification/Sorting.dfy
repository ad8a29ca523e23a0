/** `sort.Strings` and `sort.Slice` by their result: the same elements, in order. */
module Sorting {
  import opened Ordering

  /** Strictly increasing strings: sorted, and no key twice. */
  predicate Ascending(keys: seq<string>) {
    forall i, j :: 0 <= i < j < |keys| ==> StrLess(keys[i], keys[j])
  }

  method InsertKey(keys: seq<string>, k: string) returns (r: seq<string>)
    requires Ascending(keys) && k !in keys
    ensures Ascending(r) && (set x | x in r) == (set x | x in keys) + {k}
  {
    var i := 0;
    while i < |keys| && StrLess(keys[i], k)
      invariant i <= |keys|
      invariant forall j :: 0 <= j < i ==> StrLess(keys[j], k)
    {
      i := i + 1;
    }
    r := keys[..i] + [k] + keys[i..];
    if i < |keys| {
      StrTrichotomy(keys[i], k);
      forall j | i < j < |keys| ensures StrLess(k, keys[j]) { StrTransitive(k, keys[i], keys[j]); }
    }
    forall x ensures x in r <==> x in keys || x == k {
      assert keys == keys[..i] + keys[i..];
    }
  }

  /** The keys of a map, sorted. */
  method SortedKeys(keys: set<string>) returns (r: seq<string>)
    ensures Ascending(r) && (set x | x in r) == keys
  {
    r := [];
    var pending := keys;
    while pending != {}
      invariant pending <= keys && Ascending(r) && (set x | x in r) == keys - pending
      decreases pending
    {
      var k :| k in pending;
      assert k !in (set x | x in r);
      r := InsertKey(r, k);
      pending := pending - {k};
    }
  }
}
