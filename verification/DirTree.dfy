/**
The recursive walks that compute directory hashes (pkg/fs/dirtree.go).

Relative paths are lists of names; the empty list is the root, which the code
calls ".".
*/
module DirTree {
  import opened Ordering
  import opened DirMerkle

  type Path = seq<string>

  // ---- Entries in name order -----------------------------------------------------------------

  function InsertChild(cs: seq<Child>, c: Child): seq<Child> {
    if cs != [] && StrLess(c.name, cs[|cs| - 1].name) then InsertChild(cs[..|cs| - 1], c) + [cs[|cs| - 1]] else cs + [c]
  }

  function SortedChildren(cs: seq<Child>): seq<Child> {
    if cs == [] then [] else InsertChild(SortedChildren(cs[..|cs| - 1]), cs[|cs| - 1])
  }

  lemma {:induction false} PartsInsert(digest: Digest, cs: seq<Child>, c: Child)
    ensures Parts(digest, InsertChild(cs, c)) == Insert(Parts(digest, cs), PartOf(digest, c))
  {
    hide Hash;
    if cs != [] && StrLess(c.name, cs[|cs| - 1].name) {
      var n := |cs| - 1;
      PartsInsert(digest, cs[..n], c);
      assert Parts(digest, cs)[..n] == Parts(digest, cs[..n]);
    }
  }

  /** Sorting entries and sorting their parts is the same. */
  lemma {:induction false} PartsSorted(digest: Digest, cs: seq<Child>)
    ensures Parts(digest, SortedChildren(cs)) == Sorted(Parts(digest, cs))
  {
    if cs != [] {
      var n := |cs| - 1;
      PartsSorted(digest, cs[..n]);
      PartsInsert(digest, SortedChildren(cs[..n]), cs[n]);
      assert Parts(digest, cs)[..n] == Parts(digest, cs[..n]);
    }
  }

  lemma {:induction false} InsertMembers(cs: seq<Child>, c: Child, x: Child)
    ensures x in InsertChild(cs, c) <==> x in cs || x == c
  {
    if cs != [] && StrLess(c.name, cs[|cs| - 1].name) {
      InsertMembers(cs[..|cs| - 1], c, x);
      assert cs == cs[..|cs| - 1] + [cs[|cs| - 1]];
    }
  }

  lemma {:induction false} SortedMembers(cs: seq<Child>, x: Child)
    ensures x in SortedChildren(cs) <==> x in cs
  {
    if cs != [] {
      SortedMembers(cs[..|cs| - 1], x);
      InsertMembers(SortedChildren(cs[..|cs| - 1]), cs[|cs| - 1], x);
      assert cs == cs[..|cs| - 1] + [cs[|cs| - 1]];
    }
  }

  // ---- Paths ------------------------------------------------------------------------------------

  function FindChild(cs: seq<Child>, name: string): (r: Option<Node>)
    ensures r.Some? ==> Child(name, r.value) in cs
    ensures r.None? ==> forall c :: c in cs ==> c.name != name
  {
    if cs == [] then None
    else if cs[|cs| - 1].name == name then Some(cs[|cs| - 1].node)
    else FindChild(cs[..|cs| - 1], name)
  }

  /** The node at a path, if there is one. */
  function Lookup(n: Node, path: Path): Option<Node>
    decreases |path|
  {
    if path == [] then Some(n)
    else if n.File? then None
    else match FindChild(n.entries, path[0])
      case None => None
      case Some(c) => Lookup(c, path[1..])
  }

  predicate DistinctChildren(cs: seq<Child>) {
    forall c, d :: c in cs && d in cs && c.name == d.name ==> c == d
  }

  lemma ChildrenDistinct(n: Node)
    requires WellFormed(n) && n.Dir?
    ensures DistinctChildren(n.entries) && DistinctChildren(SortedChildren(n.entries))
    ensures forall c :: c in n.entries ==> WellFormed(c.node)
  {
    forall c, d | c in n.entries && d in n.entries && c.name == d.name ensures c == d {
      var i :| 0 <= i < |n.entries| && n.entries[i] == c;
      var j :| 0 <= j < |n.entries| && n.entries[j] == d;
    }
    forall x ensures x in SortedChildren(n.entries) <==> x in n.entries { SortedMembers(n.entries, x); }
  }

  lemma FindSorted(cs: seq<Child>, name: string)
    requires DistinctChildren(cs)
    ensures FindChild(SortedChildren(cs), name) == FindChild(cs, name)
  {
    forall x ensures x in SortedChildren(cs) <==> x in cs { SortedMembers(cs, x); }
    hide SortedChildren;
  }

  // ---- The hash ----------------------------------------------------------------------------------

  /** Accumulates the text of the sorted entries, hashing directories on the way. */
  method DirHash(digest: Digest, n: Node) returns (hash: string)
    requires n.Dir?
    ensures hash == Hash(digest, n)
    decreases n
  {
    var visible, text := SortedChildren(n.entries), "";
    for i := 0 to |visible|
      invariant text == Text(Parts(digest, visible[..i]))
    {
      var c := visible[i];
      SortedMembers(n.entries, c);
      assert c in visible && c in n.entries;
      if c.node.Dir? {
        var sub := DirHash(digest, c.node);
        text := text + ((c.name + "/") + sub);
      } else {
        text := text + (c.name + c.node.checksum);
      }
      TextGrows(digest, visible, i);
    }
    assert visible[..|visible|] == visible;
    PartsSorted(digest, n.entries);
    hash := digest(text);
  }

  lemma TextGrows(digest: Digest, cs: seq<Child>, i: nat)
    requires i < |cs|
    ensures var before := Text(Parts(digest, cs[..i])); var c := cs[i];
      Text(Parts(digest, cs[..i + 1]))
      == before + if c.node.Dir? then (c.name + "/") + Hash(digest, c.node) else c.name + c.node.checksum
  {
    assert cs[..i + 1][..i] == cs[..i];
    var ps, c := Parts(digest, cs[..i + 1]), cs[i];
    assert ps == Parts(digest, cs[..i]) + [PartOf(digest, c)];
    assert ps[..i] == Parts(digest, cs[..i]);
    if c.node.File? { assert Hash(digest, c.node) == c.node.checksum; }
  }

  // ---- The tree of hashes ---------------------------------------------------------------------------

  /** What the walk of `n` at `at` records for key `k`. */
  ghost function Recorded(n: Node, at: Path, k: Path): Option<Node> {
    if at <= k then Lookup(n, k[|at|..]) else None
  }

  /** `after` is `before` with every path of `n`, placed at `at`, mapped to its hash. */
  ghost predicate Adds(digest: Digest, before: map<Path, string>, after: map<Path, string>, n: Node, at: Path) {
    forall k: Path {:trigger k in after} ::
      && (k in after <==> k in before || Recorded(n, at, k).Some?)
      && (k in after ==>
          after[k] == if Recorded(n, at, k).Some? then Hash(digest, Recorded(n, at, k).value) else before[k])
  }

  /** As `Adds`, for a directory's entries without the directory itself. */
  ghost predicate AddsBelow(
        digest: Digest, before: map<Path, string>, after: map<Path, string>, cs: seq<Child>, at: Path) {
    forall k: Path {:trigger k in after} ::
      var r := if k == at then None else Recorded(Dir(cs), at, k);
      && (k in after <==> k in before || r.Some?)
      && (k in after ==> after[k] == if r.Some? then Hash(digest, r.value) else before[k])
  }

  /** A child's paths are the parent's paths through its name. */
  lemma ChildPaths(cs: seq<Child>, c: Child, at: Path, k: Path)
    requires forall d :: d in cs ==> d.name != c.name
    ensures k != at ==> Recorded(Dir(cs + [c]), at, k)
                        == if at + [c.name] <= k then Recorded(c.node, at + [c.name], k) else Recorded(Dir(cs), at, k)
    ensures at + [c.name] <= k ==> k != at && Recorded(Dir(cs), at, k).None?
  {
    assert (cs + [c])[..|cs|] == cs;
    if at <= k && k != at {
      var p := k[|at|..];
      assert p[0] == k[|at|] && k[..|at| + 1] == at + [p[0]];
      assert at + [c.name] <= k <==> p[0] == c.name;
      assert p[1..] == k[|at| + 1..];
    }
  }

  lemma AddChild(
        digest: Digest, t0: map<Path, string>, t1: map<Path, string>, t2: map<Path, string>, cs: seq<Child>, c: Child,
        at: Path)
    requires AddsBelow(digest, t0, t1, cs, at) && Adds(digest, t1, t2, c.node, at + [c.name])
    requires forall d :: d in cs ==> d.name != c.name
    ensures AddsBelow(digest, t0, t2, cs + [c], at)
  {
    hide Hash, Recorded;
    forall k: Path ensures
      var r := if k == at then None else Recorded(Dir(cs + [c]), at, k);
      && (k in t2 <==> k in t0 || r.Some?)
      && (k in t2 ==> t2[k] == if r.Some? then Hash(digest, r.value) else t0[k])
    {
      ChildPaths(cs, c, at, k);
      NotBelow(c.node, at + [c.name], k);
      assert k in t1 <==> k in t0 || (k != at && Recorded(Dir(cs), at, k).Some?);
    }
  }

  lemma NotBelow(n: Node, at: Path, k: Path)
    ensures !(at <= k) ==> Recorded(n, at, k).None?
  {}

  lemma AddFile(digest: Digest, t: map<Path, string>, n: Node, at: Path)
    requires n.File?
    ensures Adds(digest, t, t[at := n.checksum], n, at)
  {
    forall k: Path ensures Recorded(n, at, k).Some? <==> k == at {
      if at <= k && k[|at|..] == [] { assert k == at; }
    }
    assert Recorded(n, at, at) == Some(n);
  }

  lemma SortedPaths(n: Node, at: Path, k: Path)
    requires n.Dir? && WellFormed(n)
    ensures k != at ==> Recorded(n, at, k) == Recorded(Dir(SortedChildren(n.entries)), at, k)
    ensures Recorded(n, at, at) == Some(n)
  {
    ChildrenDistinct(n);
    if at <= k && k != at { FindSorted(n.entries, k[|at|..][0]); }
  }

  lemma AddSelf(digest: Digest, t0: map<Path, string>, t1: map<Path, string>, n: Node, at: Path, hash: string)
    requires n.Dir? && WellFormed(n) && AddsBelow(digest, t0, t1, SortedChildren(n.entries), at)
      && hash == Hash(digest, n)
    ensures Adds(digest, t0, t1[at := hash], n, at)
  {
    hide Hash, Recorded, SortedChildren, WellFormed;
    var t2 := t1[at := hash];
    forall k: Path ensures
      && (k in t2 <==> k in t0 || Recorded(n, at, k).Some?)
      && (k in t2 ==> t2[k] == if Recorded(n, at, k).Some? then Hash(digest, Recorded(n, at, k).value) else t0[k])
    {
      SortedPaths(n, at, k);
      assert k in t2 <==> k == at || k in t1;
    }
  }

  /** Walks the tree, writing every path's hash into the shared map. */
  method DirTreeRecursive(
        digest: Digest, n: Node, at: Path, tree: map<Path, string>) returns (hash: string, grown: map<Path, string>)
    requires n.Dir? && WellFormed(n)
    ensures hash == Hash(digest, n) && Adds(digest, tree, grown, n, at)
    decreases n, 1
  {
    var visible, text := SortedChildren(n.entries), "";
    grown := tree;
    ChildrenDistinct(n);
    Starts(digest, tree, at);
    assert visible[..0] == [] && Text(Parts(digest, [])) == "";
    hide Recorded, AddsBelow, Adds, Text, Parts, WellFormed, Hash, SortedChildren;
    for i := 0 to |visible|
      invariant text == Text(Parts(digest, visible[..i]))
      invariant AddsBelow(digest, tree, grown, visible[..i], at)
    {
      SortedMembers(n.entries, visible[i]);
      assert visible[i] in visible;
      TextGrows(digest, visible, i);
      var piece;
      ghost var before := grown;
      piece, grown := WalkChild(digest, visible[i], at, grown);
      text := text + piece;
      OneMoreChild(digest, n, i, tree, before, grown, at);
    }
    assert visible[..|visible|] == visible;
    PartsSorted(digest, n.entries);
    DirHashIs(digest, n);
    hash := digest(text);
    AddSelf(digest, tree, grown, n, at, hash);
    grown := grown[at := hash];
  }

  /** One entry of the loop: what it adds to the map and to the directory's text. */
  method WalkChild(
        digest: Digest, c: Child, at: Path, tree: map<Path, string>) returns (piece: string, grown: map<Path, string>)
    requires WellFormed(c.node)
    ensures Adds(digest, tree, grown, c.node, at + [c.name])
    ensures piece == if c.node.Dir? then (c.name + "/") + Hash(digest, c.node) else c.name + c.node.checksum
    decreases c.node, 2
  {
    hide Adds;
    if c.node.Dir? {
      var sub;
      sub, grown := DirTreeRecursive(digest, c.node, at + [c.name], tree);
      piece := (c.name + "/") + sub;
    } else {
      AddFile(digest, tree, c.node, at + [c.name]);
      grown := tree[at + [c.name] := c.node.checksum];
      piece := c.name + c.node.checksum;
    }
  }

  lemma OneMoreChild(
        digest: Digest, n: Node, i: nat, tree: map<Path, string>, before: map<Path, string>, grown: map<Path, string>,
        at: Path)
    requires n.Dir? && WellFormed(n) && i < |SortedChildren(n.entries)|
    requires AddsBelow(digest, tree, before, SortedChildren(n.entries)[..i], at)
    requires Adds(digest, before, grown, SortedChildren(n.entries)[i].node, at + [SortedChildren(n.entries)[i].name])
    ensures AddsBelow(digest, tree, grown, SortedChildren(n.entries)[..i + 1], at)
  {
    hide Adds, AddsBelow, SortedChildren, WellFormed;
    var cs := SortedChildren(n.entries);
    EarlierNames(n, i);
    AddChild(digest, tree, before, grown, cs[..i], cs[i], at);
    assert cs[..i + 1] == cs[..i] + [cs[i]];
  }

  lemma Starts(digest: Digest, tree: map<Path, string>, at: Path)
    ensures AddsBelow(digest, tree, tree, [], at)
  {
    forall k: Path ensures k != at ==> Recorded(Dir([]), at, k).None? {
      if at <= k && k[|at|..] == [] { assert k == at; }
    }
  }

  /** Sorted entries have strictly increasing names. */
  lemma EarlierNames(n: Node, i: nat)
    requires n.Dir? && WellFormed(n) && i < |SortedChildren(n.entries)|
    ensures forall d :: d in SortedChildren(n.entries)[..i] ==> d.name != SortedChildren(n.entries)[i].name
  {
    var digest: Digest := s => s;
    var ps, cs := Parts(digest, n.entries), SortedChildren(n.entries);
    PartsSorted(digest, n.entries);
    DistinctParts(digest, n);
    SortedSorts(ps);
    forall j | 0 <= j < i ensures cs[j].name != cs[i].name {
      var sorted := Parts(digest, cs);
      assert StrLess(sorted[j].name, sorted[i].name);
      StrTrichotomy(cs[j].name, cs[i].name);
    }
  }

  /** The tree of hashes has exactly the tree's paths; each carries the recursive
      hash of what is there, and the root's is the directory hash. */
  method DirTree(digest: Digest, root: Node) returns (tree: map<Path, string>)
    requires root.Dir? && WellFormed(root)
    ensures forall p: Path :: p in tree <==> Lookup(root, p).Some?
    ensures forall p: Path :: p in tree ==> tree[p] == Hash(digest, Lookup(root, p).value)
    ensures [] in tree && tree[[]] == Hash(digest, root)
  {
    var hash;
    hash, tree := DirTreeRecursive(digest, root, [], map[]);
    forall p: Path ensures (p in tree <==> Lookup(root, p).Some?)
        && (p in tree ==> tree[p] == Hash(digest, Lookup(root, p).value)) {
      assert p[0..] == p && Recorded(root, [], p) == Lookup(root, p);
    }
  }
}
