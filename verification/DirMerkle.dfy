/**
The Merkle hash of a directory (pkg/fs/dirtree.go).

Trees are what the ignore function leaves visible, with the entries of each
directory in whatever order the file system lists them. `digest` stands for the
hex form of SHA3-256.
*/
module DirMerkle {
  import opened Ordering

  datatype Node = File(checksum: string) | Dir(entries: seq<Child>)

  datatype Child = Child(name: string, node: Node)

  type Digest = string -> string

  /** Names a file system allows, each once per directory. */
  predicate WellFormed(n: Node) {
    n.Dir? ==>
      && (forall i :: 0 <= i < |n.entries| ==>
          n.entries[i].name != "" && n.entries[i].name != "." && '/' !in n.entries[i].name)
      && (forall i, j :: 0 <= i < j < |n.entries| ==> n.entries[i].name != n.entries[j].name)
      && (forall i :: 0 <= i < |n.entries| ==> WellFormed(n.entries[i].node))
  }

  /** What an entry adds to its parent's hash. */
  datatype Part = Part(name: string, isDir: bool, hash: string) {
    function Text(): string { name + (if isDir then "/" else "") + hash }
  }

  // ---- The hash as a function ------------------------------------------------------------

  function Insert(ps: seq<Part>, p: Part): seq<Part> {
    if ps != [] && StrLess(p.name, ps[|ps| - 1].name) then Insert(ps[..|ps| - 1], p) + [ps[|ps| - 1]] else ps + [p]
  }

  function Sorted(ps: seq<Part>): seq<Part> {
    if ps == [] then [] else Insert(Sorted(ps[..|ps| - 1]), ps[|ps| - 1])
  }

  function Text(ps: seq<Part>): string {
    if ps == [] then "" else Text(ps[..|ps| - 1]) + ps[|ps| - 1].Text()
  }

  function PartOf(digest: Digest, c: Child): Part {
    Part(c.name, c.node.Dir?, Hash(digest, c.node))
  }

  function Parts(digest: Digest, entries: seq<Child>): (ps: seq<Part>)
    ensures |ps| == |entries| && forall i :: 0 <= i < |ps| ==> ps[i] == PartOf(digest, entries[i])
  {
    if entries == [] then [] else Parts(digest, entries[..|entries| - 1]) + [PartOf(digest, entries[|entries| - 1])]
  }

  function Hash(digest: Digest, n: Node): string {
    match n
    case File(checksum) => checksum
    case Dir(entries) => digest(Text(Sorted(Parts(digest, entries))))
  }

  // ---- Sorting by name ----------------------------------------------------------------------

  ghost predicate ByName(ps: seq<Part>) {
    forall i, j :: 0 <= i < j < |ps| ==> StrLess(ps[i].name, ps[j].name)
  }

  function Elements(ps: seq<Part>): set<Part> { set p | p in ps }

  lemma {:induction false} InsertSorts(ps: seq<Part>, p: Part)
    requires ByName(ps) && forall x :: x in ps ==> x.name != p.name
    ensures ByName(Insert(ps, p)) && Elements(Insert(ps, p)) == Elements(ps) + {p}
  {
    if ps != [] {
      var front, last := ps[..|ps| - 1], ps[|ps| - 1];
      assert ps == front + [last];
      StrTrichotomy(p.name, last.name);
      if StrLess(p.name, last.name) {
        InsertSorts(front, p);
        forall x | x in Insert(front, p) ensures StrLess(x.name, last.name) { assert x in Elements(Insert(front, p)); }
      } else {
        forall x | x in ps ensures StrLess(x.name, p.name) {
          if x != last { StrTransitive(x.name, last.name, p.name); }
        }
      }
    }
  }

  lemma {:induction false} SortedSorts(ps: seq<Part>)
    requires forall i, j :: 0 <= i < j < |ps| ==> ps[i].name != ps[j].name
    ensures ByName(Sorted(ps)) && Elements(Sorted(ps)) == Elements(ps)
  {
    if ps != [] {
      var front, last := ps[..|ps| - 1], ps[|ps| - 1];
      SortedSorts(front);
      assert ps == front + [last];
      forall x | x in Sorted(front) ensures x.name != last.name { assert x in Elements(front); }
      InsertSorts(Sorted(front), last);
    }
  }

  lemma LastIsGreatest(ps: seq<Part>, qs: seq<Part>)
    requires ByName(ps) && ByName(qs) && Elements(ps) == Elements(qs) && ps != []
    ensures qs != [] && ps[|ps| - 1] == qs[|qs| - 1]
  {
    var p := ps[|ps| - 1];
    assert p in Elements(qs);
    var q := qs[|qs| - 1];
    assert q in Elements(ps);
    var i :| 0 <= i < |qs| && qs[i] == p;
    var j :| 0 <= j < |ps| && ps[j] == q;
    StrTrichotomy(p.name, q.name);
  }

  /** There is one way to list a set of parts by name. */
  lemma {:induction false} OneListing(ps: seq<Part>, qs: seq<Part>)
    requires ByName(ps) && ByName(qs) && Elements(ps) == Elements(qs)
    ensures ps == qs
  {
    if ps == [] {
      if qs != [] { LastIsGreatest(qs, ps); }
    } else {
      LastIsGreatest(ps, qs);
      var p, front, back := ps[|ps| - 1], ps[..|ps| - 1], qs[..|qs| - 1];
      assert ps == front + [p] && qs == back + [p];
      forall x | x in front ensures x != p { StrTrichotomy(x.name, p.name); }
      forall x | x in back ensures x != p { StrTrichotomy(x.name, p.name); }
      assert Elements(front) == Elements(ps) - {p} == Elements(back);
      OneListing(front, back);
    }
  }

  // ---- Order of listing -----------------------------------------------------------------------

  predicate HasName(xs: seq<Child>, name: string) {
    exists i :: 0 <= i < |xs| && xs[i].name == name
  }

  /** The same tree, with each directory listed in any order. */
  ghost predicate Same(a: Node, b: Node) {
    match a
    case File(sum) => b == File(sum)
    case Dir(xs) =>
      && b.Dir? && (forall x :: x in xs ==> SameIn(x, b.entries))
      && forall y :: y in b.entries ==> HasName(xs, y.name)
  }

  ghost predicate SameIn(x: Child, ys: seq<Child>) {
    exists j :: 0 <= j < |ys| && ys[j].name == x.name && Same(x.node, ys[j].node)
  }

  /** Parts with distinct names, each found on the other side, are the same set. */
  lemma SameElements(ps: seq<Part>, qs: seq<Part>)
    requires forall i, j :: 0 <= i < j < |qs| ==> qs[i].name != qs[j].name
    requires forall i :: 0 <= i < |ps| ==> ps[i] in qs
    requires forall j :: 0 <= j < |qs| ==> exists i :: 0 <= i < |ps| && ps[i].name == qs[j].name
    ensures Elements(ps) == Elements(qs)
  {
    forall j | 0 <= j < |qs| ensures qs[j] in ps {
      var i :| 0 <= i < |ps| && ps[i].name == qs[j].name;
      var k :| 0 <= k < |qs| && qs[k] == ps[i];
      assert k == j;
    }
  }

  lemma SameListing(ps: seq<Part>, qs: seq<Part>)
    requires forall i, j :: 0 <= i < j < |ps| ==> ps[i].name != ps[j].name
    requires forall i, j :: 0 <= i < j < |qs| ==> qs[i].name != qs[j].name
    requires Elements(ps) == Elements(qs)
    ensures Sorted(ps) == Sorted(qs)
  {
    SortedSorts(ps);
    SortedSorts(qs);
    OneListing(Sorted(ps), Sorted(qs));
  }

  /** The hash of a tree does not depend on how its directories are listed. */
  lemma {:induction false} OrderDoesNotMatter(digest: Digest, a: Node, b: Node)
    requires WellFormed(a) && WellFormed(b) && Same(a, b)
    ensures Hash(digest, a) == Hash(digest, b)
  {
    if a.Dir? {
      var ps, qs := Parts(digest, a.entries), Parts(digest, b.entries);
      forall i | 0 <= i < |ps| ensures ps[i] in qs {
        var x := a.entries[i];
        assert x in a.entries && SameIn(x, b.entries);
        var j :| 0 <= j < |b.entries| && b.entries[j].name == x.name && Same(x.node, b.entries[j].node);
        OrderDoesNotMatter(digest, x.node, b.entries[j].node);
        KindsAgree(x.node, b.entries[j].node);
        assert qs[j] == ps[i];
      }
      hide Hash, WellFormed;
      forall j | 0 <= j < |qs| ensures exists i :: 0 <= i < |ps| && ps[i].name == qs[j].name {
        assert b.entries[j] in b.entries && HasName(a.entries, b.entries[j].name);
        var i :| 0 <= i < |a.entries| && a.entries[i].name == b.entries[j].name;
        assert ps[i].name == qs[j].name;
      }
      DistinctParts(digest, a);
      DistinctParts(digest, b);
      SameElements(ps, qs);
      SameListing(ps, qs);
      DirHashIs(digest, a);
      DirHashIs(digest, b);
    }
  }

  lemma KindsAgree(a: Node, b: Node)
    requires Same(a, b) || SameShape(a, b)
    ensures a.Dir? == b.Dir?
  {}

  lemma DirHashIs(digest: Digest, n: Node)
    requires n.Dir?
    ensures Hash(digest, n) == digest(Text(Sorted(Parts(digest, n.entries))))
  {}

  lemma DistinctParts(digest: Digest, n: Node)
    requires WellFormed(n) && n.Dir?
    ensures var ps := Parts(digest, n.entries); forall i, j :: 0 <= i < j < |ps| ==> ps[i].name != ps[j].name
  {}

  // ---- What equal hashes prove ------------------------------------------------------------------

  /** Same names and kinds everywhere; contents may differ. */
  ghost predicate SameShape(a: Node, b: Node) {
    match a
    case File(_) => b.File?
    case Dir(xs) =>
      && b.Dir? && (forall x :: x in xs ==> ShapeIn(x, b.entries))
      && forall y :: y in b.entries ==> HasName(xs, y.name)
  }

  ghost predicate ShapeIn(x: Child, ys: seq<Child>) {
    exists j :: 0 <= j < |ys| && ys[j].name == x.name && SameShape(x.node, ys[j].node)
  }

  /** Every checksum in the tree has the digest's length. */
  predicate Sized(n: Node, size: nat) {
    match n
    case File(sum) => |sum| == size
    case Dir(xs) => forall i :: 0 <= i < |xs| ==> Sized(xs[i].node, size)
  }

  ghost predicate CollisionFree(digest: Digest, size: nat) {
    (forall s: string :: |digest(s)| == size) && forall s: string, t: string :: digest(s) == digest(t) ==> s == t
  }

  /** Texts with the same names and kinds and hashes of one length differ if any hash does. */
  lemma {:induction false} TextDetermines(ps: seq<Part>, qs: seq<Part>, size: nat)
    requires |ps| == |qs| && Text(ps) == Text(qs)
    requires forall i :: 0 <= i < |ps| ==>
        ps[i].name == qs[i].name && ps[i].isDir == qs[i].isDir && |ps[i].hash| == |qs[i].hash| == size
    ensures ps == qs
  {
    if ps != [] {
      var n := |ps| - 1;
      var p, q, s, t := ps[n], qs[n], Text(ps[..n]), Text(qs[..n]);
      assert |p.Text()| == |q.Text()|;
      assert |s| == |t|;
      assert Text(ps)[..|s|] == s && Text(qs)[..|t|] == t;
      assert Text(ps)[|s|..] == p.Text() && Text(qs)[|t|..] == q.Text();
      var k := |p.Text()| - size;
      assert p.Text()[k..] == p.hash && q.Text()[k..] == q.hash;
      TextDetermines(ps[..n], qs[..n], size);
      assert ps == ps[..n] + [p] && qs == qs[..n] + [q];
    }
  }

  lemma HashSized(digest: Digest, n: Node, size: nat)
    requires CollisionFree(digest, size) && Sized(n, size)
    ensures |Hash(digest, n)| == size
  {}

  /** The parts with their hashes blanked out. */
  function Outline(ps: seq<Part>): (os: seq<Part>)
    ensures |os| == |ps| && forall i :: 0 <= i < |ps| ==> os[i] == Part(ps[i].name, ps[i].isDir, "")
  {
    seq(|ps|, i requires 0 <= i < |ps| => Part(ps[i].name, ps[i].isDir, ""))
  }

  lemma OutlineElement(ps: seq<Part>, p: Part)
    requires p in ps
    ensures Part(p.name, p.isDir, "") in Outline(ps)
  {
    var i :| 0 <= i < |ps| && ps[i] == p;
    assert Outline(ps)[i] == Part(p.name, p.isDir, "");
  }

  /** The outlines list the same names and kinds. */
  ghost predicate Outlined(ps: seq<Part>, qs: seq<Part>) {
    forall p :: p in ps ==> Part(p.name, p.isDir, "") in Outline(qs)
  }

  lemma SortedAlign(ps: seq<Part>, qs: seq<Part>)
    requires ByName(ps) && ByName(qs) && Outlined(ps, qs) && Outlined(qs, ps)
    ensures |ps| == |qs| && forall i :: 0 <= i < |ps| ==> ps[i].name == qs[i].name && ps[i].isDir == qs[i].isDir
  {
    var op, oq := Outline(ps), Outline(qs);
    forall i | 0 <= i < |op| ensures op[i] in oq { assert ps[i] in ps; }
    forall i | 0 <= i < |oq| ensures oq[i] in op { assert qs[i] in qs; }
    OneListing(op, oq);
    forall i | 0 <= i < |ps| ensures ps[i].name == qs[i].name && ps[i].isDir == qs[i].isDir { assert op[i] == oq[i]; }
  }

  ghost predicate Distinct(ps: seq<Part>) {
    forall i, j :: 0 <= i < j < |ps| ==> ps[i].name != ps[j].name
  }

  lemma TextsAgree(ps: seq<Part>, qs: seq<Part>, size: nat)
    requires Distinct(ps) && Distinct(qs) && Outlined(ps, qs) && Outlined(qs, ps)
      && Text(Sorted(ps)) == Text(Sorted(qs))
    requires (forall p :: p in ps ==> |p.hash| == size) && (forall q :: q in qs ==> |q.hash| == size)
    ensures Elements(ps) == Elements(qs)
  {
    SortedSorts(ps);
    SortedSorts(qs);
    hide Sorted, Text;
    var sp, sq := Sorted(ps), Sorted(qs);
    forall p | p in sp ensures Part(p.name, p.isDir, "") in Outline(sq) && |p.hash| == size {
      assert p in Elements(ps);
      Reoutlined(qs, sq, p);
    }
    forall q | q in sq ensures Part(q.name, q.isDir, "") in Outline(sp) && |q.hash| == size {
      assert q in Elements(qs);
      Reoutlined(ps, sp, q);
    }
    SortedAlign(sp, sq);
    TextDetermines(sp, sq, size);
  }

  /** Equal hashes of same-shaped directories mean equal hashes of every entry. */
  lemma PartsAgree(digest: Digest, a: Node, b: Node, size: nat)
    requires CollisionFree(digest, size) && a.Dir? && b.Dir? && WellFormed(a) && WellFormed(b)
    requires Sized(a, size) && Sized(b, size) && SameShape(a, b) && Hash(digest, a) == Hash(digest, b)
    ensures Elements(Parts(digest, a.entries)) == Elements(Parts(digest, b.entries))
  {
    var ps, qs := Parts(digest, a.entries), Parts(digest, b.entries);
    assert digest(Text(Sorted(ps))) == digest(Text(Sorted(qs)));
    assert Text(Sorted(ps)) == Text(Sorted(qs)) by { hide Hash, Parts, WellFormed, Sized, SameShape, Sorted, Text; }
    hide Hash, Sorted, Text;
    DistinctParts(digest, a);
    DistinctParts(digest, b);
    ShapesOutlined(digest, a, b);
    ShapesOutlinedBack(digest, a, b);
    AllSized(digest, a, size);
    AllSized(digest, b, size);
    hide WellFormed, Sized, SameShape, CollisionFree;
    TextsAgree(ps, qs, size);
  }

  lemma Reoutlined(ps: seq<Part>, sorted: seq<Part>, p: Part)
    requires Elements(sorted) == Elements(ps) && Part(p.name, p.isDir, "") in Outline(ps)
    ensures Part(p.name, p.isDir, "") in Outline(sorted)
  {
    var i :| 0 <= i < |ps| && Outline(ps)[i] == Part(p.name, p.isDir, "");
    assert ps[i] in Elements(sorted);
    OutlineElement(sorted, ps[i]);
  }

  lemma AllSized(digest: Digest, n: Node, size: nat)
    requires CollisionFree(digest, size) && n.Dir? && Sized(n, size)
    ensures forall p :: p in Parts(digest, n.entries) ==> |p.hash| == size
  {
    forall i | 0 <= i < |n.entries| ensures |Parts(digest, n.entries)[i].hash| == size {
      HashSized(digest, n.entries[i].node, size);
    }
  }

  lemma ShapesOutlined(digest: Digest, a: Node, b: Node)
    requires a.Dir? && b.Dir? && SameShape(a, b)
    ensures Outlined(Parts(digest, a.entries), Parts(digest, b.entries))
  {
    var ps, qs := Parts(digest, a.entries), Parts(digest, b.entries);
    hide Hash, SameShape;
    forall i | 0 <= i < |ps| ensures Part(ps[i].name, ps[i].isDir, "") in Outline(qs) {
      var j := Counterpart(a, b, i);
      assert Outline(qs)[j] == Part(ps[i].name, ps[i].isDir, "");
    }
  }

  lemma ShapesOutlinedBack(digest: Digest, a: Node, b: Node)
    requires a.Dir? && b.Dir? && SameShape(a, b) && WellFormed(b)
    ensures Outlined(Parts(digest, b.entries), Parts(digest, a.entries))
  {
    var ps, qs := Parts(digest, a.entries), Parts(digest, b.entries);
    DistinctNames(b);
    hide Hash, WellFormed;
    forall j | 0 <= j < |qs| ensures Part(qs[j].name, qs[j].isDir, "") in Outline(ps) {
      assert b.entries[j] in b.entries && HasName(a.entries, b.entries[j].name);
      var i :| 0 <= i < |a.entries| && a.entries[i].name == b.entries[j].name;
      hide SameShape;
      var k := Counterpart(a, b, i);
      assert k == j;
      assert Outline(ps)[i] == Part(qs[j].name, qs[j].isDir, "");
    }
  }

  lemma DistinctNames(n: Node)
    requires n.Dir? && WellFormed(n)
    ensures forall i, j :: 0 <= i < j < |n.entries| ==> n.entries[i].name != n.entries[j].name
  {}

  lemma Counterpart(a: Node, b: Node, i: nat) returns (j: nat)
    requires a.Dir? && b.Dir? && SameShape(a, b) && i < |a.entries|
    ensures j < |b.entries| && b.entries[j].name == a.entries[i].name && SameShape(a.entries[i].node, b.entries[j].node)
    ensures a.entries[i].node.Dir? == b.entries[j].node.Dir?
  {
    assert a.entries[i] in a.entries && ShapeIn(a.entries[i], b.entries);
    j :| 0 <= j < |b.entries| && b.entries[j].name == a.entries[i].name
        && SameShape(a.entries[i].node, b.entries[j].node);
    KindsAgree(a.entries[i].node, b.entries[j].node);
  }

  /** With a digest that has no collisions, two trees with the same names and kinds
      and the same root hash have the same checksums everywhere. */
  lemma {:induction false} EqualHashesEqualTrees(digest: Digest, a: Node, b: Node, size: nat)
    requires CollisionFree(digest, size) && WellFormed(a) && WellFormed(b)
    requires Sized(a, size) && Sized(b, size) && SameShape(a, b) && Hash(digest, a) == Hash(digest, b)
    ensures Same(a, b)
  {
    if a.Dir? {
      KindsAgree(a, b);
      PartsAgree(digest, a, b, size);
      EntriesAreFine(a, size);
      EntriesAreFine(b, size);
      hide Hash, Sized, CollisionFree, WellFormed, SameShape, Same, Parts;
      forall i | 0 <= i < |a.entries| ensures SameIn(a.entries[i], b.entries) {
        var j := Counterpart(a, b, i);
        EntryHashesAgree(digest, a, b, i, j);
        EqualHashesEqualTrees(digest, a.entries[i].node, b.entries[j].node, size);
      }
      Assembled(a, b);
    }
  }

  lemma EntriesAreFine(n: Node, size: nat)
    requires n.Dir? && WellFormed(n) && Sized(n, size)
    ensures forall i :: 0 <= i < |n.entries| ==> WellFormed(n.entries[i].node) && Sized(n.entries[i].node, size)
  {}

  lemma Assembled(a: Node, b: Node)
    requires a.Dir? && b.Dir? && SameShape(a, b) && forall i :: 0 <= i < |a.entries| ==> SameIn(a.entries[i], b.entries)
    ensures Same(a, b)
  {
    hide SameIn, ShapeIn;
  }

  lemma EntryHashesAgree(digest: Digest, a: Node, b: Node, i: nat, j: nat)
    requires a.Dir? && b.Dir? && WellFormed(b) && i < |a.entries| && j < |b.entries|
      && a.entries[i].name == b.entries[j].name
    requires Elements(Parts(digest, a.entries)) == Elements(Parts(digest, b.entries))
    ensures Hash(digest, a.entries[i].node) == Hash(digest, b.entries[j].node)
  {
    hide Hash;
    var ps, qs := Parts(digest, a.entries), Parts(digest, b.entries);
    assert ps[i] in Elements(qs);
    var k :| 0 <= k < |qs| && qs[k] == ps[i];
    assert k == j;
  }

  /** Names are written without a frame: two files and one file whose name swallows
      the first file's checksum hash alike. */
  lemma UnframedNamesCollide(digest: Digest, x: string, y: string, c: string, d: string)
    requires StrLess(x, y)
    ensures Hash(digest, Dir([Child(x, File(c)), Child(y, File(d))])) == Hash(digest, Dir([Child(x + c + y, File(d))]))
  {
    var p, q, r := Part(x, false, c), Part(y, false, d), Part(x + c + y, false, d);
    var two, one := [Child(x, File(c)), Child(y, File(d))], [Child(x + c + y, File(d))];
    assert PartOf(digest, two[0]) == p && PartOf(digest, two[1]) == q && PartOf(digest, one[0]) == r;
    assert Parts(digest, two) == [p, q] && Parts(digest, one) == [r];
    SortTwo(p, q);
    SortOne(r);
    TextTwo(p, q, r);
  }

  lemma SortOne(r: Part)
    ensures Sorted([r]) == [r] && Text([r]) == r.Text()
  {
    assert [r][..0] == [];
    assert Sorted([r]) == Insert(Sorted([]), r);
    assert Text([r]) == Text([]) + r.Text();
  }

  lemma SortTwo(p: Part, q: Part)
    requires StrLess(p.name, q.name)
    ensures Sorted([p, q]) == [p, q] && Text([p, q]) == p.Text() + q.Text()
  {
    StrTrichotomy(p.name, q.name);
    SortOne(p);
    assert [p, q][..1] == [p];
    assert Sorted([p, q]) == Insert([p], q);
    assert Text([p, q]) == Text([p]) + q.Text();
  }

  lemma TextTwo(p: Part, q: Part, r: Part)
    requires !p.isDir && !q.isDir && r == Part(p.name + p.hash + q.name, false, q.hash)
    ensures p.Text() + q.Text() == r.Text()
  {
    assert p.Text() == p.name + p.hash && q.Text() == q.name + q.hash;
    assert r.Text() == (p.name + p.hash + q.name) + q.hash;
  }
}
