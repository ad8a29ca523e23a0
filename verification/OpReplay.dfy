/**
The shared op log (pkg/fs/op.go): sort by clock, then fold into a file tree.

Unlike the local log, replay here trusts its order, so everything rests on the
sort. The rule it implements is stated without any order: the last op that
touches a path decides it.
*/
module OpReplay {
  import opened Ordering
  import opened OpsLog

  datatype OpType = OpPut | OpDelete | OpDeleteDir | OpCreateDir | OpSymlink | OpOther(name: string)

  datatype Op = Op(
    typ: OpType, path: string, chunks: seq<string>, size: int, checksum: string, prevChecksum: string,
    linkTarget: string, namespace: string, device: string, timestamp: int, seqNo: int, client: string)
  {
    function At(): Clock { Clock(timestamp, device, seqNo) }
    predicate Writes() { typ.OpPut? || typ.OpSymlink? }
  }

  datatype FileEntry = FileEntry(chunks: seq<string>, size: int, modified: int, checksum: string, namespace: string)

  type Tree = map<string, FileEntry>

  function EntryOf(op: Op): FileEntry {
    FileEntry(op.chunks, op.size, op.timestamp, op.checksum, op.namespace)
  }

  function Touched(op: Op, tree: Tree): set<string> {
    set p | p in tree && Under(op.path, p)
  }

  function Step(tree: Tree, op: Op): Tree {
    match op.typ
    case OpPut | OpSymlink => tree[op.path := EntryOf(op)]
    case OpDelete => tree - {op.path}
    case OpDeleteDir => tree - Touched(op, tree)
    case OpCreateDir | OpOther(_) => tree
  }

  function Fold(base: Tree, ops: seq<Op>): Tree {
    if ops == [] then base else Step(Fold(base, ops[..|ops| - 1]), ops[|ops| - 1])
  }

  /** The replay loop, with delete_dir's loop over the tree written out. */
  method BuildState(base: Tree, ops: seq<Op>) returns (tree: Tree)
    ensures tree == Fold(base, ops)
  {
    tree := base;
    for i := 0 to |ops|
      invariant tree == Fold(base, ops[..i])
    {
      assert ops[..i + 1][..i] == ops[..i];
      match ops[i].typ
      case OpPut | OpSymlink => tree := tree[ops[i].path := EntryOf(ops[i])];
      case OpDelete => tree := tree - {ops[i].path};
      case OpDeleteDir =>
        ghost var before := tree;
        var pending := tree.Keys;
        while pending != {}
          invariant pending <= before.Keys
          invariant tree == before - (Touched(ops[i], before) - pending)
          decreases pending
        {
          var p :| p in pending;
          if Under(ops[i].path, p) { tree := tree - {p}; }
          assert Touched(ops[i], before) - (pending - {p})
                 == (Touched(ops[i], before) - pending) + (if Under(ops[i].path, p) then {p} else {});
          pending := pending - {p};
        }
        assert Touched(ops[i], before) - {} == Touched(ops[i], before);
      case OpCreateDir =>
      case OpOther(_) =>
    }
    assert ops[..|ops|] == ops;
  }

  // ---- The last-writer rule ---------------------------------------------------

  predicate Touches(op: Op, p: string) {
    match op.typ
    case OpPut | OpSymlink | OpDelete => op.path == p
    case OpDeleteDir => Under(op.path, p)
    case OpCreateDir | OpOther(_) => false
  }

  /** What a tree says about one path. */
  function At(tree: Tree, p: string): Option<FileEntry> {
    if p in tree then Some(tree[p]) else None
  }

  /** What an op that touches a path leaves there. */
  function Leaves(op: Op): Option<FileEntry> {
    if op.Writes() then Some(EntryOf(op)) else None
  }

  lemma StepAt(tree: Tree, op: Op, p: string)
    ensures At(Step(tree, op), p) == if Touches(op, p) then Leaves(op) else At(tree, p)
  {
    match op.typ
    case OpPut =>
    case OpSymlink =>
    case OpDelete =>
    case OpDeleteDir =>
    case OpCreateDir =>
    case OpOther(_) =>
  }

  /** `i` is the last position whose op touches `p`. */
  predicate LastTouch(ops: seq<Op>, p: string, i: int) {
    && 0 <= i < |ops| && Touches(ops[i], p)
    && forall j :: i < j < |ops| ==> !Touches(ops[j], p)
  }

  /** Each path is decided by the last op that touches it, or by the base. */
  lemma {:induction false} LastWriterDecides(base: Tree, ops: seq<Op>, p: string)
    ensures forall i :: LastTouch(ops, p, i) ==> At(Fold(base, ops), p) == Leaves(ops[i])
    ensures (forall i :: 0 <= i < |ops| ==> !Touches(ops[i], p)) ==> At(Fold(base, ops), p) == At(base, p)
  {
    if ops != [] {
      var n := |ops| - 1;
      LastWriterDecides(base, ops[..n], p);
      StepAt(Fold(base, ops[..n]), ops[n], p);
      forall i | LastTouch(ops, p, i) ensures At(Fold(base, ops), p) == Leaves(ops[i]) {
        if i < n { assert LastTouch(ops[..n], p, i); }
      }
    }
  }

  lemma {:induction false} FindLastTouch(ops: seq<Op>, p: string) returns (i: int)
    ensures i < 0 ==> forall j :: 0 <= j < |ops| ==> !Touches(ops[j], p)
    ensures i >= 0 ==> LastTouch(ops, p, i)
  {
    i := |ops| - 1;
    while i >= 0 && !Touches(ops[i], p)
      invariant -1 <= i < |ops|
      invariant forall j :: i < j < |ops| ==> !Touches(ops[j], p)
    {
      i := i - 1;
    }
  }

  lemma SameEverywhere(s: Tree, t: Tree)
    requires forall p: string :: At(s, p) == At(t, p)
    ensures s == t
  {
    forall p: string ensures (p in s <==> p in t) && (p in s ==> s[p] == t[p]) {
      assert At(s, p) == At(t, p);
    }
  }

  /** Replaying in two stretches is replaying once. */
  lemma {:induction false} FoldAppend(base: Tree, xs: seq<Op>, ys: seq<Op>)
    ensures Fold(base, xs + ys) == Fold(Fold(base, xs), ys)
  {
    if ys == [] {
      assert xs + ys == xs;
    } else {
      var n := |ys| - 1;
      assert (xs + ys)[..|xs + ys| - 1] == xs + ys[..n];
      FoldAppend(base, xs, ys[..n]);
    }
  }

  /** Ops that touch no common path can be swapped. */
  lemma DisjointOpsCommute(tree: Tree, a: Op, b: Op)
    requires forall p: string :: !(Touches(a, p) && Touches(b, p))
    ensures Step(Step(tree, a), b) == Step(Step(tree, b), a)
  {
    forall p: string ensures At(Step(Step(tree, a), b), p) == At(Step(Step(tree, b), a), p) {
      StepAt(tree, a, p);
      StepAt(tree, b, p);
      StepAt(Step(tree, a), b, p);
      StepAt(Step(tree, b), a, p);
    }
    SameEverywhere(Step(Step(tree, a), b), Step(Step(tree, b), a));
  }

  // ---- Sorting ------------------------------------------------------------------

  /** In the order `sortOps` asks for; ops with one clock may stand either way. */
  ghost predicate InOrder(ops: seq<Op>) {
    forall i, j :: 0 <= i < j < |ops| ==> !ops[i].At().Beats(ops[j].At())
  }

  ghost predicate Arrangement(r: seq<Op>, ops: seq<Op>) {
    InOrder(r) && multiset(r) == multiset(ops)
  }

  ghost predicate DistinctClocks(ops: seq<Op>) {
    forall i, j :: 0 <= i < j < |ops| ==> ops[i].At() != ops[j].At()
  }

  function Insert(ops: seq<Op>, op: Op): seq<Op> {
    if ops != [] && ops[|ops| - 1].At().Beats(op.At())
    then Insert(ops[..|ops| - 1], op) + [ops[|ops| - 1]]
    else ops + [op]
  }

  /** Everything behind position `k`, where `op` stands, is later. */
  ghost predicate LandsAt(r: seq<Op>, op: Op, k: int) {
    0 <= k < |r| && r[k] == op && forall j :: k < j < |r| ==> r[j].At().Beats(op.At())
  }

  lemma {:induction false} InsertAdds(ops: seq<Op>, op: Op)
    ensures multiset(Insert(ops, op)) == multiset(ops) + multiset{op}
  {
    if ops != [] && ops[|ops| - 1].At().Beats(op.At()) {
      InsertAdds(ops[..|ops| - 1], op);
      assert ops == ops[..|ops| - 1] + [ops[|ops| - 1]];
    }
  }

  lemma {:induction false} InsertLands(ops: seq<Op>, op: Op)
    ensures exists k :: LandsAt(Insert(ops, op), op, k)
  {
    if ops != [] && ops[|ops| - 1].At().Beats(op.At()) {
      InsertLands(ops[..|ops| - 1], op);
      var k :| LandsAt(Insert(ops[..|ops| - 1], op), op, k);
      assert LandsAt(Insert(ops, op), op, k);
    } else {
      assert Insert(ops, op) == ops + [op];
      assert LandsAt(Insert(ops, op), op, |ops|);
    }
  }

  lemma {:induction false} InsertKeepsOrder(ops: seq<Op>, op: Op)
    requires InOrder(ops)
    ensures InOrder(Insert(ops, op))
  {
    if ops != [] {
      var last, front := ops[|ops| - 1], ops[..|ops| - 1];
      if last.At().Beats(op.At()) {
        InsertKeepsOrder(front, op);
        InsertAdds(front, op);
        forall x | x in Insert(front, op) ensures !x.At().Beats(last.At()) {
          assert x in multiset(Insert(front, op));
          if x == op { BeatsTrichotomy(op.At(), last.At()); } else { assert x in multiset(front); }
        }
      } else {
        forall i | 0 <= i < |ops| ensures !ops[i].At().Beats(op.At()) { NotBeaten(ops[i].At(), last.At(), op.At()); }
      }
    }
  }

  lemma NotBeaten(a: Clock, b: Clock, c: Clock)
    requires !b.Beats(c) && (a == b || !a.Beats(b))
    ensures !a.Beats(c)
  {
    BeatsTrichotomy(a, b);
    BeatsTrichotomy(b, c);
    if a.Beats(c) && b != c { BeatsTransitive(a, c, b); }
  }

  /** `sortOps`, as any algorithm that meets its comparator. */
  method SortOps(ops: seq<Op>) returns (r: seq<Op>)
    ensures Arrangement(r, ops)
  {
    r := [];
    for i := 0 to |ops|
      invariant Arrangement(r, ops[..i])
    {
      InsertKeepsOrder(r, ops[i]);
      InsertAdds(r, ops[i]);
      r := Insert(r, ops[i]);
      assert ops[..i + 1] == ops[..i] + [ops[i]];
    }
    assert ops[..|ops|] == ops;
  }

  lemma LastOpAgrees(r: seq<Op>, s: seq<Op>)
    requires InOrder(r) && InOrder(s) && multiset(r) == multiset(s) && DistinctClocks(r) && r != []
    ensures s != [] && r[|r| - 1] == s[|s| - 1]
  {
    assert r[|r| - 1] in multiset(r);
    assert s[|s| - 1] in multiset(r);
    var a, b := r[|r| - 1], s[|s| - 1];
    assert a in s && b in r;
    assert !a.At().Beats(b.At()) && !b.At().Beats(a.At());
    BeatsTrichotomy(a.At(), b.At());
  }

  lemma WithoutLast(r: seq<Op>)
    requires r != []
    ensures multiset(r[..|r| - 1]) == multiset(r) - multiset{r[|r| - 1]}
  {
    assert r == r[..|r| - 1] + [r[|r| - 1]];
  }

  /** With distinct clocks there is one sorted form. */
  lemma {:induction false} OneArrangement(r: seq<Op>, s: seq<Op>)
    requires InOrder(r) && InOrder(s) && multiset(r) == multiset(s) && DistinctClocks(r)
    ensures r == s
  {
    if r == [] {
      assert multiset(s) == multiset{};
    } else {
      LastOpAgrees(r, s);
      WithoutLast(r);
      WithoutLast(s);
      OneArrangement(r[..|r| - 1], s[..|s| - 1]);
      assert r == r[..|r| - 1] + [r[|r| - 1]] && s == s[..|s| - 1] + [s[|s| - 1]];
    }
  }

  // ---- Convergence ----------------------------------------------------------------

  /** `a` is among the latest ops that touch `p`. */
  ghost predicate Latest(ops: seq<Op>, p: string, a: Op) {
    a in ops && Touches(a, p) && forall x :: x in ops && Touches(x, p) ==> !x.At().Beats(a.At())
  }

  /** The latest ops at each path leave the same thing there. */
  ghost predicate LatestAgree(ops: seq<Op>) {
    forall p, a, b :: Latest(ops, p, a) && Latest(ops, p, b) ==> Leaves(a) == Leaves(b)
  }

  lemma LastTouchIsLatest(r: seq<Op>, ops: seq<Op>, p: string, i: int)
    requires Arrangement(r, ops) && LastTouch(r, p, i)
    ensures Latest(ops, p, r[i])
  {
    assert r[i] in multiset(r);
    forall x | x in ops && Touches(x, p) ensures !x.At().Beats(r[i].At()) {
      assert x in multiset(r);
      var j :| 0 <= j < |r| && r[j] == x;
      BeatsTrichotomy(x.At(), x.At());
    }
  }

  lemma AgreeingArrangements(base: Tree, ops: seq<Op>, r: seq<Op>, s: seq<Op>)
    requires LatestAgree(ops) && Arrangement(r, ops) && Arrangement(s, ops)
    ensures Fold(base, r) == Fold(base, s)
  {
    forall p: string ensures At(Fold(base, r), p) == At(Fold(base, s), p) {
      LastWriterDecides(base, r, p);
      LastWriterDecides(base, s, p);
      var i := FindLastTouch(r, p);
      var j := FindLastTouch(s, p);
      if i >= 0 { LastTouchIsLatest(r, ops, p, i); InBoth(r, s, p, i, j); }
      if j >= 0 { LastTouchIsLatest(s, ops, p, j); InBoth(s, r, p, j, i); }
    }
    SameEverywhere(Fold(base, r), Fold(base, s));
  }

  lemma InBoth(r: seq<Op>, s: seq<Op>, p: string, i: int, j: int)
    requires multiset(r) == multiset(s) && LastTouch(r, p, i)
    requires j < 0 ==> forall k :: 0 <= k < |s| ==> !Touches(s[k], p)
    ensures j >= 0
  {
    assert r[i] in multiset(s);
  }

  /** A sorted form in which `a` comes after every other op with its clock. */
  lemma ArrangeLast(ops: seq<Op>, a: Op) returns (r: seq<Op>, k: int)
    requires a in ops
    ensures Arrangement(r, ops) && LandsAt(r, a, k)
  {
    var i :| 0 <= i < |ops| && ops[i] == a;
    var rest := ops[..i] + ops[i + 1..];
    assert ops == ops[..i] + [a] + ops[i + 1..];
    var sorted := Arranged(rest);
    InsertKeepsOrder(sorted, a);
    InsertAdds(sorted, a);
    InsertLands(sorted, a);
    r := Insert(sorted, a);
    k :| LandsAt(r, a, k);
  }

  lemma Arranged(ops: seq<Op>) returns (r: seq<Op>)
    ensures Arrangement(r, ops)
  {
    r := [];
    for i := 0 to |ops|
      invariant Arrangement(r, ops[..i])
    {
      InsertKeepsOrder(r, ops[i]);
      InsertAdds(r, ops[i]);
      r := Insert(r, ops[i]);
      assert ops[..i + 1] == ops[..i] + [ops[i]];
    }
    assert ops[..|ops|] == ops;
  }

  /** An op among the latest at `p` can be made the one that decides it. */
  lemma CanDecide(base: Tree, ops: seq<Op>, p: string, a: Op) returns (r: seq<Op>)
    requires Latest(ops, p, a)
    ensures Arrangement(r, ops) && At(Fold(base, r), p) == Leaves(a)
  {
    var k;
    r, k := ArrangeLast(ops, a);
    forall j | k < j < |r| ensures !Touches(r[j], p) {
      assert r[j] in multiset(r);
      assert r[j] in ops;
    }
    assert LastTouch(r, p, k);
    LastWriterDecides(base, r, p);
  }

  /** Replay gives one tree for every order `sortOps` may produce exactly when
      the latest ops at each path agree. */
  lemma ReplayConvergesIff(base: Tree, ops: seq<Op>)
    ensures (forall r, s :: Arrangement(r, ops) && Arrangement(s, ops) ==> Fold(base, r) == Fold(base, s)) <==>
        LatestAgree(ops)
  {
    if LatestAgree(ops) {
      forall r, s | Arrangement(r, ops) && Arrangement(s, ops) ensures Fold(base, r) == Fold(base, s) {
        AgreeingArrangements(base, ops, r, s);
      }
    } else {
      var p, a, b :| Latest(ops, p, a) && Latest(ops, p, b) && Leaves(a) != Leaves(b);
      var r := CanDecide(base, ops, p, a);
      var s := CanDecide(base, ops, p, b);
      assert Fold(base, r) != Fold(base, s);
    }
  }

  /** Distinct clocks are enough, whatever order the ops were listed in. */
  lemma DistinctClocksConverge(base: Tree, xs: seq<Op>, ys: seq<Op>, r: seq<Op>, s: seq<Op>)
    requires multiset(xs) == multiset(ys) && DistinctClocks(xs) && Arrangement(r, xs) && Arrangement(s, ys)
    ensures r == s && Fold(base, r) == Fold(base, s)
  {
    DistinctAreSet(xs, r);
    OneArrangement(r, s);
  }

  lemma DistinctAreSet(xs: seq<Op>, r: seq<Op>)
    requires multiset(xs) == multiset(r) && DistinctClocks(xs)
    ensures DistinctClocks(r)
  {
    forall i, j | 0 <= i < j < |r| ensures r[i].At() != r[j].At() {
      if r[i].At() == r[j].At() {
        assert r[i] in multiset(xs) && r[j] in multiset(xs);
        assert r[i] == r[j];
        Twice(r, i, j);
        AtMostOnce(xs, r[i]);
      }
    }
  }

  lemma Twice(r: seq<Op>, i: int, j: int)
    requires 0 <= i < j < |r| && r[i] == r[j]
    ensures multiset(r)[r[i]] >= 2
  {
    assert r == r[..i] + [r[i]] + r[i + 1..j] + [r[j]] + r[j + 1..];
  }

  lemma {:induction false} AtMostOnce(xs: seq<Op>, x: Op)
    requires DistinctClocks(xs)
    ensures multiset(xs)[x] <= 1
  {
    if xs != [] {
      AtMostOnce(xs[..|xs| - 1], x);
      assert xs == xs[..|xs| - 1] + [xs[|xs| - 1]];
      assert x in multiset(xs[..|xs| - 1]) ==> x in xs[..|xs| - 1];
    }
  }

  // ---- Conflicts ----------------------------------------------------------------------

  /** Two devices edited the same content of one path. */
  predicate Conflicting(a: Op, b: Op) {
    && a.typ.OpPut? && b.typ.OpPut? && a.prevChecksum != "" && a.path == b.path && a.prevChecksum == b.prevChecksum
    && a.device != b.device
  }

  function EditKey(op: Op): (string, string) { (op.path, op.prevChecksum) }

  predicate Edits(op: Op) { op.typ.OpPut? && op.prevChecksum != "" }

  /** `groups` sorts the edits by what they edited. */
  ghost predicate Grouped(ops: seq<Op>, groups: map<(string, string), seq<Op>>) {
    && (forall k :: k in groups ==>
        groups[k] != [] && forall x :: x in groups[k] ==> x in ops && Edits(x) && EditKey(x) == k)
    && (forall x :: x in ops && Edits(x) ==> EditKey(x) in groups && x in groups[EditKey(x)])
  }

  method GroupEdits(ops: seq<Op>) returns (groups: map<(string, string), seq<Op>>)
    ensures Grouped(ops, groups)
  {
    groups := map[];
    for i := 0 to |ops|
      invariant Grouped(ops[..i], groups)
    {
      var op := ops[i];
      assert ops[..i + 1] == ops[..i] + [op];
      if Edits(op) {
        var k := EditKey(op);
        groups := groups[k := (if k in groups then groups[k] else []) + [op]];
      }
    }
    assert ops[..|ops|] == ops;
  }

  /** Each group's first edit against the others: every pair reported is a conflict,
      and every conflict is reported for what it edited. */
  method DetectConflicts(ops: seq<Op>) returns (found: seq<(Op, Op)>)
    ensures forall c :: c in found ==>
        && c.0 in ops && c.1 in ops && c.0.typ.OpPut? && c.1.typ.OpPut? && c.0.device != c.1.device
        && c.0.path == c.1.path && c.0.prevChecksum == c.1.prevChecksum != ""
    ensures forall a, b :: a in ops && b in ops && Conflicting(a, b) ==>
        exists c :: c in found && EditKey(c.0) == EditKey(a)
    ensures forall a, b ::
        (a in ops && b in ops && a.typ.OpPut? && b.typ.OpPut? && a.device != b.device
         && a.path == b.path && a.prevChecksum == b.prevChecksum != "") ==>
        exists c :: c in found && c.0.path == a.path && c.0.prevChecksum == a.prevChecksum
  {
    var groups := GroupEdits(ops);
    found := [];
    var pending := groups.Keys;
    while pending != {}
      invariant pending <= groups.Keys
      invariant forall c :: c in found ==> c.0 in ops && c.1 in ops && Conflicting(c.0, c.1)
      invariant forall k, x :: k in groups && k !in pending && x in groups[k] && x.device != groups[k][0].device ==>
        exists c :: c in found && EditKey(c.0) == k
      decreases pending
    {
      var k :| k in pending;
      var more := Against(groups[k], k);
      assert forall c :: c in more ==> c.0 in groups[k] && c.1 in groups[k];
      forall c | c in found ensures c in found + more {}
      forall c | c in more ensures c in found + more {}
      found, pending := found + more, pending - {k};
    }
    forall a, b | a in ops && b in ops && Conflicting(a, b)
        ensures exists c :: c in found && EditKey(c.0) == EditKey(a) {
      var k := EditKey(a);
      assert a in groups[k] && b in groups[k];
      assert a.device != groups[k][0].device || b.device != groups[k][0].device;
    }
  }

  method Against(group: seq<Op>, k: (string, string)) returns (found: seq<(Op, Op)>)
    requires group != [] && forall x :: x in group ==> Edits(x) && EditKey(x) == k
    ensures forall c :: c in found ==> c.0 == group[0] && c.1 in group && Conflicting(c.0, c.1)
    ensures (exists x :: x in group && x.device != group[0].device) ==> exists c :: c in found && EditKey(c.0) == k
  {
    found := [];
    assert group[0] in group;
    for i := 1 to |group|
      invariant forall c :: c in found ==> c.0 == group[0] && c.1 in group && Conflicting(c.0, c.1)
      invariant found == [] ==> forall j :: 0 <= j < i ==> group[j].device == group[0].device
    {
      if group[i].device != group[0].device {
        assert group[i] in group;
        found := found + [(group[0], group[i])];
      }
    }
    if found != [] { assert found[0] in found; }
  }
}
