/**
Logical paths and the Windows path policy (pkg/fs/path.go, pkg/fs/path_policy.go).

`fold` stands for lower-casing. Error texts are left out: a refused path is None.
*/
module WindowsPaths {
  import opened Ordering
  import opened OpsLog

  // ---- Segments ------------------------------------------------------------------------------

  function Split(s: string): (parts: seq<string>)
    ensures |parts| >= 1
  {
    if s == [] then [[]]
    else if s[0] == '/' then [[]] + Split(s[1..])
    else
      var rest := Split(s[1..]);
      [[s[0]] + rest[0]] + rest[1..]
  }

  function Join(parts: seq<string>): string
    requires |parts| >= 1
  {
    if |parts| == 1 then parts[0] else parts[0] + "/" + Join(parts[1..])
  }

  lemma {:induction false} JoinSplit(s: string)
    ensures Join(Split(s)) == s
  {
    if s != [] {
      JoinSplit(s[1..]);
      var rest := Split(s[1..]);
      if s[0] == '/' {
        assert ([[]] + rest)[1..] == rest;
        assert Join(Split(s)) == [] + "/" + Join(rest);
      } else if |rest| > 1 {
        var parts := [[s[0]] + rest[0]] + rest[1..];
        assert parts[1..] == rest[1..];
        assert Join(parts) == [s[0]] + rest[0] + "/" + Join(rest[1..]);
      }
    }
  }

  function Slashed(s: string): (r: string)
    ensures |r| == |s| && '\\' !in r && ('\\' !in s ==> r == s)
    ensures forall i :: 0 <= i < |s| ==> r[i] == if s[i] == '\\' then '/' else s[i]
  {
    if s == [] then [] else [if s[0] == '\\' then '/' else s[0]] + Slashed(s[1..])
  }

  predicate IsAlpha(c: char) { 'a' <= c <= 'z' || 'A' <= c <= 'Z' }

  predicate Relative(path: string) {
    path != "" && path != "." && path[0] != '/' && !(|path| >= 2 && path[1] == ':' && IsAlpha(path[0]))
  }

  predicate PlainSegments(parts: seq<string>) {
    forall part :: part in parts ==> part != "" && part != "." && part != ".."
  }

  /** The canonical form, or none if the path is refused. */
  function Normalize(raw: string, convertBackslashes: bool): Option<string> {
    if !convertBackslashes && '\\' in raw then None
    else
      var path := if convertBackslashes then Slashed(raw) else raw;
      if Relative(path) && PlainSegments(Split(path)) then Some(Join(Split(path))) else None
  }

  /** Normalising only turns backslashes around; what it returns is canonical and
      is returned again unchanged by both forms. */
  lemma NormalizeFixed(raw: string)
    ensures var r := Normalize(raw, true); r.Some? ==>
      r.value == Slashed(raw) && Normalize(r.value, true) == r && Normalize(r.value, false) == r
    ensures var r := Normalize(raw, false); r.Some? ==> r == Some(raw) && Normalize(raw, true) == r
  {
    JoinSplit(Slashed(raw));
    JoinSplit(raw);
  }

  /** With JoinSplit, what the pieces between the slashes are. */
  lemma {:induction false} SplitParts(s: string)
    ensures forall part :: part in Split(s) ==> '/' !in part
  {
    if s != [] { SplitParts(s[1..]); }
  }

  /** Which paths are refused, and that others keep their slashed form. */
  lemma NormalizeIff(raw: string, convertBackslashes: bool)
    ensures var path := if convertBackslashes then Slashed(raw) else raw;
      Normalize(raw, convertBackslashes) ==
      if && (convertBackslashes || '\\' !in raw) && path != "" && path != "." && path[0] != '/'
         && !(|path| >= 2 && path[1] == ':' && ('a' <= path[0] <= 'z' || 'A' <= path[0] <= 'Z'))
         && forall part :: part in Split(path) ==> part != "" && part != "." && part != ".."
      then Some(path) else None
  {
    JoinSplit(if convertBackslashes then Slashed(raw) else raw);
  }

  // ---- The Windows rules ------------------------------------------------------------------------

  function Upper(s: string): (r: string)
    ensures |r| == |s|
    ensures forall i :: 0 <= i < |s| ==> r[i] == if 'a' <= s[i] <= 'z' then s[i] - 'a' + 'A' else s[i]
  {
    if s == [] then [] else [if 'a' <= s[0] <= 'z' then s[0] - 'a' + 'A' else s[0]] + Upper(s[1..])
  }

  /** Case folding of other letters never yields one of these. */
  const Reserved := {
    "CON", "PRN", "AUX", "NUL",
    "COM1", "COM2", "COM3", "COM4", "COM5", "COM6", "COM7", "COM8", "COM9",
    "LPT1", "LPT2", "LPT3", "LPT4", "LPT5", "LPT6", "LPT7", "LPT8", "LPT9"}

  function UpToDot(s: string): (r: string)
    ensures r <= s && '.' !in r && (|r| < |s| ==> s[|r|] == '.')
  {
    if s == [] || s[0] == '.' then [] else [s[0]] + UpToDot(s[1..])
  }

  predicate ForbiddenChar(c: char) {
    c < ' ' || c == ':' || c == '<' || c == '>' || c == '"' || c == '|' || c == '?' || c == '*'
  }

  predicate ValidSegment(s: string) {
    && s != "" && s[|s| - 1] != '.' && s[|s| - 1] != ' '
    && (forall c :: c in s ==> !ForbiddenChar(c))
    && Upper(UpToDot(s)) !in Reserved
  }

  predicate ValidOnWindows(path: string) {
    var r := Normalize(path, true);
    r.Some? && forall part :: part in Split(r.value) ==> ValidSegment(part)
  }

  // ---- Issues --------------------------------------------------------------------------------------

  datatype Issue = Invalid(path: string) | Collision(paths: set<string>) {
    function Paths(): set<string> { if Invalid? then {path} else paths }
  }

  predicate Acceptable(path: string) { Normalize(path, false).Some? && ValidOnWindows(path) }

  /** The acceptable paths that fold to `key`. */
  function Group(paths: set<string>, fold: string -> string, key: string): set<string> {
    set p | p in paths && Acceptable(p) && fold(p) == key
  }

  /** A path on its own, or with the others it collides with. */
  function IssuesOf(paths: set<string>, fold: string -> string): set<Issue> {
    (set p | p in paths && !Acceptable(p) :: Invalid(p))
    + (set p | p in paths && Acceptable(p) && |Group(paths, fold, fold(p))| > 1 ::
        Collision(Group(paths, fold, fold(p))))
  }

  /** Groups paths by folded form as it meets them; repeats and order do not show. */
  method DetectWindowsPathIssues(paths: seq<string>, fold: string -> string) returns (issues: set<Issue>)
    ensures issues == IssuesOf((set p | p in paths), fold)
  {
    hide Acceptable;
    var unique: set<string>, groups: map<string, set<string>> := {}, map[];
    issues := {};
    for i := 0 to |paths|
      invariant unique == set p | p in paths[..i]
      invariant issues == set p | p in unique && !Acceptable(p) :: Invalid(p)
      invariant forall k :: k in groups <==> exists p :: p in unique && Acceptable(p) && fold(p) == k
      invariant forall k :: k in groups ==> groups[k] == Group(unique, fold, k)
    {
      var path := paths[i];
      assert paths[..i + 1] == paths[..i] + [path];
      ghost var before := unique;
      if path !in unique {
        unique := unique + {path};
        if Acceptable(path) {
          var key := fold(path);
          assert Group(unique, fold, key) == Group(before, fold, key) + {path};
          assert key !in groups ==> Group(before, fold, key) == {};
          groups := groups[key := (if key in groups then groups[key] else {}) + {path}];
          forall k | k in groups && k != key ensures groups[k] == Group(unique, fold, k) {
            assert Group(unique, fold, k) == Group(before, fold, k);
          }
          forall k ensures k in groups <==> exists p :: p in unique && Acceptable(p) && fold(p) == k {
            if k in groups && k != key { var p :| p in before && Acceptable(p) && fold(p) == k; assert p in unique; }
            if k == key { assert path in unique; }
          }
        } else {
          issues := issues + {Invalid(path)};
          forall k ensures Group(unique, fold, k) == Group(before, fold, k) {}
          forall k ensures k in groups <==> exists p :: p in unique && Acceptable(p) && fold(p) == k {
            if k in groups { var p :| p in before && Acceptable(p) && fold(p) == k; assert p in unique; }
          }
        }
      }
    }
    assert paths[..|paths|] == paths;
    var collisions := set k | k in groups && |groups[k]| > 1 :: Collision(groups[k]);
    Collisions(unique, fold, groups, collisions);
    issues := issues + collisions;
  }

  lemma Collisions(
        unique: set<string>, fold: string -> string, groups: map<string, set<string>>, collisions: set<Issue>)
    requires forall k :: k in groups <==> exists p :: p in unique && Acceptable(p) && fold(p) == k
    requires forall k :: k in groups ==> groups[k] == Group(unique, fold, k)
    requires collisions == set k | k in groups && |groups[k]| > 1 :: Collision(groups[k])
    ensures collisions == set p | p in unique && Acceptable(p)
      && |Group(unique, fold, fold(p))| > 1 :: Collision(Group(unique, fold, fold(p)))
  {
    hide Acceptable;
    forall p | p in unique && Acceptable(p) && |Group(unique, fold, fold(p))| > 1
        ensures Collision(Group(unique, fold, fold(p))) in collisions {
      assert fold(p) in groups;
    }
    forall k | k in groups && |groups[k]| > 1
      ensures exists p ::
          p in unique && Acceptable(p) && |Group(unique, fold, fold(p))| > 1
          && groups[k] == Group(unique, fold, fold(p))
    {
      var p :| p in unique && Acceptable(p) && fold(p) == k;
    }
  }

  predicate AtOrBelow(path: string, p: string) { path == p || Under(p, path) }

  /** An issue blocks its paths and everything below them. */
  predicate BlockedBy(path: string, i: Issue) {
    exists p :: p in i.Paths() && AtOrBelow(path, p)
  }

  predicate Blocked(path: string, issues: set<Issue>) {
    exists i :: i in issues && BlockedBy(path, i)
  }

  method PathIssueBlocksPath(path: string, issues: set<Issue>) returns (blocked: bool)
    ensures blocked <==> Blocked(path, issues)
  {
    var pending := issues;
    while pending != {}
      invariant pending <= issues
      invariant forall i :: i in issues && i !in pending ==> !BlockedBy(path, i)
      decreases pending
    {
      var i :| i in pending;
      if BlockedBy(path, i) { return true; }
      pending := pending - {i};
    }
    blocked := false;
  }

  /** A name Windows takes: no trailing dot or space, no reserved character, no device
      name before a dot. */
  predicate SafeName(part: string) {
    && part != "" && part[|part| - 1] != '.' && part[|part| - 1] != ' '
    && (forall c :: c in part ==> ' ' <= c && c !in ":<>\"|?*")
    && Upper(UpToDot(part)) !in {"CON", "PRN", "AUX", "NUL",
         "COM1", "COM2", "COM3", "COM4", "COM5", "COM6", "COM7", "COM8", "COM9",
         "LPT1", "LPT2", "LPT3", "LPT4", "LPT5", "LPT6", "LPT7", "LPT8", "LPT9"}
  }

  lemma SafeNameIff(part: string)
    ensures ValidSegment(part) <==> SafeName(part)
  {
    hide UpToDot, Upper;
    forall c ensures ForbiddenChar(c) <==> c < ' ' || c in ":<>\"|?*" { Punctuation(c); }
  }

  /** Exactly the canonical paths whose segments are such names are accepted. */
  lemma AcceptableIff(p: string)
    ensures Acceptable(p) <==> Normalize(p, false) == Some(p) && forall part :: part in Split(p) ==> SafeName(part)
  {
    NormalizeFixed(p);
    hide SafeName, ValidSegment, Normalize, Split;
    forall part { SafeNameIff(part); }
  }

  lemma Punctuation(c: char)
    ensures c in ":<>\"|?*" <==> c == ':' || c == '<' || c == '>' || c == '"' || c == '|' || c == '?' || c == '*'
  {
    var s := ":<>\"|?*";
    assert |s| == 7 && s[0] == ':' && s[1] == '<' && s[2] == '>' && s[3] == '"' && s[4] == '|' && s[5] == '?'
      && s[6] == '*';
  }

  /** The paths left unblocked are canonical and valid on Windows, and no two of
      them fold to the same name. */
  lemma UnblockedPathsAreSafe(paths: set<string>, fold: string -> string, p: string, q: string)
    requires p in paths && q in paths && !Blocked(p, IssuesOf(paths, fold)) && !Blocked(q, IssuesOf(paths, fold))
    ensures Normalize(p, false) == Some(p) && ValidOnWindows(p)
    ensures fold(p) == fold(q) ==> p == q
  {
    Unblocked(paths, fold, p);
    Unblocked(paths, fold, q);
    NormalizeFixed(p);
    hide Acceptable, IssuesOf, Blocked;
    if fold(p) == fold(q) && p != q {
      var g := Group(paths, fold, fold(p));
      assert {p, q} <= g by { assert Acceptable(p) && Acceptable(q); }
      TwoElements(g, p, q);
    }
  }

  lemma Unblocked(paths: set<string>, fold: string -> string, p: string)
    requires p in paths
    ensures Blocked(p, IssuesOf(paths, fold)) || (Acceptable(p) && |Group(paths, fold, fold(p))| <= 1)
  {
    hide Acceptable;
    var issues := IssuesOf(paths, fold);
    if !Acceptable(p) {
      assert Invalid(p) in issues && p in Invalid(p).Paths() && AtOrBelow(p, p);
    } else if |Group(paths, fold, fold(p))| > 1 {
      var c := Collision(Group(paths, fold, fold(p)));
      assert c in issues && p in c.Paths() && AtOrBelow(p, p);
    }
  }

  /** An issue names a path exactly when Windows would not take it, or another taken
      path folds to the same name. */
  lemma NamedIff(paths: set<string>, fold: string -> string, p: string)
    requires p in paths
    ensures (exists i :: i in IssuesOf(paths, fold) && p in i.Paths()) <==>
      !Acceptable(p) || exists q :: q in paths && q != p && Acceptable(q) && fold(q) == fold(p)
  {
    hide Acceptable;
    var g := Group(paths, fold, fold(p));
    if !Acceptable(p) {
      assert Invalid(p) in IssuesOf(paths, fold) && p in Invalid(p).Paths();
    } else {
      if q :| q in paths && q != p && Acceptable(q) && fold(q) == fold(p) {
        assert {p, q} <= g;
        TwoElements(g, p, q);
        assert Collision(g) in IssuesOf(paths, fold) && p in Collision(g).Paths();
      } else {
        assert g == {p};
        OthersDoNotName(paths, fold, p);
      }
    }
  }

  lemma OthersDoNotName(paths: set<string>, fold: string -> string, p: string)
    requires p in paths && Acceptable(p) && Group(paths, fold, fold(p)) == {p}
    ensures forall i :: i in IssuesOf(paths, fold) ==> p !in i.Paths()
  {
    hide Acceptable;
    forall i | i in IssuesOf(paths, fold) ensures p !in i.Paths() {
      if i.Collision? {
        var q :| q in paths && Acceptable(q) && |Group(paths, fold, fold(q))| > 1
          && i.paths == Group(paths, fold, fold(q));
        assert p in i.paths ==> fold(p) == fold(q);
      }
    }
  }

  lemma TwoElements(s: set<string>, p: string, q: string)
    requires {p, q} <= s && p != q
    ensures |s| > 1
  {
    assert |s - {p, q}| == |s| - 2;
  }
}
