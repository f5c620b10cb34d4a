/** The `folders` table of one workspace, its parent graph and the read-only
    queries of the folder repository.

    A row stores its place in the tree three times: in `parent`, in the
    materialised `path` and in `depth`. Paths are sequences of ids here;
    module PathText relates them to the slash-joined strings. */
module FolderTable {
  import opened Prelude

  type Id = nat

  datatype PurgeStatus = NotScheduled | Scheduled | Purging | Purged

  /** `name` is the stripped, lower-cased name, the form all comparisons use. */
  datatype Folder = Folder(parent: Option<Id>, path: seq<Id>, depth: int, deleted: bool,
                           name: string, version: int, purge: PurgeStatus)

  type Table = map<Id, Folder>

  const MAX_DEPTH := 10

  predicate Active(t: Table, x: Id) {
    x in t && !t[x].deleted
  }

  // ---------------------------------------------------------------- parent graph

  /** `n` parent links lead from `x` to `r`. */
  ghost predicate Hops(t: Table, x: Id, r: Id, n: nat)
    decreases n
  {
    if n == 0 then x == r
    else x in t && t[x].parent.Some? && Hops(t, t[x].parent.value, r, n - 1)
  }

  /** `x` is `r` or lies in the subtree of `r`. */
  ghost predicate Below(t: Table, x: Id, r: Id) {
    exists n: nat :: Hops(t, x, r, n)
  }

  /** The upward walk from `x` stops, at a root row, after exactly `n` links. */
  ghost predicate Ends(t: Table, x: Id, n: nat)
    decreases n
  {
    x in t && (if n == 0 then t[x].parent.None?
               else t[x].parent.Some? && Ends(t, t[x].parent.value, n - 1))
  }

  /** Every upward walk terminates at a root. */
  ghost predicate Forest(t: Table) {
    forall x :: x in t ==> exists n: nat :: Ends(t, x, n)
  }

  /** The ids from the root down to `x`, read off the parent links. */
  ghost function TruePath(t: Table, x: Id, n: nat): seq<Id>
    requires Ends(t, x, n)
    decreases n
  {
    if n == 0 then [x] else TruePath(t, t[x].parent.value, n - 1) + [x]
  }

  lemma {:induction false} EndsUnique(t: Table, x: Id, n: nat, m: nat)
    requires Ends(t, x, n) && Ends(t, x, m)
    ensures n == m
    decreases n
  {
    if n > 0 && m > 0 { EndsUnique(t, t[x].parent.value, n - 1, m - 1); }
  }

  lemma {:induction false} HopsThenEnds(t: Table, x: Id, r: Id, k: nat, n: nat)
    requires Hops(t, x, r, k) && Ends(t, r, n)
    ensures Ends(t, x, n + k)
    decreases k
  {
    if k > 0 { HopsThenEnds(t, t[x].parent.value, r, k - 1, n); }
  }

  /** The foreign key of `parent_id`. */
  ghost predicate ForeignKey(t: Table) {
    forall x :: x in t && t[x].parent.Some? ==> t[x].parent.value in t
  }

  lemma ForestHasKeys(t: Table)
    requires Forest(t)
    ensures ForeignKey(t)
  {
    forall x | x in t && t[x].parent.Some? ensures t[x].parent.value in t { ParentInTable(t, x); }
  }

  lemma ParentInTable(t: Table, x: Id)
    requires Forest(t) && x in t && t[x].parent.Some?
    ensures t[x].parent.value in t
  {
    var n: nat :| Ends(t, x, n);
    assert Ends(t, t[x].parent.value, n - 1);
  }

  /** A forest has no cycle: no walk of at least one link returns to its start. */
  lemma NoCycle(t: Table, x: Id, k: nat)
    requires Forest(t) && x in t && Hops(t, x, x, k)
    ensures k == 0
  {
    var n: nat :| Ends(t, x, n);
    HopsThenEnds(t, x, x, k, n);
    EndsUnique(t, x, n, n + k);
  }

  /** The walk up from `x` comes back to `x`. */
  ghost predicate OnCycle(t: Table, x: Id) {
    exists n: nat :: n > 0 && Hops(t, x, x, n)
  }

  /** The last link of a walk. */
  lemma {:induction false} LastHop(t: Table, x: Id, r: Id, n: nat) returns (y: Id)
    requires n > 0 && Hops(t, x, r, n)
    ensures y in t && t[y].parent == Some(r) && Hops(t, x, y, n - 1)
    decreases n
  {
    if n == 1 { y := x; } else { y := LastHop(t, t[x].parent.value, r, n - 1); }
  }

  /** Both tables hold the same rows with the same parent links. */
  ghost predicate SameLinks(t: Table, u: Table) {
    t.Keys == u.Keys && forall x :: x in t ==> t[x].parent == u[x].parent
  }

  lemma {:induction false} HopsSameLinks(t: Table, u: Table, x: Id, r: Id, n: nat)
    requires SameLinks(t, u)
    ensures Hops(t, x, r, n) <==> Hops(u, x, r, n)
    decreases n
  {
    if n > 0 && x in t && t[x].parent.Some? { HopsSameLinks(t, u, t[x].parent.value, r, n - 1); }
  }

  lemma {:induction false} EndsSameLinks(t: Table, u: Table, x: Id, n: nat)
    requires SameLinks(t, u)
    ensures Ends(t, x, n) <==> Ends(u, x, n)
    decreases n
  {
    if n > 0 && x in t && t[x].parent.Some? { EndsSameLinks(t, u, t[x].parent.value, n - 1); }
  }

  lemma ForestSameLinks(t: Table, u: Table)
    requires SameLinks(t, u) && Forest(t)
    ensures Forest(u)
  {
    forall x | x in u ensures exists n: nat :: Ends(u, x, n) {
      var n: nat :| Ends(t, x, n);
      EndsSameLinks(t, u, x, n);
    }
  }

  // ---------------------------------------------------------------- changing one link

  /** `u` is `t` with the parent link of `s` set to `p`; other columns are free. */
  ghost predicate Relinked(t: Table, u: Table, s: Id, p: Option<Id>) {
    && t.Keys == u.Keys && s in t && u[s].parent == p
    && forall x :: x in t && x != s ==> u[x].parent == t[x].parent
  }

  lemma {:induction false} EndsAvoiding(t: Table, u: Table, s: Id, p: Option<Id>, x: Id, n: nat)
    requires Relinked(t, u, s, p) && Ends(t, x, n) && !Below(t, x, s)
    ensures Ends(u, x, n)
    decreases n
  {
    assert x != s by { if x == s { assert Hops(t, x, s, 0); } }
    if n > 0 {
      var q := t[x].parent.value;
      if Below(t, q, s) {
        var k: nat :| Hops(t, q, s, k);
        assert Hops(t, x, s, k + 1);
        assert false;
      }
      EndsAvoiding(t, u, s, p, q, n - 1);
    }
  }

  /** Below `s` the walk up to `s` is untouched by relinking `s`. */
  lemma {:induction false} HopsRelinked(t: Table, u: Table, s: Id, p: Option<Id>, x: Id, n: nat)
    requires Relinked(t, u, s, p) && Forest(t) && Hops(t, x, s, n)
    ensures Hops(u, x, s, n)
    decreases n
  {
    if n > 0 {
      if x == s { NoCycle(t, s, n); assert false; }
      HopsRelinked(t, u, s, p, t[x].parent.value, n - 1);
    }
  }

  lemma {:induction false} EndsRelinked(t: Table, u: Table, s: Id, p: Option<Id>, x: Id, n: nat, sn: nat)
    requires Relinked(t, u, s, p) && Ends(t, x, n) && Ends(u, s, sn)
    ensures exists m: nat :: Ends(u, x, m)
    decreases n
  {
    if x == s {
    } else if n == 0 {
      assert Ends(u, x, 0);
    } else {
      EndsRelinked(t, u, s, p, t[x].parent.value, n - 1, sn);
      var m: nat :| Ends(u, t[x].parent.value, m);
      assert Ends(u, x, m + 1);
    }
  }

  /** In a forest `u` made by relinking `s` below `p`, the walk up from `p` never meets `s`. */
  lemma {:induction false} WalkMeets(t: Table, u: Table, s: Id, p: Id, x: Id, n: nat)
    requires Relinked(t, u, s, Some(p)) && Hops(t, x, s, n)
    ensures exists k: nat :: Hops(u, x, s, k)
    decreases n
  {
    if x == s {
      assert Hops(u, x, s, 0);
    } else {
      WalkMeets(t, u, s, p, t[x].parent.value, n - 1);
      var k: nat :| Hops(u, t[x].parent.value, s, k);
      assert Hops(u, x, s, k + 1);
    }
  }

  /** Relinking `s` under `p` keeps a forest exactly when `p` is not in the subtree of `s`. */
  lemma RelinkKeepsForestIff(t: Table, u: Table, s: Id, p: Id)
    requires Forest(t) && p in t && Relinked(t, u, s, Some(p))
    ensures Forest(u) <==> !Below(t, p, s)
  {
    if Below(t, p, s) {
      var n: nat :| Hops(t, p, s, n);
      WalkMeets(t, u, s, p, p, n);
      var k: nat :| Hops(u, p, s, k);
      assert Hops(u, s, s, k + 1);
      if Forest(u) { NoCycle(u, s, k + 1); }
    } else {
      var pn: nat :| Ends(t, p, pn);
      EndsAvoiding(t, u, s, Some(p), p, pn);
      assert Ends(u, s, pn + 1);
      RelinkedForest(t, u, s, Some(p), pn + 1);
    }
  }

  lemma RelinkToRoot(t: Table, u: Table, s: Id)
    requires Forest(t) && Relinked(t, u, s, None)
    ensures Forest(u)
  {
    assert Ends(u, s, 0);
    RelinkedForest(t, u, s, None, 0);
  }

  lemma RelinkedForest(t: Table, u: Table, s: Id, p: Option<Id>, sn: nat)
    requires Forest(t) && Relinked(t, u, s, p) && Ends(u, s, sn)
    ensures Forest(u)
  {
    forall x | x in u ensures exists m: nat :: Ends(u, x, m) {
      var n: nat :| Ends(t, x, n);
      EndsRelinked(t, u, s, p, x, n, sn);
    }
  }

  /** `u` is `t` with a new leaf row `x` under `p` (an existing row) or at the top. */
  lemma LeafKeepsForest(t: Table, u: Table, x: Id, p: Option<Id>)
    requires Forest(t) && x !in t && (p.Some? ==> p.value in t)
    requires u.Keys == t.Keys + {x} && u[x].parent == p
    requires forall y :: y in t ==> u[y].parent == t[y].parent
    ensures Forest(u)
  {
    forall y | y in t ensures exists n: nat :: Ends(u, y, n) {
      var n: nat :| Ends(t, y, n);
      EndsLarger(t, u, y, n);
    }
    if p.Some? {
      var n: nat :| Ends(u, p.value, n);
      assert Ends(u, x, n + 1);
    } else {
      assert Ends(u, x, 0);
    }
  }

  lemma {:induction false} EndsLarger(t: Table, u: Table, y: Id, n: nat)
    requires t.Keys <= u.Keys && forall z :: z in t ==> u[z].parent == t[z].parent
    requires Ends(t, y, n)
    ensures Ends(u, y, n)
    decreases n
  {
    if n > 0 { EndsLarger(t, u, t[y].parent.value, n - 1); }
  }

  // ---------------------------------------------------------------- stored paths

  /** The stored path of `x` is the stored path of its parent followed by `x`. */
  ghost predicate PathLink(t: Table, x: Id)
    requires x in t
  {
    match t[x].parent
    case None => t[x].path == [x]
    case Some(p) => p in t && t[x].path == t[p].path + [x]
  }

  /** `path` agrees with `parent` on every row, deleted ones included. */
  ghost predicate PathsAgree(t: Table) {
    forall x :: x in t ==> PathLink(t, x)
  }

  /** All three representations of the tree agree. */
  ghost predicate WellFormed(t: Table) {
    PathsAgree(t) && forall x :: x in t ==> t[x].depth == |t[x].path| - 1
  }

  /** The number of links from `x` up to its root. */
  ghost function TrueDepth(t: Table, x: Id): (n: nat)
    requires Forest(t) && x in t
    ensures Ends(t, x, n)
  {
    var n: nat :| Ends(t, x, n);
    n
  }

  /** How far the stored depth of a row is off. */
  ghost function Drift(t: Table, x: Id): int
    requires Forest(t) && x in t
  {
    t[x].depth - TrueDepth(t, x)
  }

  lemma TrueDepthIs(t: Table, x: Id, n: nat)
    requires Forest(t) && Ends(t, x, n)
    ensures x in t && TrueDepth(t, x) == n
  {
    EndsUnique(t, x, n, TrueDepth(t, x));
  }

  lemma TrueDepthBelow(t: Table, x: Id, r: Id, n: nat)
    requires Forest(t) && x in t && r in t && Hops(t, x, r, n)
    ensures TrueDepth(t, x) == TrueDepth(t, r) + n
  {
    HopsThenEnds(t, x, r, n, TrueDepth(t, r));
    TrueDepthIs(t, x, TrueDepth(t, r) + n);
  }

  /** No active row hangs under a deleted one. */
  ghost predicate DeletedClosed(t: Table) {
    forall x :: Active(t, x) && t[x].parent.Some? && t[x].parent.value in t
                ==> !t[t[x].parent.value].deleted
  }

  /** Every active row has an active parent (or none) and a stored path that agrees with it. */
  ghost predicate ActivePaths(t: Table) {
    forall x {:trigger ActiveLink(t, x)} :: Active(t, x) ==> ActiveLink(t, x)
  }

  ghost predicate ActiveLink(t: Table, x: Id)
    requires x in t
  {
    match t[x].parent
    case None => t[x].path == [x]
    case Some(p) => Active(t, p) && t[x].path == t[p].path + [x]
  }

  lemma AgreeIsActive(t: Table)
    requires PathsAgree(t) && DeletedClosed(t)
    ensures ActivePaths(t)
  {
    forall x: Id | Active(t, x) ensures ActiveLink(t, x) {
      assert PathLink(t, x);
    }
  }

  /** An active row's stored path is the walk up its parent links, which terminates. */
  lemma {:induction false} ActivePathIsTrue(t: Table, x: Id)
    requires ActivePaths(t) && Active(t, x)
    ensures |t[x].path| > 0
    ensures Ends(t, x, |t[x].path| - 1)
    ensures t[x].path == TruePath(t, x, |t[x].path| - 1)
    decreases |t[x].path|
  {
    assert ActiveLink(t, x);
    match t[x].parent
    case None =>
    case Some(p) => ActivePathIsTrue(t, p);
  }

  ghost predicate StoresTruePath(t: Table, x: Id) {
    exists n: nat :: EndsWithPath(t, x, n)
  }

  ghost predicate EndsWithPath(t: Table, x: Id, n: nat) {
    Ends(t, x, n) && t[x].path == TruePath(t, x, n)
  }

  lemma {:induction false} WellFormedPath(t: Table, x: Id)
    requires PathsAgree(t) && x in t
    ensures |t[x].path| > 0 && t[x].path[|t[x].path| - 1] == x
    ensures Ends(t, x, |t[x].path| - 1)
    ensures t[x].path == TruePath(t, x, |t[x].path| - 1)
    decreases |t[x].path|
  {
    assert PathLink(t, x);
    match t[x].parent
    case None =>
    case Some(p) => WellFormedPath(t, p);
  }

  /** On a well-formed table no depth has drifted. */
  lemma WellFormedDepth(t: Table, x: Id)
    requires WellFormed(t) && Forest(t) && x in t
    ensures Drift(t, x) == 0
  {
    WellFormedPath(t, x);
    TrueDepthIs(t, x, |t[x].path| - 1);
  }

  /** Agreement of the stored paths already forces the parent graph to be a forest. */
  lemma AgreeIsForest(t: Table)
    requires PathsAgree(t)
    ensures Forest(t)
  {
    forall x | x in t ensures exists n: nat :: Ends(t, x, n) {
      WellFormedPath(t, x);
    }
  }

  // ---------------------------------------------------------------- repository queries

  /** `check_cycle`, on paths as sequences: the source path is the target path or an initial part of it. */
  predicate CheckCycle(targetPath: seq<Id>, sourcePath: seq<Id>) {
    targetPath == sourcePath || sourcePath < targetPath
  }

  lemma ActivePathEnd(t: Table, x: Id)
    requires ActivePaths(t) && Active(t, x)
    ensures |t[x].path| > 0 && t[x].path[|t[x].path| - 1] == x
  {
    assert ActiveLink(t, x);
  }

  lemma {:induction false} PrefixIsBelow(t: Table, x: Id, s: Id)
    requires ActivePaths(t) && Active(t, x) && Active(t, s)
    requires t[s].path <= t[x].path
    ensures Below(t, x, s)
    decreases |t[x].path|
  {
    assert ActiveLink(t, x);
    ActivePathEnd(t, s);
    if |t[s].path| == |t[x].path| {
      assert t[s].path == t[x].path;
      assert x == s;
      assert Hops(t, x, s, 0);
    } else {
      var p := t[x].parent.value;
      assert t[s].path <= t[p].path;
      PrefixIsBelow(t, p, s);
      var n: nat :| Hops(t, p, s, n);
      assert Hops(t, x, s, n + 1);
    }
  }

  lemma {:induction false} BelowIsPrefix(t: Table, x: Id, s: Id, n: nat)
    requires ActivePaths(t) && Active(t, x) && Hops(t, x, s, n)
    ensures Active(t, s) && t[s].path <= t[x].path && |t[x].path| == |t[s].path| + n
    decreases n
  {
    assert ActiveLink(t, x);
    if n > 0 { BelowIsPrefix(t, t[x].parent.value, s, n - 1); }
  }

  /** The cycle check answers exactly the question "is the target the source or in its subtree?". */
  lemma CheckCycleExact(t: Table, target: Id, source: Id)
    requires ActivePaths(t) && Active(t, target) && Active(t, source)
    ensures CheckCycle(t[target].path, t[source].path) <==> Below(t, target, source)
  {
    if CheckCycle(t[target].path, t[source].path) { PrefixIsBelow(t, target, source); }
    if Below(t, target, source) {
      var n: nat :| Hops(t, target, source, n);
      BelowIsPrefix(t, target, source, n);
    }
  }

  /** All rows the recursive query of `get_subtree_height` visits: deletion is not filtered. */
  ghost function Subtree(t: Table, f: Id): set<Id> {
    set x | x in t && Below(t, x, f)
  }

  /** The largest stored depth in the subtree. */
  ghost function DeepestIn(t: Table, f: Id): (m: int)
    requires f in t
    ensures exists x :: x in Subtree(t, f) && t[x].depth == m
    ensures forall x :: x in Subtree(t, f) ==> t[x].depth <= m
  {
    assert Hops(t, f, f, 0);
    assert f in Subtree(t, f);
    t[DeepestOf(t, Subtree(t, f))].depth
  }

  /** `get_subtree_height`: the largest stored depth in the subtree minus the stored depth of `f`; a largest depth of 0
      counts as missing and is replaced by the depth of `f`. */
  ghost function SubtreeHeight(t: Table, f: Id): (h: int)
    requires f in t
    ensures h >= 0
    ensures h == if DeepestIn(t, f) == 0 then 0 else DeepestIn(t, f) - t[f].depth
  {
    assert Hops(t, f, f, 0);
    assert f in Subtree(t, f);
    (if DeepestIn(t, f) == 0 then t[f].depth else DeepestIn(t, f)) - t[f].depth
  }

  /** By how much the answer of the height query is too small. */
  ghost function Shortfall(t: Table, f: Id): int
    requires f in t
  {
    DeepestIn(t, f) - t[f].depth - SubtreeHeight(t, f)
  }

  /** The fallback matters only for a negative depth: the answer falls short exactly when the subtree starts below 0 and
      ends at 0. */
  lemma HeightFallsShort(t: Table, f: Id)
    requires f in t
    ensures Shortfall(t, f) == if DeepestIn(t, f) == 0 && t[f].depth < 0 then -t[f].depth else 0
  {
    assert Hops(t, f, f, 0);
    assert f in Subtree(t, f);
  }

  ghost function DeepestOf(t: Table, s: set<Id>): (m: Id)
    requires s != {} && s <= t.Keys
    ensures m in s && forall x :: x in s ==> t[x].depth <= t[m].depth
  {
    var x :| x in s;
    if s == {x} then x
    else
      var m := DeepestOf(t, s - {x});
      if t[x].depth <= t[m].depth then m else x
  }

  /** On a well-formed table the stored-depth query measures the real tree:
      it is the greatest number of parent links from a member up to `f`. */
  lemma SubtreeHeightIsTrue(t: Table, f: Id)
    requires WellFormed(t) && f in t
    ensures exists x, n: nat :: Hops(t, x, f, n) && n == SubtreeHeight(t, f)
    ensures forall x, n: nat :: x in t && Hops(t, x, f, n) ==> n <= SubtreeHeight(t, f)
  {
    forall x, n: nat | x in t && Hops(t, x, f, n) ensures n == t[x].depth - t[f].depth {
      HopsPath(t, x, f, n);
    }
    WellFormedPath(t, f);
    HeightFallsShort(t, f);
    var x :| x in Subtree(t, f) && t[x].depth == DeepestIn(t, f);
    var n: nat :| Hops(t, x, f, n);
    assert Hops(t, x, f, n) && n == SubtreeHeight(t, f);
    forall y, k: nat | y in t && Hops(t, y, f, k) ensures k <= SubtreeHeight(t, f) {
      assert Below(t, y, f);
    }
  }

  lemma {:induction false} HopsPath(t: Table, x: Id, f: Id, n: nat)
    requires PathsAgree(t) && x in t && Hops(t, x, f, n)
    ensures f in t && |t[x].path| == |t[f].path| + n
    decreases n
  {
    assert PathLink(t, x);
    if n > 0 {
      HopsPath(t, t[x].parent.value, f, n - 1);
    }
  }

  /** `exists_name_in_parent`. */
  predicate NameTaken(t: Table, parent: Option<Id>, name: string, except: Option<Id>) {
    exists x :: x in t && t[x].name == name && !t[x].deleted && t[x].parent == parent && Some(x) != except
  }

  /** No two active folders of one parent share a name. */
  ghost predicate SiblingNamesUnique(t: Table) {
    forall x, y :: Active(t, x) && Active(t, y) && x != y && t[x].parent == t[y].parent
                   ==> t[x].name != t[y].name
  }

  /** `count_folders`. */
  function ActiveIds(t: Table): set<Id> {
    set x | x in t && !t[x].deleted
  }
}
