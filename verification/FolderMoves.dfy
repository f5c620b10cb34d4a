/** What a move, phase 1 followed by its drained cascade, does to the three representations of the tree. */
module FolderMoves {
  import opened Prelude
  import opened FolderTable
  import opened FolderCascades
  import opened FolderService
  import opened FolderEffects

  // ---------------------------------------------------------------- prefixes

  /** The old and the new path of a moved folder `s`: `s` is the last id of each and occurs nowhere else. */
  ghost predicate PrefixShape(oldPrefix: seq<Id>, newPrefix: seq<Id>, s: Id) {
    && oldPrefix != [] && newPrefix != [] && oldPrefix != newPrefix
    && oldPrefix[|oldPrefix| - 1] == s && newPrefix[|newPrefix| - 1] == s
    && s !in oldPrefix[..|oldPrefix| - 1] && s !in newPrefix[..|newPrefix| - 1]
  }

  /** The rewrite leaves a path that already carries the new prefix alone. */
  lemma RewrittenIsStable(oldPrefix: seq<Id>, newPrefix: seq<Id>, s: Id, suffix: seq<Id>)
    requires PrefixShape(oldPrefix, newPrefix, s)
    ensures Rewrite(newPrefix + suffix, oldPrefix, newPrefix) == newPrefix + suffix
  {
    var path := newPrefix + suffix;
    if |oldPrefix| < |newPrefix| {
      assert path[|oldPrefix| - 1] == newPrefix[..|newPrefix| - 1][|oldPrefix| - 1];
    } else if |newPrefix| < |oldPrefix| {
      assert path[|newPrefix| - 1] == s;
      assert oldPrefix[|newPrefix| - 1] == oldPrefix[..|oldPrefix| - 1][|newPrefix| - 1];
    } else {
      assert path[..|oldPrefix|] == newPrefix;
    }
  }

  /** Running the rewrite of one move again changes nothing. */
  lemma RewriteIdempotent(path: seq<Id>, oldPrefix: seq<Id>, newPrefix: seq<Id>, s: Id)
    requires PrefixShape(oldPrefix, newPrefix, s)
    ensures var once := Rewrite(path, oldPrefix, newPrefix);
            Rewrite(once, oldPrefix, newPrefix) == once
  {
    if oldPrefix <= path { RewrittenIsStable(oldPrefix, newPrefix, s, path[|oldPrefix|..]); }
  }

  /** Appending an id other than the moved one commutes with the rewrite. */
  lemma RewriteAppend(path: seq<Id>, c: Id, oldPrefix: seq<Id>, newPrefix: seq<Id>, s: Id)
    requires PrefixShape(oldPrefix, newPrefix, s) && c != s
    ensures Rewrite(path + [c], oldPrefix, newPrefix) == Rewrite(path, oldPrefix, newPrefix) + [c]
  {
    if |oldPrefix| <= |path| {
      assert (path + [c])[..|oldPrefix|] == path[..|oldPrefix|];
      assert (path + [c])[|oldPrefix|..] == path[|oldPrefix|..] + [c];
    } else if |oldPrefix| == |path| + 1 {
      assert (path + [c])[|oldPrefix| - 1] == c;
    }
  }

  lemma {:induction false} PathMembersAreAncestors(t: Table, x: Id, y: Id)
    requires ActivePaths(t) && Active(t, x) && y in t[x].path
    ensures Below(t, x, y)
    decreases |t[x].path|
  {
    assert ActiveLink(t, x);
    if y == x {
      assert Hops(t, x, x, 0);
    } else {
      var p := t[x].parent.value;
      PathMembersAreAncestors(t, p, y);
      var n: nat :| Hops(t, p, y, n);
      assert Hops(t, x, y, n + 1);
    }
  }

  lemma {:induction false} ActiveForest(t: Table, x: Id)
    requires ActivePaths(t) && Active(t, x)
    ensures forall k: nat :: Hops(t, x, x, k) ==> k == 0
  {
    forall k: nat | Hops(t, x, x, k) ensures k == 0 { BelowIsPrefix(t, x, x, k); }
  }

  /** The prefixes of an accepted move have the shape the rewrite relies on. */
  lemma MovePrefixShape(t: Table, s: Id, target: Option<Id>)
    requires ActivePaths(t) && Active(t, s) && t[s].parent != target
    requires target.Some? ==> Active(t, target.value) && !Below(t, target.value, s)
    ensures PrefixShape(t[s].path, NewPath(t, s, target), s)
  {
    PathEndsFresh(t, s);
    var oldPrefix, newPrefix := t[s].path, NewPath(t, s, target);
    if target.Some? {
      var q := target.value;
      assert newPrefix[..|newPrefix| - 1] == t[q].path;
      assert s !in t[q].path by {
        if s in t[q].path { PathMembersAreAncestors(t, q, s); }
      }
      ActivePathEnd(t, q);
    }
    assert ActiveLink(t, s);
    if t[s].parent.Some? {
      var p := t[s].parent.value;
      assert oldPrefix[..|oldPrefix| - 1] == t[p].path;
      ActivePathEnd(t, p);
    }
  }

  /** On an active row's path its own id occurs at the end only. */
  lemma PathEndsFresh(t: Table, s: Id)
    requires ActivePaths(t) && Active(t, s)
    ensures t[s].path != [] && t[s].path[|t[s].path| - 1] == s && s !in t[s].path[..|t[s].path| - 1]
  {
    assert ActiveLink(t, s);
    if t[s].parent.Some? {
      var p := t[s].parent.value;
      assert t[s].path[..|t[s].path| - 1] == t[p].path;
      if s in t[p].path {
        PathMembersAreAncestors(t, p, s);
        var n: nat :| Hops(t, p, s, n);
        assert Hops(t, s, s, n + 1);
        ActiveForest(t, s);
      }
    }
  }

  // ---------------------------------------------------------------- phase 1

  /** On a quiescent tree an accepted move never targets the moved subtree, and any move that does is refused;
      hence moves keep the parent graph a forest. */
  lemma MoveKeepsForest(t: Table, locks: set<Id>, s: Id, target: Option<Id>, expected: int, height: int)
    requires Forest(t) && ActivePaths(t) && s in t
    ensures MoveVerdict(t, locks, s, target, expected, height) == Accepted ==>
              && Active(t, s) && (target.Some? ==> Active(t, target.value) && !Below(t, target.value, s))
              && Forest(Moved(t, s, target))
    ensures target.Some? && target.value in t && Below(t, target.value, s)
            ==> MoveVerdict(t, locks, s, target, expected, height) in {Conflict, NoOp}
  {
    if target.Some? && Active(t, target.value) && Active(t, s) {
      CheckCycleExact(t, target.value, s);
      ActivePathEnd(t, target.value);
    }
    if MoveVerdict(t, locks, s, target, expected, height) == Accepted {
      var u := Moved(t, s, target);
      if target.Some? { RelinkKeepsForestIff(t, u, s, target.value); } else { RelinkToRoot(t, u, s); }
    }
  }

  /** The situation of an accepted move on a quiescent tree. Stored depths are free, and so are the paths of deleted rows:
      moves before this one may have left them off. */
  ghost predicate GoodMove(t: Table, s: Id, target: Option<Id>) {
    && Forest(t) && ActivePaths(t) && Active(t, s) && t[s].parent != target
    && (target.Some? ==> Active(t, target.value) && !Below(t, target.value, s))
  }

  /** The depth check of the move has passed. */
  ghost predicate DepthChecked(t: Table, s: Id, target: Option<Id>)
    requires s in t && (target.Some? ==> target.value in t)
  {
    NewDepth(t, target) + SubtreeHeight(t, s) <= MAX_DEPTH
  }

  lemma AcceptedIsGood(t: Table, locks: set<Id>, s: Id, target: Option<Id>, expected: int)
    requires Forest(t) && ActivePaths(t) && s in t
    requires MoveVerdict(t, locks, s, target, expected, SubtreeHeight(t, s)) == Accepted
    ensures GoodMove(t, s, target) && DepthChecked(t, s, target)
  {
    MoveKeepsForest(t, locks, s, target, expected, SubtreeHeight(t, s));
  }

  lemma MovedIsForest(t: Table, s: Id, target: Option<Id>)
    requires GoodMove(t, s, target)
    ensures Forest(Moved(t, s, target))
  {
    var u := Moved(t, s, target);
    if target.Some? { RelinkKeepsForestIff(t, u, s, target.value); } else { RelinkToRoot(t, u, s); }
  }

  /** The true depth of the moved folder. */
  ghost function NewTrueDepth(t: Table, target: Option<Id>): nat
    requires Forest(t) && (target.Some? ==> target.value in t)
  {
    if target.Some? then TrueDepth(t, target.value) + 1 else 0
  }

  /** The drift a row at the top of a move takes over from its new parent. */
  ghost function TargetDrift(t: Table, target: Option<Id>): int
    requires Forest(t) && (target.Some? ==> target.value in t)
  {
    if target.Some? then Drift(t, target.value) else 0
  }

  /** The drift of a descendant after the move. */
  ghost function DriftAfter(t: Table, s: Id, target: Option<Id>, x: Id): int
    requires Forest(t) && s in t && x in t && (target.Some? ==> target.value in t)
  {
    Drift(t, x) - Drift(t, s) + TargetDrift(t, target)
  }

  /** Right after phase 1 the moved folder stands one below its target. */
  lemma TopDepth(t: Table, s: Id, target: Option<Id>)
    requires GoodMove(t, s, target)
    ensures Ends(Moved(t, s, target), s, NewTrueDepth(t, target))
  {
    if target.Some? {
      var q := target.value;
      EndsAvoiding(t, Moved(t, s, target), s, target, q, TrueDepth(t, q));
    }
  }

  /** The true depths of a member of the moved subtree before and after phase 1. */
  lemma DepthAfterMove(t: Table, s: Id, target: Option<Id>, x: Id, n: nat)
    requires GoodMove(t, s, target) && x in t && Hops(t, x, s, n)
    ensures TrueDepth(t, x) == TrueDepth(t, s) + n
    ensures Forest(Moved(t, s, target)) && TrueDepth(Moved(t, s, target), x) == NewTrueDepth(t, target) + n
  {
    var u := Moved(t, s, target);
    MovedIsForest(t, s, target);
    TopDepth(t, s, target);
    TrueDepthIs(u, s, NewTrueDepth(t, target));
    HopsRelinked(t, u, s, target, x, n);
    TrueDepthBelow(t, x, s, n);
    TrueDepthBelow(u, x, s, n);
  }

  /** True depth after the move plus drift is what the depth check adds up for the row. */
  lemma CheckedDepth(t: Table, s: Id, target: Option<Id>, x: Id)
    requires GoodMove(t, s, target) && x in Subtree(t, s)
    ensures Forest(Moved(t, s, target))
    ensures TrueDepth(Moved(t, s, target), x) + DriftAfter(t, s, target, x)
            == NewDepth(t, target) + t[x].depth - t[s].depth
  {
    var n: nat :| Hops(t, x, s, n);
    DepthAfterMove(t, s, target, x, n);
  }

  /** Exactly when the depth check passes: on every folder of the moved subtree, deleted ones included, true depth plus
      drift after the move is at most 10, or more only by what the height query falls short. */
  lemma MoveDepthIff(t: Table, s: Id, target: Option<Id>)
    requires GoodMove(t, s, target)
    ensures Forest(Moved(t, s, target))
    ensures DepthChecked(t, s, target)
            <==> forall x :: x in Subtree(t, s) ==>
                   TrueDepth(Moved(t, s, target), x) + DriftAfter(t, s, target, x) <= MAX_DEPTH + Shortfall(t, s)
  {
    MovedIsForest(t, s, target);
    forall x | x in Subtree(t, s)
      ensures TrueDepth(Moved(t, s, target), x) + DriftAfter(t, s, target, x)
              == NewDepth(t, target) + t[x].depth - t[s].depth
    {
      CheckedDepth(t, s, target, x);
    }
    var m := DeepestIn(t, s);
    var deepest :| deepest in Subtree(t, s) && t[deepest].depth == m;
    assert TrueDepth(Moved(t, s, target), deepest) + DriftAfter(t, s, target, deepest)
           == NewDepth(t, target) + t[deepest].depth - t[s].depth;
  }

  /** On a well-formed table the depth check is exact: it passes if and only if no folder of the moved subtree ends deeper
      than 10. */
  lemma MoveDepthSound(t: Table, s: Id, target: Option<Id>)
    requires WellFormed(t) && GoodMove(t, s, target)
    ensures Forest(Moved(t, s, target))
    ensures DepthChecked(t, s, target)
            <==> forall x :: x in Subtree(t, s) ==> TrueDepth(Moved(t, s, target), x) <= MAX_DEPTH
  {
    MoveDepthIff(t, s, target);
    WellFormedPath(t, s);
    HeightFallsShort(t, s);
    WellFormedDepth(t, s);
    if target.Some? { WellFormedDepth(t, target.value); }
    forall x | x in Subtree(t, s) ensures DriftAfter(t, s, target, x) == 0 {
      WellFormedDepth(t, x);
    }
  }

  // ---------------------------------------------------------------- phase 1 + drained cascade

  ghost function MovedSet(t: Table, s: Id, target: Option<Id>): set<Id>
    requires s in t && (target.Some? ==> target.value in t)
  {
    Reach(Moved(t, s, target), s, false)
  }

  ghost function MovedTree(t: Table, s: Id, target: Option<Id>): Table
    requires s in t && (target.Some? ==> target.value in t)
  {
    var delta := NewDepth(t, target) - t[s].depth;
    BumpIf(true, Shift(Moved(t, s, target), MovedSet(t, s, target), t[s].path, NewPath(t, s, target), delta), s)
  }

  /** The move cascade visits only rows that were below the folder before the move. */
  lemma MovedSetIsBelow(t: Table, s: Id, target: Option<Id>, x: Id)
    requires GoodMove(t, s, target) && x in MovedSet(t, s, target)
    ensures x in t && Active(t, x)
    ensures exists n: nat :: Hops(t, x, s, n)
    ensures t[s].path <= t[x].path
  {
    var u := Moved(t, s, target);
    var n: nat :| Chain(u, x, s, false, n);
    ChainIsHops(u, x, s, false, n);
    MovedIsForest(t, s, target);
    HopsRelinked(u, t, s, t[s].parent, x, n);
    BelowIsPrefix(t, x, s, n);
  }

  /** A visited row after the cascade, column by column. */
  lemma MovedColumns(t: Table, s: Id, target: Option<Id>, x: Id)
    requires s in t && (target.Some? ==> target.value in t) && x in t && x in MovedSet(t, s, target)
    ensures x in MovedTree(t, s, target)
    ensures var u, w := Moved(t, s, target), MovedTree(t, s, target);
            && w[x].parent == u[x].parent
            && w[x].path == Rewrite(u[x].path, t[s].path, NewPath(t, s, target))
            && w[x].depth == u[x].depth + (NewDepth(t, target) - t[s].depth)
  {
  }

  lemma GoodPrefix(t: Table, s: Id, target: Option<Id>)
    requires GoodMove(t, s, target)
    ensures PrefixShape(t[s].path, NewPath(t, s, target), s)
  {
    MovePrefixShape(t, s, target);
  }

  /** The new path of every visited row: the prefix replaced, the rest kept. */
  lemma MovedPath(t: Table, s: Id, target: Option<Id>, x: Id)
    requires GoodMove(t, s, target) && x in MovedSet(t, s, target)
    ensures t[s].path <= t[x].path
    ensures MovedTree(t, s, target)[x].path == NewPath(t, s, target) + t[x].path[|t[s].path|..]
    ensures PrefixShape(t[s].path, NewPath(t, s, target), s)
  {
    MovedSetIsBelow(t, s, target, x);
    GoodPrefix(t, s, target);
    MovedColumns(t, s, target, x);
    var newPrefix := NewPath(t, s, target);
    if x == s {
      RewrittenIsStable(t[s].path, newPrefix, s, []);
      assert newPrefix + [] == newPrefix;
      assert t[s].path[|t[s].path|..] == [];
    }
  }

  /** The tree after the cascade has the links of the tree after phase 1. */
  lemma MovedTreeDepth(t: Table, s: Id, target: Option<Id>, w: Table)
    requires GoodMove(t, s, target) && w == MovedTree(t, s, target)
    ensures Forest(w) && forall x, n: nat :: x in t && Hops(t, x, s, n) ==> TrueDepth(w, x) == NewTrueDepth(t, target) + n
  {
    var u := Moved(t, s, target);
    MovedIsForest(t, s, target);
    ForestSameLinks(u, w);
    forall x, n: nat | x in t && Hops(t, x, s, n) ensures TrueDepth(w, x) == NewTrueDepth(t, target) + n {
      DepthAfterMove(t, s, target, x, n);
      EndsSameLinks(u, w, x, NewTrueDepth(t, target) + n);
      TrueDepthIs(w, x, NewTrueDepth(t, target) + n);
    }
  }

  /** Once the cascade has drained: every visited row has its parent's path extended by its own id, and running the path
      rewrite again would change nothing; all active descendants were visited; rows outside are untouched. The tree is
      again a forest with true active paths, so the next move finds what this one found. */
  lemma MoveCascadeEffect(t: Table, s: Id, target: Option<Id>, w: Table, r: set<Id>)
    requires GoodMove(t, s, target) && w == MovedTree(t, s, target) && r == MovedSet(t, s, target)
    ensures s in r && forall x :: x in r ==> PathLink(w, x)
    ensures forall x :: x in r ==> Rewrite(w[x].path, t[s].path, NewPath(t, s, target)) == w[x].path
    ensures forall x :: x in t && x !in r ==> w[x] == t[x]
    ensures forall x :: x in t && x != s && Active(t, x) && Below(t, x, s) ==> x in r
    ensures Forest(w) && ActivePaths(w)
  {
    SourceMoved(t, s, target);
    forall x | x in r
      ensures PathLink(w, x) && Rewrite(w[x].path, t[s].path, NewPath(t, s, target)) == w[x].path
      ensures Active(t, x)
    {
      MovedSetIsBelow(t, s, target, x);
      MovedRow(t, s, target, x);
    }
    forall x | x in t && x != s && Active(t, x) && Below(t, x, s) ensures x in r {
      var n: nat :| Hops(t, x, s, n);
      ActiveChain(t, Moved(t, s, target), s, target, x, n);
    }
    MovedTreeDepth(t, s, target, w);
    MovedStaysTrue(t, s, target, w, r);
  }

  lemma MovedStaysTrue(t: Table, s: Id, target: Option<Id>, w: Table, r: set<Id>)
    requires GoodMove(t, s, target) && w == MovedTree(t, s, target) && r == MovedSet(t, s, target) && s in r
    requires forall x :: x in r ==> PathLink(w, x) && Active(t, x)
    requires forall x :: x in t && x !in r ==> w[x] == t[x]
    ensures ActivePaths(w)
  {
    forall x: Id | Active(w, x) ensures ActiveLink(w, x) {
      assert ActiveLink(t, x);
      if x in r {
        assert PathLink(w, x);
      } else if t[x].parent.Some? && t[x].parent.value in r {
        ReachChild(Moved(t, s, target), s, false, x);
      }
    }
  }

  /** What becomes of the drift once the cascade has drained: that of an active strict descendant changes by the difference
      of the drifts of the new parent and of the folder, so it is 0 again if all three were; the folder itself takes over
      the drift of its new parent plus `delta`, counted once too often. */
  lemma MoveDriftEffect(t: Table, s: Id, target: Option<Id>, w: Table)
    requires GoodMove(t, s, target) && w == MovedTree(t, s, target)
    ensures Forest(w)
    ensures forall x :: x in MovedSet(t, s, target) && x != s ==> x in t && Drift(w, x) == DriftAfter(t, s, target, x)
    ensures Drift(w, s) == TargetDrift(t, target) + (NewDepth(t, target) - t[s].depth)
  {
    MovedTreeDepth(t, s, target, w);
    forall x | x in MovedSet(t, s, target) && x != s ensures x in t && Drift(w, x) == DriftAfter(t, s, target, x) {
      MovedSetIsBelow(t, s, target, x);
      var n: nat :| Hops(t, x, s, n);
      TrueDepthBelow(t, x, s, n);
      MovedColumns(t, s, target, x);
    }
    SourceMoved(t, s, target);
    MovedColumns(t, s, target, s);
    assert Hops(t, s, s, 0);
    assert TrueDepth(w, s) == NewTrueDepth(t, target) + 0;
  }

  /** The columns a move does not touch, and the versions it leaves: every row the cascade visits is one version on, the
      moved folder three, for phase 1, its own shift and the end of the cascade. */
  lemma MoveVersions(t: Table, s: Id, target: Option<Id>, w: Table, x: Id)
    requires GoodMove(t, s, target) && w == MovedTree(t, s, target) && x in t
    ensures x in w && w[x].version == t[x].version + if x == s then 3 else if x in MovedSet(t, s, target) then 1 else 0
    ensures w[x].name == t[x].name && w[x].deleted == t[x].deleted && w[x].purge == t[x].purge
    ensures w[x].parent == if x == s then target else t[x].parent
  {
    assert s in MovedSet(t, s, target) by { assert Chain(Moved(t, s, target), s, s, false, 0); }
  }

  lemma SourceMoved(t: Table, s: Id, target: Option<Id>)
    requires GoodMove(t, s, target)
    ensures s in MovedSet(t, s, target)
    ensures MovedTree(t, s, target)[s].path == NewPath(t, s, target)
  {
    assert Chain(Moved(t, s, target), s, s, false, 0);
    MovedPath(t, s, target, s);
    assert t[s].path[|t[s].path|..] == [];
  }

  /** One row below the moved folder: its path is its parent's plus its own id, whatever the two tails are. */
  lemma TailsExtend(newPrefix: seq<Id>, oldPrefix: seq<Id>, parentPath: seq<Id>, path: seq<Id>, x: Id)
    requires oldPrefix <= parentPath && path == parentPath + [x]
    ensures oldPrefix <= path
    ensures newPrefix + path[|oldPrefix|..] == newPrefix + parentPath[|oldPrefix|..] + [x]
  {
    assert path[|oldPrefix|..] == parentPath[|oldPrefix|..] + [x];
  }

  /** A strict descendant after the cascade. */
  lemma MovedBelow(t: Table, s: Id, target: Option<Id>, x: Id)
    requires GoodMove(t, s, target) && x in MovedSet(t, s, target) && x != s
    ensures PathLink(MovedTree(t, s, target), x)
  {
    var p := MovedParent(t, s, target, x);
    MovedPath(t, s, target, x);
    MovedPath(t, s, target, p);
    MovedColumns(t, s, target, x);
    MovedSetIsBelow(t, s, target, p);
    MovedSetIsBelow(t, s, target, x);
    assert ActiveLink(t, x);
    TailsExtend(NewPath(t, s, target), t[s].path, t[p].path, t[x].path, x);
  }

  lemma MovedRow(t: Table, s: Id, target: Option<Id>, x: Id)
    requires GoodMove(t, s, target) && x in MovedSet(t, s, target)
    ensures PathLink(MovedTree(t, s, target), x)
    ensures Rewrite(MovedTree(t, s, target)[x].path, t[s].path, NewPath(t, s, target))
            == MovedTree(t, s, target)[x].path
  {
    MovedPath(t, s, target, x);
    RewrittenIsStable(t[s].path, NewPath(t, s, target), s, t[x].path[|t[s].path|..]);
    if x == s {
      MovedTop(t, s, target);
    } else {
      MovedBelow(t, s, target, x);
    }
  }

  lemma MovedTop(t: Table, s: Id, target: Option<Id>)
    requires GoodMove(t, s, target) && s in MovedSet(t, s, target)
    ensures PathLink(MovedTree(t, s, target), s)
  {
    MovedPath(t, s, target, s);
    MovedColumns(t, s, target, s);
    TargetNotMoved(t, s, target);
    assert t[s].path[|t[s].path|..] == [];
  }

  lemma MovedParent(t: Table, s: Id, target: Option<Id>, x: Id) returns (p: Id)
    requires GoodMove(t, s, target) && x in MovedSet(t, s, target) && x != s
    ensures x in t && t[x].parent == Some(p) && p in MovedSet(t, s, target)
  {
    var u := Moved(t, s, target);
    var n: nat :| Chain(u, x, s, false, n);
    p := t[x].parent.value;
    assert Chain(u, p, s, false, n - 1);
    assert p in u by { if n > 1 {} }
  }

  lemma TargetNotMoved(t: Table, s: Id, target: Option<Id>)
    requires GoodMove(t, s, target)
    ensures target.Some? ==> target.value !in MovedSet(t, s, target)
  {
    if target.Some? && target.value in MovedSet(t, s, target) { MovedSetIsBelow(t, s, target, target.value); }
  }

  lemma {:induction false} ActiveChain(t: Table, u: Table, s: Id, target: Option<Id>, x: Id, n: nat)
    requires ActivePaths(t) && Relinked(t, u, s, target) && Hops(t, x, s, n) && Active(t, x)
    requires forall y :: y in t ==> u[y].deleted == t[y].deleted
    ensures x in Reach(u, s, false)
    decreases n
  {
    if x == s {
      assert Chain(u, s, s, false, 0);
    } else {
      var p := t[x].parent.value;
      assert ActiveLink(t, x) && Hops(t, p, s, n - 1);
      ActiveChain(t, u, s, target, p, n - 1);
      ReachChild(u, s, false, x);
    }
  }

  /** The drained move leaves all stored paths right exactly when the moved subtree held no deleted folder:
      the cascade skips deleted rows, whose paths go stale. */
  lemma MovePathsAgreeIff(t: Table, s: Id, target: Option<Id>, w: Table, r: set<Id>)
    requires PathsAgree(t) && GoodMove(t, s, target) && w == MovedTree(t, s, target) && r == MovedSet(t, s, target)
    ensures PathsAgree(w) <==> (forall x :: x in Subtree(t, s) ==> Active(t, x))
  {
    MoveCascadeEffect(t, s, target, w, r);
    if forall x :: x in Subtree(t, s) ==> Active(t, x) {
      forall x | x in w ensures PathLink(w, x) {
        if x !in r {
          assert PathLink(t, x);
          assert x in Subtree(t, s) ==> x in r;
          if t[x].parent.Some? && t[x].parent.value in r { BelowMoved(t, s, target, x); }
        }
      }
    } else {
      var x :| x in Subtree(t, s) && !Active(t, x);
      var n: nat :| Hops(t, x, s, n);
      assert x !in r by { if x in r { MovedSetIsBelow(t, s, target, x); } }
      var y := StaleRow(t, s, r, x, n);
      StaleLink(t, s, target, y);
      assert !PathLink(w, y);
    }
  }

  lemma BelowMoved(t: Table, s: Id, target: Option<Id>, x: Id)
    requires GoodMove(t, s, target) && x in t
    requires t[x].parent.Some? && t[x].parent.value in MovedSet(t, s, target)
    ensures x in Subtree(t, s)
  {
    MovedSetIsBelow(t, s, target, t[x].parent.value);
    var n: nat :| Hops(t, t[x].parent.value, s, n);
    assert Hops(t, x, s, n + 1);
  }

  /** Two paths that share their end but not their beginning differ. */
  lemma OtherBeginning(oldPrefix: seq<Id>, newPrefix: seq<Id>, parentPath: seq<Id>, y: Id)
    requires oldPrefix != newPrefix && oldPrefix <= parentPath
    ensures parentPath + [y] != newPrefix + parentPath[|oldPrefix|..] + [y]
  {
    var rest := parentPath[|oldPrefix|..] + [y];
    PrefixesDiffer(oldPrefix, newPrefix, rest);
    assert parentPath + [y] == oldPrefix + rest;
    assert newPrefix + parentPath[|oldPrefix|..] + [y] == newPrefix + rest;
  }

  /** A row the cascade skipped while its parent moved keeps a path that no longer matches. */
  lemma StaleLink(t: Table, s: Id, target: Option<Id>, y: Id)
    requires PathsAgree(t) && GoodMove(t, s, target) && y in t && y !in MovedSet(t, s, target)
    requires t[y].parent.Some? && t[y].parent.value in MovedSet(t, s, target)
    ensures !PathLink(MovedTree(t, s, target), y)
  {
    var p := t[y].parent.value;
    MovedPath(t, s, target, p);
    Untouched(t, s, target, y);
    assert PathLink(t, y);
    OtherBeginning(t[s].path, NewPath(t, s, target), t[p].path, y);
  }

  lemma Untouched(t: Table, s: Id, target: Option<Id>, y: Id)
    requires GoodMove(t, s, target) && y in t && y !in MovedSet(t, s, target)
    ensures MovedTree(t, s, target)[y] == t[y]
  {
    SourceMoved(t, s, target);
  }

  lemma PrefixesDiffer(a: seq<Id>, b: seq<Id>, rest: seq<Id>)
    requires a != b
    ensures a + rest != b + rest
  {
    if |a| == |b| { assert (a + rest)[..|a|] == a && (b + rest)[..|a|] == b; }
  }

  /** On the way from an unvisited row up to `s` some row is unvisited while its parent is visited. */
  lemma {:induction false} StaleRow(t: Table, s: Id, r: set<Id>, x: Id, n: nat) returns (y: Id)
    requires s in r && x in t && x !in r && Hops(t, x, s, n)
    ensures y in t && y !in r && t[y].parent.Some? && t[y].parent.value in r
    decreases n
  {
    var p := t[x].parent.value;
    assert Hops(t, p, s, n - 1);
    if p in r { y := x; } else { y := StaleRow(t, s, r, p, n - 1); }
  }

  /** The whole table is well-formed again exactly when the move kept the depth and skipped nothing. */
  lemma MoveWellFormedIff(t: Table, s: Id, target: Option<Id>)
    requires WellFormed(t) && GoodMove(t, s, target)
    ensures WellFormed(MovedTree(t, s, target))
            <==> NewDepth(t, target) == t[s].depth && (forall x :: x in Subtree(t, s) ==> Active(t, x))
  {
    var w := MovedTree(t, s, target);
    MovePathsAgreeIff(t, s, target, w, MovedSet(t, s, target));
    if PathsAgree(w) {
      MovedDepthsIff(t, s, target, w);
    }
  }

  lemma NoDriftAfter(t: Table, s: Id, target: Option<Id>, x: Id)
    requires WellFormed(t) && GoodMove(t, s, target) && x in t
    ensures DriftAfter(t, s, target, x) == 0 && TargetDrift(t, target) == 0
  {
    WellFormedDepth(t, s);
    WellFormedDepth(t, x);
    if target.Some? { WellFormedDepth(t, target.value); }
  }

  lemma MovedNoDrift(t: Table, s: Id, target: Option<Id>, w: Table, x: Id)
    requires WellFormed(t) && GoodMove(t, s, target) && w == MovedTree(t, s, target) && x in MovedSet(t, s, target)
    requires NewDepth(t, target) == t[s].depth
    ensures Forest(w) && x in w && Drift(w, x) == 0
  {
    MovedSetIsBelow(t, s, target, x);
    MoveDriftEffect(t, s, target, w);
    NoDriftAfter(t, s, target, x);
  }

  lemma NoDriftIsDepth(w: Table, x: Id)
    requires Forest(w) && PathsAgree(w) && x in w && Drift(w, x) == 0
    ensures w[x].depth == |w[x].path| - 1
  {
    WellFormedPath(w, x);
    TrueDepthIs(w, x, |w[x].path| - 1);
  }

  lemma MovedRowDepth(t: Table, s: Id, target: Option<Id>, w: Table, x: Id)
    requires WellFormed(t) && GoodMove(t, s, target) && w == MovedTree(t, s, target) && PathsAgree(w) && x in w
    requires NewDepth(t, target) == t[s].depth
    ensures w[x].depth == |w[x].path| - 1
  {
    if x in MovedSet(t, s, target) {
      MovedNoDrift(t, s, target, w, x);
      NoDriftIsDepth(w, x);
    } else {
      Untouched(t, s, target, x);
    }
  }

  /** Depths agree again exactly when the move kept the depth. */
  lemma MovedDepthsIff(t: Table, s: Id, target: Option<Id>, w: Table)
    requires WellFormed(t) && GoodMove(t, s, target) && w == MovedTree(t, s, target) && PathsAgree(w)
    ensures WellFormed(w) <==> NewDepth(t, target) == t[s].depth
  {
    if NewDepth(t, target) == t[s].depth {
      forall x | x in w ensures w[x].depth == |w[x].path| - 1 { MovedRowDepth(t, s, target, w, x); }
    } else if WellFormed(w) {
      MoveDriftEffect(t, s, target, w);
      NoDriftAfter(t, s, target, s);
      WellFormedDepth(w, s);
    }
  }

  /** The cascade of an accepted move can commit exactly when shifting the folder itself a second time stays within the
      CHECK constraint. When it does not, the worker fails on its first batch. The rows below matter only if the height
      answer fell short and the new depth itself has drifted below 0. */
  lemma MoveCascadeCommitsIff(t: Table, s: Id, target: Option<Id>)
    requires GoodMove(t, s, target) && DepthChecked(t, s, target)
    ensures var delta := NewDepth(t, target) - t[s].depth;
            && (DepthsFit(Moved(t, s, target), {s}, delta) <==> 2 * NewDepth(t, target) - t[s].depth <= MAX_DEPTH)
            && (DepthsFit(Moved(t, s, target), MovedSet(t, s, target), delta)
                <==> 2 * NewDepth(t, target) - t[s].depth <= MAX_DEPTH
                     && (Shortfall(t, s) > 0 && NewDepth(t, target) < 0 ==>
                           forall x :: x in t && x in MovedSet(t, s, target) ==> t[x].depth + delta <= MAX_DEPTH))
  {
    var u, delta := Moved(t, s, target), NewDepth(t, target) - t[s].depth;
    assert s in MovedSet(t, s, target) by { assert Chain(u, s, s, false, 0); }
    HeightFallsShort(t, s);
    forall x | x in MovedSet(t, s, target) && x != s
      ensures x in t && u[x].depth == t[x].depth && t[x].depth <= DeepestIn(t, s)
    {
      MovedSetIsBelow(t, s, target, x);
      assert x in Subtree(t, s);
    }
  }
}
