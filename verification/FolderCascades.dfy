/** The Celery workers that propagate a delete, a restore or a move down a subtree:
    a worklist is drained in batches of 200 parents, each batch one transaction
    that also fetches at most 1000 children. */
module FolderCascades {
  import opened Prelude
  import opened FolderTable

  const BATCH := 200
  const FETCH_LIMIT := 1000

  datatype TaskResult = Completed | Skipped | RetryLater

  // ---------------------------------------------------------------- the guard in front of every worker

  /** The members of the enumeration `WorkspaceStatus`. */
  const STATUSES: set<string> := {"ACTIVE", "ARCHIVED", "SUSPENDED", "DELETING", "PURGING", "DELETED"}

  const HARD_DELETED := "HARD_DELETED"

  datatype Gate = Leave | Raise | Enter

  /** `if not ws or ws.status == WorkspaceStatus.HARD_DELETED: return`, over an enumeration with the given members:
      naming a member that does not exist raises, and a missing workspace returns before that. */
  function GateOf(members: set<string>, ws: Option<string>): Gate {
    if ws.None? then Leave
    else if HARD_DELETED !in members then Raise
    else if ws.value == HARD_DELETED then Leave
    else Enter
  }

  // ---------------------------------------------------------------- what one batch does

  /** The size of the next batch. */
  function Take(s: seq<Id>): (n: nat)
    ensures n <= |s| && n <= BATCH && (s != [] ==> n > 0)
  {
    if |s| < BATCH then |s| else BATCH
  }

  lemma BatchOf200(s: seq<Id>)
    ensures |s[..Take(s)]| == if |s| <= 200 then |s| else 200
  {
  }

  /** Rows with `deleted == d` whose parent is one of `parents`. */
  function Children(t: Table, parents: set<Id>, d: bool): set<Id> {
    set x | x in t && t[x].parent.Some? && t[x].parent.value in parents && t[x].deleted == d
  }

  /** A possible answer of the child query under `LIMIT 1000`: any selection, all of them if they fit. */
  ghost predicate Fetched(t: Table, parents: set<Id>, d: bool, kids: seq<Id>) {
    && NoDup(kids)
    && Elems(kids) <= Children(t, parents, d)
    && |kids| == if |Children(t, parents, d)| <= FETCH_LIMIT then |Children(t, parents, d)| else FETCH_LIMIT
  }

  lemma FetchedAll(t: Table, parents: set<Id>, d: bool, kids: seq<Id>)
    requires Fetched(t, parents, d, kids) && |Children(t, parents, d)| <= FETCH_LIMIT
    ensures Elems(kids) == Children(t, parents, d)
  {
    NoDupCard(kids);
    SubsetOfSameSize(Elems(kids), Children(t, parents, d));
  }

  /** The rows among `ids` whose `deleted` column changes when it is set to `to`. */
  function Changing(t: Table, ids: set<Id>, to: bool): set<Id> {
    set x | x in t && x in ids && t[x].deleted != to
  }

  /** The guarded UPDATE of the delete and restore cascades. */
  function Flip(t: Table, ids: set<Id>, to: bool): Table {
    map x | x in t :: if x in ids && t[x].deleted != to
                      then t[x].(deleted := to, version := t[x].version + 1) else t[x]
  }

  /** `regexp_replace(path, '^old', new)`. */
  function Rewrite(path: seq<Id>, oldPrefix: seq<Id>, newPrefix: seq<Id>): seq<Id> {
    if oldPrefix <= path then newPrefix + path[|oldPrefix|..] else path
  }

  /** The UPDATE of the move cascade. */
  function Shift(t: Table, ids: set<Id>, oldPrefix: seq<Id>, newPrefix: seq<Id>, delta: int): Table {
    map x | x in t :: if x in ids
                      then t[x].(path := Rewrite(t[x].path, oldPrefix, newPrefix), depth := t[x].depth + delta,
                                 version := t[x].version + 1)
                      else t[x]
  }

  /** The CHECK constraint of the table lets the shifted rows in. */
  predicate DepthsFit(t: Table, ids: set<Id>, delta: int) {
    forall x :: x in t && x in ids ==> t[x].depth + delta <= MAX_DEPTH
  }

  lemma FlipTwice(t: Table, a: set<Id>, b: set<Id>, to: bool)
    ensures Flip(Flip(t, a, to), b, to) == Flip(t, a + b, to)
    ensures Changing(t, a + b, to) == Changing(t, a, to) + Changing(Flip(t, a, to), b, to)
    ensures Changing(t, a, to) !! Changing(Flip(t, a, to), b, to)
  {
  }

  // ---------------------------------------------------------------- what a whole cascade visits

  /** A walk from `x` up to `root` all of whose rows below `root` have `deleted == d`. */
  ghost predicate Chain(t: Table, x: Id, root: Id, d: bool, n: nat)
    decreases n
  {
    if n == 0 then x == root
    else x in t && t[x].deleted == d && t[x].parent.Some? && Chain(t, t[x].parent.value, root, d, n - 1)
  }

  /** `root` does not lie on a cycle of rows with `deleted == d`. */
  ghost predicate Uncircled(t: Table, root: Id, d: bool) {
    forall n: nat :: n > 0 ==> !Chain(t, root, root, d, n)
  }

  lemma ForestIsUncircled(t: Table, root: Id, d: bool)
    requires Forest(t)
    ensures Uncircled(t, root, d)
  {
    forall n: nat | n > 0 && Chain(t, root, root, d, n) ensures false {
      ChainIsHops(t, root, root, d, n);
      NoCycle(t, root, n);
    }
  }

  /** `root` with everything hanging from it through rows with `deleted == d`;
      for `d == false` this is `get_subtree_ids`. */
  ghost function Reach(t: Table, root: Id, d: bool): set<Id> {
    set x | x in t.Keys + {root} && exists n: nat :: Chain(t, x, root, d, n)
  }

  /** No 200 folders that a cascade from `root` can visit have more than 1000 children with `deleted == d` between them. */
  ghost predicate FanOutOk(t: Table, root: Id, d: bool) {
    forall b: set<Id> :: b <= Reach(t, root, d) && |b| <= BATCH ==> |Children(t, b, d)| <= FETCH_LIMIT
  }

  /** None of these folders alone has more than 1000 children with `deleted == d`. */
  ghost predicate NoneTooWide(t: Table, ids: set<Id>, d: bool) {
    forall p :: p in ids ==> |Children(t, {p}, d)| <= FETCH_LIMIT
  }

  /** The worklist discipline: `seen` has been processed, `todo` is waiting. */
  ghost predicate Frontier(t: Table, root: Id, d: bool, seen: set<Id>, todo: seq<Id>) {
    && NoDup(todo) && Elems(todo) !! seen
    && (root in seen || (seen == {} && todo == [root]))
    && seen + Elems(todo) <= Reach(t, root, d)
    && forall x :: x in seen + Elems(todo) && x != root
                   ==> x in t && t[x].deleted == d && t[x].parent.Some? && t[x].parent.value in seen
  }

  /** Nothing reachable has been forgotten. */
  ghost predicate NothingLost(t: Table, d: bool, seen: set<Id>, todo: seq<Id>) {
    Children(t, seen, d) <= seen + Elems(todo)
  }

  lemma FrontierStart(t: Table, root: Id, d: bool)
    ensures Frontier(t, root, d, {}, [root]) && NothingLost(t, d, {}, [root])
  {
    assert Chain(t, root, root, d, 0);
    assert Elems([root]) == {root};
  }

  /** The unvisited children of the next batch. */
  ghost function Fresh(t: Table, d: bool, seen: set<Id>, batch: set<Id>): set<Id> {
    Children(t, batch, d) - seen - batch
  }

  lemma FrontierStep(t: Table, root: Id, d: bool, seen: set<Id>, batch: seq<Id>, rest: seq<Id>, kids: seq<Id>)
    requires Frontier(t, root, d, seen, batch + rest) && batch != []
    requires NoDup(kids) && Elems(kids) <= Fresh(t, d, seen, Elems(batch))
    ensures Frontier(t, root, d, seen + Elems(batch), rest + kids)
    ensures NothingLost(t, d, seen + Elems(batch), rest + kids)
            <==> NothingLost(t, d, seen, batch + rest) && Elems(kids) == Fresh(t, d, seen, Elems(batch))
    ensures Elems(batch) !! seen && |Elems(batch)| == |batch| && Elems(batch) <= Reach(t, root, d)
  {
    var b := Elems(batch);
    var seen' := seen + b;
    ElemsSplit(batch, rest);
    ElemsSplit(rest, kids);
    NoDupParts(batch, rest);
    NoDupCard(batch);
    forall x | x in kids ensures x !in rest && x in Reach(t, root, d) {
      assert x in Elems(kids);
      var p := t[x].parent.value;
      assert p in b && p in seen + Elems(batch + rest);
      ReachChild(t, root, d, x);
      assert x in rest ==> x in Elems(batch + rest);
      assert x == root && x in Elems(batch + rest) ==> x in batch;
    }
    NoDupJoin(rest, kids);
    assert root in seen' by {
      if root !in seen { assert (batch + rest)[0] == batch[0] == root; assert root in b; }
    }
    LossIsFinal(t, root, d, seen, batch, rest, kids);
  }

  /** A child that was missed stays missed: its parent is not visited again. */
  lemma LossIsFinal(t: Table, root: Id, d: bool, seen: set<Id>, batch: seq<Id>, rest: seq<Id>, kids: seq<Id>)
    requires Frontier(t, root, d, seen, batch + rest) && batch != []
    requires Elems(kids) <= Fresh(t, d, seen, Elems(batch))
    ensures NothingLost(t, d, seen + Elems(batch), rest + kids)
            <==> NothingLost(t, d, seen, batch + rest) && Elems(kids) == Fresh(t, d, seen, Elems(batch))
  {
    var b := Elems(batch);
    ElemsSplit(batch, rest);
    ElemsSplit(rest, kids);
    NoDupParts(batch, rest);
    if NothingLost(t, d, seen + b, rest + kids) {
      forall x | x in Children(t, seen, d) ensures x in seen + Elems(batch + rest) {
        assert x in Children(t, seen + b, d);
      }
      forall x | x in Fresh(t, d, seen, b) ensures x in Elems(kids) {
        assert x in Children(t, seen + b, d);
        assert x !in rest;
      }
    }
  }

  lemma ElemsSplit<T>(a: seq<T>, b: seq<T>)
    ensures Elems(a + b) == Elems(a) + Elems(b)
  {
  }

  lemma NoDupParts<T>(a: seq<T>, b: seq<T>)
    requires NoDup(a + b)
    ensures NoDup(a) && NoDup(b) && Elems(a) !! Elems(b)
  {
    forall i, j | 0 <= i < j < |a| ensures a[i] != a[j] {
      assert (a + b)[i] == a[i] && (a + b)[j] == a[j];
    }
    forall i, j | 0 <= i < j < |b| ensures b[i] != b[j] {
      assert (a + b)[|a| + i] == b[i] && (a + b)[|a| + j] == b[j];
    }
    forall i, j | 0 <= i < |a| && 0 <= j < |b| ensures a[i] != b[j] {
      assert (a + b)[i] == a[i] && (a + b)[|a| + j] == b[j];
    }
  }

  lemma NoDupJoin<T>(a: seq<T>, b: seq<T>)
    requires NoDup(a) && NoDup(b) && forall x :: x in b ==> x !in a
    ensures NoDup(a + b)
  {
    forall i, j | 0 <= i < j < |a + b| ensures (a + b)[i] != (a + b)[j] {
      if i < |a| && |a| <= j { assert b[j - |a|] in b; }
    }
  }

  lemma ReachChild(t: Table, root: Id, d: bool, x: Id)
    requires x in t && t[x].deleted == d && t[x].parent.Some? && t[x].parent.value in Reach(t, root, d)
    ensures x in Reach(t, root, d)
  {
    var n: nat :| Chain(t, t[x].parent.value, root, d, n);
    assert Chain(t, x, root, d, n + 1);
  }

  lemma {:induction false} DrainedIn(t: Table, root: Id, d: bool, seen: set<Id>, x: Id, n: nat)
    requires root in seen && Children(t, seen, d) <= seen && Chain(t, x, root, d, n)
    ensures x in seen
    decreases n
  {
    if n > 0 {
      DrainedIn(t, root, d, seen, t[x].parent.value, n - 1);
      assert x in Children(t, seen, d);
    }
  }

  /** When the worklist is empty and nothing was lost, exactly the reachable rows were visited. */
  lemma Drained(t: Table, root: Id, d: bool, seen: set<Id>)
    requires Frontier(t, root, d, seen, []) && NothingLost(t, d, seen, [])
    ensures seen == Reach(t, root, d)
  {
    assert Elems<Id>([]) == {};
    forall x | x in Reach(t, root, d) ensures x in seen {
      var n: nat :| Chain(t, x, root, d, n);
      DrainedIn(t, root, d, seen, x, n);
    }
  }

  /** Clearing `cascade_status` bumps the version of the moved folder once more. */
  function BumpIf(c: bool, t: Table, x: Id): Table {
    if c && x in t then t[x := t[x].(version := t[x].version + 1)] else t
  }

  lemma ShiftApart(t: Table, a: set<Id>, b: set<Id>, oldPrefix: seq<Id>, newPrefix: seq<Id>, delta: int)
    requires a !! b
    ensures Shift(Shift(t, a, oldPrefix, newPrefix, delta), b, oldPrefix, newPrefix, delta)
            == Shift(t, a + b, oldPrefix, newPrefix, delta)
    ensures DepthsFit(Shift(t, a, oldPrefix, newPrefix, delta), b, delta) <==> DepthsFit(t, b, delta)
  {
    var u := Shift(t, a, oldPrefix, newPrefix, delta);
    forall x | x in t && x in b ensures u[x] == t[x] {}
    assert DepthsFit(u, b, delta) ==> DepthsFit(t, b, delta) by {
      if DepthsFit(u, b, delta) {
        forall x | x in t && x in b ensures t[x].depth + delta <= MAX_DEPTH { assert x in u; }
      }
    }
  }

  /** Away from a cycle a cascade never meets a folder twice. */
  lemma NoRevisit(t: Table, root: Id, d: bool, seen: set<Id>, batch: seq<Id>, rest: seq<Id>)
    requires Uncircled(t, root, d) && Frontier(t, root, d, seen, batch + rest)
    ensures Children(t, Elems(batch), d) == Fresh(t, d, seen, Elems(batch))
  {
    ElemsSplit(batch, rest);
    NoDupParts(batch, rest);
    forall x | x in Children(t, Elems(batch), d) ensures x !in seen && x !in Elems(batch) {
      var p := t[x].parent.value;
      assert p in Reach(t, root, d);
      if x == root {
        var n: nat :| Chain(t, p, root, d, n);
        assert Chain(t, root, root, d, n + 1);
      }
    }
  }

  /** A batch whose children all came back holds no folder that is too wide. */
  lemma BatchNotTooWide(t: Table, batch: seq<Id>, d: bool, kids: seq<Id>)
    requires NoDup(kids) && |kids| <= FETCH_LIMIT && Elems(kids) == Children(t, Elems(batch), d)
    ensures NoneTooWide(t, Elems(batch), d)
  {
    NoDupCard(kids);
    forall p | p in Elems(batch) ensures |Children(t, {p}, d)| <= FETCH_LIMIT {
      SubsetCard(Children(t, {p}, d), Elems(kids));
    }
  }

  /** How completeness stands after some rounds: sure if fan-out fits, and impossible with a folder that is too wide. */
  ghost predicate Coverage(t: Table, root: Id, d: bool, visited: set<Id>, state: seq<Id>) {
    && (FanOutOk(t, root, d) ==> NothingLost(t, d, visited, state))
    && (Uncircled(t, root, d) && NothingLost(t, d, visited, state) ==> NoneTooWide(t, visited, d))
  }

  lemma CoverageStep(t: Table, root: Id, d: bool, visited: set<Id>, batch: seq<Id>, rest: seq<Id>, kids: seq<Id>)
    requires Frontier(t, root, d, visited, batch + rest) && Coverage(t, root, d, visited, batch + rest)
    requires batch != [] && NoDup(kids) && |kids| <= FETCH_LIMIT && Elems(kids) <= Fresh(t, d, visited, Elems(batch))
    requires FanOutOk(t, root, d) ==> Elems(kids) == Fresh(t, d, visited, Elems(batch))
    ensures Coverage(t, root, d, visited + Elems(batch), rest + kids)
  {
    FrontierStep(t, root, d, visited, batch, rest, kids);
    if Uncircled(t, root, d) && NothingLost(t, d, visited + Elems(batch), rest + kids) {
      NoRevisit(t, root, d, visited, batch, rest);
      BatchNotTooWide(t, batch, d, kids);
    }
  }

  lemma {:induction false} ChainIsHops(t: Table, x: Id, root: Id, d: bool, n: nat)
    requires Chain(t, x, root, d, n)
    ensures Hops(t, x, root, n)
    decreases n
  {
    if n > 0 { ChainIsHops(t, t[x].parent.value, root, d, n - 1); }
  }

  // ---------------------------------------------------------------- the loop invariants, round by round

  ghost predicate FlipInv(t: Table, root: Id, to: bool, visited: set<Id>, state: seq<Id>, rows: Table, total: nat) {
    && Frontier(t, root, !to, visited, state)
    && rows == Flip(t, visited, to) && total == |Changing(t, visited, to)|
    && Coverage(t, root, !to, visited, state)
  }

  lemma FlipStart(t: Table, root: Id, to: bool)
    ensures FlipInv(t, root, to, {}, [root], t, 0)
  {
    FrontierStart(t, root, !to);
    assert Flip(t, {}, to) == t && Changing(t, {}, to) == {};
  }

  /** One round of the delete or restore loop; it forgets nothing exactly when nothing had been forgotten and the child
      query was not cut. */
  lemma FlipRound(t: Table, root: Id, to: bool, visited: set<Id>, batch: seq<Id>, rest: seq<Id>,
                  total: nat, kids: seq<Id>)
    requires FlipInv(t, root, to, visited, batch + rest, Flip(t, visited, to), total)
    requires 0 < |batch| <= BATCH
    requires Fetched(Flip(Flip(t, visited, to), Elems(batch), to), Elems(batch), !to, kids)
    ensures FlipInv(t, root, to, visited + Elems(batch), rest + kids, Flip(Flip(t, visited, to), Elems(batch), to),
                    total + |Changing(Flip(t, visited, to), Elems(batch), to)|)
    ensures NothingLost(t, !to, visited + Elems(batch), rest + kids)
            <==> NothingLost(t, !to, visited, batch + rest)
                 && |Children(Flip(Flip(t, visited, to), Elems(batch), to), Elems(batch), !to)| <= FETCH_LIMIT
    ensures (t.Keys + {root}) - (visited + Elems(batch)) < (t.Keys + {root}) - visited
  {
    var b := Elems(batch);
    FlipTwice(t, visited, b, to);
    FlipFetch(t, root, to, visited, batch, rest, kids);
    FrontierStep(t, root, !to, visited, batch, rest, kids);
    CoverageStep(t, root, !to, visited, batch, rest, kids);
    BatchHeadIsNew(t, root, !to, visited, batch, rest);
  }

  /** A query that was cut did not bring all. */
  lemma FetchedIff(t: Table, parents: set<Id>, d: bool, kids: seq<Id>)
    requires Fetched(t, parents, d, kids)
    ensures Elems(kids) == Children(t, parents, d) <==> |Children(t, parents, d)| <= FETCH_LIMIT
  {
    NoDupCard(kids);
    if |Children(t, parents, d)| <= FETCH_LIMIT { FetchedAll(t, parents, d, kids); }
  }

  /** What a round of the flip cascade fetches: unvisited children only, all of them exactly if they fit. */
  lemma FlipFetch(t: Table, root: Id, to: bool, visited: set<Id>, batch: seq<Id>, rest: seq<Id>, kids: seq<Id>)
    requires Frontier(t, root, !to, visited, batch + rest) && 0 < |batch| <= BATCH
    requires Fetched(Flip(Flip(t, visited, to), Elems(batch), to), Elems(batch), !to, kids)
    ensures Elems(kids) <= Fresh(t, !to, visited, Elems(batch)) && |kids| <= FETCH_LIMIT
    ensures Elems(kids) == Fresh(t, !to, visited, Elems(batch))
            <==> |Children(Flip(Flip(t, visited, to), Elems(batch), to), Elems(batch), !to)| <= FETCH_LIMIT
    ensures FanOutOk(t, root, !to) ==> Elems(kids) == Fresh(t, !to, visited, Elems(batch))
  {
    var b := Elems(batch);
    FlipTwice(t, visited, b, to);
    var u := Flip(t, visited + b, to);
    FlippedChildren(t, visited + b, b, to);
    assert Children(u, b, !to) == Fresh(t, !to, visited, b);
    FetchedIff(u, b, !to, kids);
    if FanOutOk(t, root, !to) {
      FrontierStep(t, root, !to, visited, batch, rest, []);
      SubsetCard(Children(u, b, !to), Children(t, b, !to));
    }
  }

  lemma FlippedChildren(t: Table, flipped: set<Id>, parents: set<Id>, to: bool)
    ensures Children(Flip(t, flipped, to), parents, !to) == Children(t, parents, !to) - flipped
  {
  }

  /** Every round processes at least one folder not processed before. */
  lemma BatchHeadIsNew(t: Table, root: Id, d: bool, visited: set<Id>, batch: seq<Id>, rest: seq<Id>)
    requires Frontier(t, root, d, visited, batch + rest) && batch != []
    ensures (t.Keys + {root}) - (visited + Elems(batch)) < (t.Keys + {root}) - visited
  {
    var x := batch[0];
    assert x in Elems(batch);
    assert (batch + rest)[0] == x;
    assert x in Elems(batch + rest);
    assert x !in visited && x in t.Keys + {root};
    assert x in (t.Keys + {root}) - visited;
  }

  /** A cascade that visited everything reachable, or not. */
  ghost predicate Complete(t: Table, root: Id, d: bool, visited: set<Id>) {
    && root in visited && visited <= Reach(t, root, d)
    && (FanOutOk(t, root, d) ==> visited == Reach(t, root, d))
    && (Uncircled(t, root, d) && visited == Reach(t, root, d) ==> NoneTooWide(t, Reach(t, root, d), d))
  }

  lemma CompleteAtEnd(t: Table, root: Id, d: bool, visited: set<Id>)
    requires Frontier(t, root, d, visited, []) && Coverage(t, root, d, visited, [])
    ensures Complete(t, root, d, visited)
  {
    if NothingLost(t, d, visited, []) { Drained(t, root, d, visited); }
    if visited == Reach(t, root, d) {
      forall x | x in Children(t, visited, d) ensures x in visited { ReachChild(t, root, d, x); }
    }
  }

  ghost predicate MoveInv(t: Table, source: Id, oldPrefix: seq<Id>, newPrefix: seq<Id>, delta: int,
                          visited: set<Id>, state: seq<Id>, rows: Table, total: nat) {
    && Frontier(t, source, false, visited, state)
    && DepthsFit(t, visited, delta)
    && rows == Shift(t, visited, oldPrefix, newPrefix, delta) && total == |t.Keys * visited|
    && Coverage(t, source, false, visited, state)
  }

  lemma MoveStart(t: Table, source: Id, oldPrefix: seq<Id>, newPrefix: seq<Id>, delta: int)
    ensures MoveInv(t, source, oldPrefix, newPrefix, delta, {}, [source], t, 0)
  {
    FrontierStart(t, source, false);
    assert Shift(t, {}, oldPrefix, newPrefix, delta) == t && t.Keys * {} == {};
  }

  /** One round: the batch is shifted, its children join the worklist, and some row has been visited; nothing is
      forgotten exactly when nothing had been and the child query was not cut. */
  lemma MoveRound(t: Table, source: Id, oldPrefix: seq<Id>, newPrefix: seq<Id>, delta: int,
                  visited: set<Id>, batch: seq<Id>, rest: seq<Id>, rows: Table, total: nat, kids: seq<Id>)
    requires Uncircled(t, source, false) && 0 < |batch| <= BATCH
    requires MoveInv(t, source, oldPrefix, newPrefix, delta, visited, batch + rest, rows, total)
    requires DepthsFit(rows, Elems(batch), delta) && Fetched(rows, Elems(batch), false, kids)
    ensures MoveInv(t, source, oldPrefix, newPrefix, delta, visited + Elems(batch), rest + kids,
                    Shift(rows, Elems(batch), oldPrefix, newPrefix, delta), total + |rows.Keys * Elems(batch)|)
    ensures NothingLost(t, false, visited + Elems(batch), rest + kids)
            <==> NothingLost(t, false, visited, batch + rest) && |Children(t, Elems(batch), false)| <= FETCH_LIMIT
    ensures (t.Keys + {source}) - (visited + Elems(batch)) < (t.Keys + {source}) - visited
  {
    var b := Elems(batch);
    MoveFetch(t, source, rows, visited, batch, rest, kids);
    FrontierStep(t, source, false, visited, batch, rest, kids);
    CoverageStep(t, source, false, visited, batch, rest, kids);
    ShiftApart(t, visited, b, oldPrefix, newPrefix, delta);
    KeysSplit(t.Keys, visited, b);
    BatchHeadIsNew(t, source, false, visited, batch, rest);
  }

  lemma KeysSplit(keys: set<Id>, a: set<Id>, b: set<Id>)
    requires a !! b
    ensures |keys * (a + b)| == |keys * a| + |keys * b|
  {
    assert keys * (a + b) == keys * a + keys * b;
  }

  /** A round of the move cascade fetches unvisited children only, all of them exactly if they fit. */
  lemma MoveFetch(t: Table, source: Id, u: Table, visited: set<Id>, batch: seq<Id>, rest: seq<Id>, kids: seq<Id>)
    requires Uncircled(t, source, false) && Frontier(t, source, false, visited, batch + rest) && 0 < |batch| <= BATCH
    requires SameLinks(t, u) && forall x :: x in t ==> u[x].deleted == t[x].deleted
    requires Fetched(u, Elems(batch), false, kids)
    ensures Elems(kids) <= Fresh(t, false, visited, Elems(batch)) && |kids| <= FETCH_LIMIT
    ensures Elems(kids) == Fresh(t, false, visited, Elems(batch)) <==> |Children(t, Elems(batch), false)| <= FETCH_LIMIT
    ensures FanOutOk(t, source, false) ==> Elems(kids) == Fresh(t, false, visited, Elems(batch))
  {
    var b := Elems(batch);
    NoRevisit(t, source, false, visited, batch, rest);
    assert Children(u, b, false) == Children(t, b, false);
    FetchedIff(u, b, false, kids);
    if FanOutOk(t, source, false) {
      FrontierStep(t, source, false, visited, batch, rest, []);
    }
  }

  /** What a drained or aborted move cascade has done: it shifted the visited rows, all of them or, if a depth broke the
      constraint, those of the batches before. */
  ghost predicate MoveResult(t: Table, source: Id, oldPrefix: seq<Id>, newPrefix: seq<Id>, delta: int,
                             visited: set<Id>, rows: Table, total: nat, ok: bool) {
    && visited <= Reach(t, source, false) && DepthsFit(t, visited, delta)
    && rows == Shift(t, visited, oldPrefix, newPrefix, delta) && total == |t.Keys * visited|
    && (ok ==> Complete(t, source, false, visited))
    && (!ok ==> !DepthsFit(t, Reach(t, source, false), delta))
    && (!ok && !DepthsFit(t, {source}, delta) ==> visited == {})
  }

  lemma MoveAbort(t: Table, source: Id, oldPrefix: seq<Id>, newPrefix: seq<Id>, delta: int,
                  visited: set<Id>, batch: seq<Id>, rest: seq<Id>, rows: Table, total: nat)
    requires batch != []
    requires MoveInv(t, source, oldPrefix, newPrefix, delta, visited, batch + rest, rows, total)
    requires !DepthsFit(rows, Elems(batch), delta)
    ensures MoveResult(t, source, oldPrefix, newPrefix, delta, visited, rows, total, false)
  {
    ShiftApart(t, visited, Elems(batch), oldPrefix, newPrefix, delta);
    BatchIsReached(t, source, false, visited, batch, rest);
    if !DepthsFit(t, {source}, delta) { assert source !in visited; }
  }

  lemma BatchIsReached(t: Table, root: Id, d: bool, visited: set<Id>, batch: seq<Id>, rest: seq<Id>)
    requires Frontier(t, root, d, visited, batch + rest)
    ensures Elems(batch) <= Reach(t, root, d) && Elems(batch) !! visited
  {
    ElemsSplit(batch, rest);
  }

  lemma MoveEnd(t: Table, source: Id, oldPrefix: seq<Id>, newPrefix: seq<Id>, delta: int,
                visited: set<Id>, rows: Table, total: nat)
    requires MoveInv(t, source, oldPrefix, newPrefix, delta, visited, [], rows, total)
    ensures MoveResult(t, source, oldPrefix, newPrefix, delta, visited, rows, total, true)
  {
    CompleteAtEnd(t, source, false, visited);
  }

  // ---------------------------------------------------------------- when the move cascade ends

  /** The move loop can run, from the worklist `todo`, through as many rounds as there are answers to its child query. */
  ghost predicate Plays(rows: Table, todo: seq<Id>, oldPrefix: seq<Id>, newPrefix: seq<Id>, delta: int,
                        answers: seq<seq<Id>>)
    decreases |answers|
  {
    if answers == [] then true
    else
      var b := Elems(todo[..Take(todo)]);
      && todo != [] && Fetched(rows, b, false, answers[0]) && DepthsFit(rows, b, delta)
      && Plays(Shift(rows, b, oldPrefix, newPrefix, delta), todo[Take(todo)..] + answers[0], oldPrefix, newPrefix, delta,
               answers[1..])
  }

  /** Some run of the move loop from its start has `n` rounds. */
  ghost predicate Lasts(t: Table, source: Id, oldPrefix: seq<Id>, newPrefix: seq<Id>, delta: int, n: nat) {
    exists answers: seq<seq<Id>> :: |answers| == n && Plays(t, [source], oldPrefix, newPrefix, delta, answers)
  }

  lemma {:induction false} LastLink(t: Table, x: Id, r: Id, d: bool, n: nat) returns (y: Id)
    requires n > 0 && Chain(t, x, r, d, n)
    ensures y in t && t[y].deleted == d && t[y].parent == Some(r) && Chain(t, x, y, d, n - 1)
    decreases n
  {
    if n == 1 { y := x; } else { y := LastLink(t, t[x].parent.value, r, d, n - 1); }
  }

  /** The next row down a cycle. */
  lemma RoundTheCycle(t: Table, root: Id, d: bool, c: Id, i: nat) returns (k: Id, j: nat)
    requires !Uncircled(t, root, d) && Chain(t, root, c, d, i)
    ensures k in t && t[k].deleted == d && t[k].parent == Some(c) && Chain(t, root, k, d, j)
  {
    if i > 0 {
      j := i - 1;
    } else {
      var n: nat :| n > 0 && Chain(t, root, root, d, n);
      j := n - 1;
    }
    k := LastLink(t, root, c, d, j + 1);
  }

  lemma {:induction false} ListOf(s: set<Id>) returns (q: seq<Id>)
    ensures NoDup(q) && Elems(q) == s
    decreases s
  {
    if s == {} {
      q := [];
    } else {
      var x :| x in s;
      var rest := ListOf(s - {x});
      q := rest + [x];
      ElemsAppend(rest, x);
      assert x !in rest by { assert x !in Elems(rest); }
    }
  }

  lemma ListWith(s: set<Id>, k: Option<Id>) returns (q: seq<Id>)
    requires k.Some? ==> k.value in s
    ensures NoDup(q) && Elems(q) == s && (k.Some? ==> q != [] && q[0] == k.value)
  {
    var first := if k.Some? then [k.value] else [];
    var others := ListOf(s - Elems(first));
    forall x | x in first ensures x !in others { assert x in Elems(first) && x !in Elems(others); }
    NoDupJoin(first, others);
    ElemsSplit(first, others);
    q := first + others;
  }

  /** The child query may answer, and may answer with any one child among the rest. */
  lemma SomeFetch(t: Table, parents: set<Id>, d: bool, k: Option<Id>) returns (kids: seq<Id>)
    requires k.Some? ==> k.value in Children(t, parents, d)
    ensures Fetched(t, parents, d, kids) && (k.Some? ==> k.value in kids)
  {
    var all := Children(t, parents, d);
    var q := ListWith(all, k);
    NoDupCard(q);
    kids := if |all| <= FETCH_LIMIT then q else q[..FETCH_LIMIT];
    forall x | x in kids ensures x in all { assert x in Elems(q); }
    assert k.Some? ==> kids[0] == k.value;
  }

  lemma {:induction false} ChainSame(t: Table, u: Table, x: Id, r: Id, d: bool, n: nat)
    requires SameLinks(t, u) && (forall y :: y in t ==> u[y].deleted == t[y].deleted) && Chain(t, x, r, d, n)
    ensures Chain(u, x, r, d, n)
    decreases n
  {
    if n > 0 { ChainSame(t, u, t[x].parent.value, r, d, n - 1); }
  }

  /** The worklist holds a row of the cycle. */
  ghost predicate Circling(rows: Table, source: Id, todo: seq<Id>, c: Id, i: nat) {
    !Uncircled(rows, source, false) && c in todo && Chain(rows, source, c, false, i)
  }

  lemma CirclingShifted(t: Table, source: Id, ids: set<Id>, oldPrefix: seq<Id>, newPrefix: seq<Id>, delta: int,
                        c: Id, i: nat, u: Table)
    requires !Uncircled(t, source, false) && Chain(t, source, c, false, i)
    requires u == Shift(t, ids, oldPrefix, newPrefix, delta)
    ensures !Uncircled(u, source, false) && Chain(u, source, c, false, i)
  {
    ChainSame(t, u, source, c, false, i);
    var n: nat :| n > 0 && Chain(t, source, source, false, n);
    ChainSame(t, u, source, source, false, n);
  }

  /** On a cycle a batch either leaves the row waiting or fetches the next one. */
  lemma CirclingNext(t: Table, source: Id, todo: seq<Id>, c: Id, i: nat) returns (kids: seq<Id>, c': Id, j: nat)
    requires Circling(t, source, todo, c, i)
    ensures Fetched(t, Elems(todo[..Take(todo)]), false, kids)
    ensures c' in todo[Take(todo)..] + kids && Chain(t, source, c', false, j)
  {
    var batch, rest := todo[..Take(todo)], todo[Take(todo)..];
    assert todo == batch + rest;
    if c in batch {
      c', j := RoundTheCycle(t, source, false, c, i);
      kids := SomeFetch(t, Elems(batch), false, Some(c'));
    } else {
      c', j := c, i;
      kids := SomeFetch(t, Elems(batch), false, None);
    }
  }

  lemma {:induction false} CirclePlays(t: Table, source: Id, todo: seq<Id>, oldPrefix: seq<Id>, newPrefix: seq<Id>,
                                       delta: int, n: nat, c: Id, i: nat) returns (answers: seq<seq<Id>>)
    requires Circling(t, source, todo, c, i) && delta <= 0 && DepthsFit(t, t.Keys, 0)
    ensures |answers| == n && Plays(t, todo, oldPrefix, newPrefix, delta, answers)
    decreases n
  {
    if n == 0 {
      answers := [];
    } else {
      var b := Elems(todo[..Take(todo)]);
      var u := Shift(t, b, oldPrefix, newPrefix, delta);
      var kids, c', j := CirclingNext(t, source, todo, c, i);
      CirclingShifted(t, source, b, oldPrefix, newPrefix, delta, c', j, u);
      var more := CirclePlays(u, source, todo[Take(todo)..] + kids, oldPrefix, newPrefix, delta, n - 1, c', j);
      answers := [kids] + more;
      assert answers[1..] == more;
    }
  }

  /** Away from a cycle every round visits a row for the first time. */
  lemma FewerLeft(t: Table, source: Id, oldPrefix: seq<Id>, newPrefix: seq<Id>, delta: int, visited: set<Id>,
                  batch: seq<Id>, rest: seq<Id>, rows: Table, total: nat, kids: seq<Id>)
    requires Uncircled(t, source, false) && 0 < |batch| <= BATCH
    requires MoveInv(t, source, oldPrefix, newPrefix, delta, visited, batch + rest, rows, total)
    requires DepthsFit(rows, Elems(batch), delta) && Fetched(rows, Elems(batch), false, kids)
    ensures MoveInv(t, source, oldPrefix, newPrefix, delta, visited + Elems(batch), rest + kids,
                    Shift(rows, Elems(batch), oldPrefix, newPrefix, delta), total + |rows.Keys * Elems(batch)|)
    ensures |(t.Keys + {source}) - (visited + Elems(batch))| < |(t.Keys + {source}) - visited|
  {
    MoveRound(t, source, oldPrefix, newPrefix, delta, visited, batch, rest, rows, total, kids);
    ProperSubsetCard((t.Keys + {source}) - (visited + Elems(batch)), (t.Keys + {source}) - visited);
  }

  lemma {:induction false} PlaysBounded(t: Table, source: Id, oldPrefix: seq<Id>, newPrefix: seq<Id>, delta: int,
                                        visited: set<Id>, todo: seq<Id>, rows: Table, total: nat, answers: seq<seq<Id>>)
    requires Uncircled(t, source, false)
    requires MoveInv(t, source, oldPrefix, newPrefix, delta, visited, todo, rows, total)
    requires Plays(rows, todo, oldPrefix, newPrefix, delta, answers)
    ensures |answers| <= |(t.Keys + {source}) - visited|
    decreases |answers|
  {
    if answers != [] {
      var batch, rest := todo[..Take(todo)], todo[Take(todo)..];
      assert todo == batch + rest;
      FewerLeft(t, source, oldPrefix, newPrefix, delta, visited, batch, rest, rows, total, answers[0]);
      PlaysBounded(t, source, oldPrefix, newPrefix, delta, visited + Elems(batch), rest + answers[0],
                   Shift(rows, Elems(batch), oldPrefix, newPrefix, delta), total + |rows.Keys * Elems(batch)|,
                   answers[1..]);
    }
  }

  lemma ProperSubsetCard(a: set<Id>, b: set<Id>)
    requires a < b
    ensures |a| < |b|
  {
    SubsetCard(a, b);
    if |a| == |b| { SubsetOfSameSize(a, b); }
  }

  /** The room under the constraint, over the rows of `q`. */
  ghost function Room(t: Table, q: seq<Id>): int
    requires forall x :: x in q ==> x in t
  {
    if q == [] then 0 else Room(t, q[..|q| - 1]) + MAX_DEPTH - t[q[|q| - 1]].depth
  }

  lemma {:induction false} RoomShrinks(t: Table, q: seq<Id>, ids: set<Id>, oldPrefix: seq<Id>, newPrefix: seq<Id>,
                                       delta: int, u: Table)
    requires delta >= 1 && (forall x :: x in q ==> x in t) && u == Shift(t, ids, oldPrefix, newPrefix, delta)
    ensures Room(u, q) <= Room(t, q) && ((exists x :: x in q && x in ids) ==> Room(u, q) < Room(t, q))
    decreases |q|
  {
    if q != [] {
      var init, last := q[..|q| - 1], q[|q| - 1];
      RoomShrinks(t, init, ids, oldPrefix, newPrefix, delta, u);
      assert last !in ids ==> u[last] == t[last];
      if x :| x in q && x in ids && last !in ids { assert x in init; }
    }
  }

  lemma {:induction false} RoomLeft(t: Table, q: seq<Id>)
    requires (forall x :: x in q ==> x in t) && DepthsFit(t, t.Keys, 0)
    ensures Room(t, q) >= 0
  {
    if q != [] { RoomLeft(t, q[..|q| - 1]); }
  }

  /** A cascade that pushes rows down runs into the constraint in the end. */
  lemma {:induction false} PushingEnds(t: Table, todo: seq<Id>, oldPrefix: seq<Id>, newPrefix: seq<Id>, delta: int,
                                       q: seq<Id>, answers: seq<seq<Id>>)
    requires delta >= 1 && DepthsFit(t, t.Keys, 0) && Elems(q) == t.Keys && Elems(todo) <= t.Keys
    requires Plays(t, todo, oldPrefix, newPrefix, delta, answers)
    ensures (forall x :: x in q ==> x in t) && |answers| <= Room(t, q)
    decreases |answers|
  {
    assert forall x :: x in q ==> x in Elems(q);
    RoomLeft(t, q);
    if answers != [] {
      var b, rest := Elems(todo[..Take(todo)]), todo[Take(todo)..];
      var u := Shift(t, b, oldPrefix, newPrefix, delta);
      assert todo[0] in b && todo[0] in Elems(todo) && todo[0] in Elems(q);
      RoomShrinks(t, q, b, oldPrefix, newPrefix, delta, u);
      ElemsSplit(rest, answers[0]);
      assert Elems(rest) <= Elems(todo);
      PushingEnds(u, rest + answers[0], oldPrefix, newPrefix, delta, q, answers[1..]);
    }
  }

  /** When the loop ends, within how many rounds. */
  lemma LastsAtMost(t: Table, source: Id, oldPrefix: seq<Id>, newPrefix: seq<Id>, delta: int) returns (n: nat)
    requires DepthsFit(t, t.Keys, 0) && source in t && (Uncircled(t, source, false) || delta > 0)
    ensures !Lasts(t, source, oldPrefix, newPrefix, delta, n)
  {
    var q := ListOf(t.Keys);
    assert forall x :: x in q ==> x in Elems(q);
    RoomLeft(t, q);
    MoveStart(t, source, oldPrefix, newPrefix, delta);
    n := if Uncircled(t, source, false) then |(t.Keys + {source}) - {}| + 1 else Room(t, q) + 1;
    if Lasts(t, source, oldPrefix, newPrefix, delta, n) {
      var answers: seq<seq<Id>> :| |answers| == n && Plays(t, [source], oldPrefix, newPrefix, delta, answers);
      if Uncircled(t, source, false) {
        PlaysBounded(t, source, oldPrefix, newPrefix, delta, {}, [source], t, 0, answers);
      } else {
        PushingEnds(t, [source], oldPrefix, newPrefix, delta, q, answers);
      }
    }
  }

  /** Exactly when the move loop can go on for ever: its folder lies on a cycle of active rows, and the rows are not being
      pushed down, so that the constraint never stops it. */
  lemma MoveNeverEndsIff(t: Table, source: Id, oldPrefix: seq<Id>, newPrefix: seq<Id>, delta: int)
    requires DepthsFit(t, t.Keys, 0) && source in t
    ensures (forall n: nat :: Lasts(t, source, oldPrefix, newPrefix, delta, n))
            <==> !Uncircled(t, source, false) && delta <= 0
  {
    if !Uncircled(t, source, false) && delta <= 0 {
      assert Chain(t, source, source, false, 0);
      forall n: nat ensures Lasts(t, source, oldPrefix, newPrefix, delta, n) {
        var answers := CirclePlays(t, source, [source], oldPrefix, newPrefix, delta, n, source, 0);
      }
    } else {
      var n := LastsAtMost(t, source, oldPrefix, newPrefix, delta);
    }
  }

  // ---------------------------------------------------------------- the workers

  class FolderDb {
    var rows: Table

    constructor (t: Table)
      ensures rows == t
    {
      rows := t;
    }

    method SelectChildren(parents: set<Id>, d: bool) returns (kids: seq<Id>)
      ensures Fetched(rows, parents, d, kids)
    {
      var left := Children(rows, parents, d);
      kids := [];
      while left != {} && |kids| < FETCH_LIMIT
        invariant left <= Children(rows, parents, d)
        invariant NoDup(kids) && Elems(kids) == Children(rows, parents, d) - left
        invariant |kids| <= FETCH_LIMIT && |kids| + |left| == |Children(rows, parents, d)|
        decreases left
      {
        var x :| x in left;
        ghost var before := kids;
        kids := kids + [x];
        assert Elems(kids) == Elems(before) + {x};
        left := left - {x};
      }
    }

    /** One transaction of the delete (`to`) or restore (`!to`) cascade. */
    method FlipBatch(parents: seq<Id>, to: bool) returns (kids: seq<Id>, count: nat)
      modifies this
      ensures rows == Flip(old(rows), Elems(parents), to)
      ensures count == |Changing(old(rows), Elems(parents), to)|
      ensures Fetched(rows, Elems(parents), !to, kids)
    {
      var ids := set x | x in parents;
      assert ids == Elems(parents);
      count := |Changing(rows, ids, to)|;
      rows := Flip(rows, ids, to);
      kids := SelectChildren(ids, !to);
    }

    /** The worklist loop of `_cascade_soft_delete_subtree` and `_cascade_restore_subtree`, which differ only in the
        flag. */
    method CascadeFlip(root: Id, to: bool) returns (total: nat, ghost visited: set<Id>)
      modifies this
      ensures Complete(old(rows), root, !to, visited)
      ensures rows == Flip(old(rows), visited, to)
      ensures total == |Changing(old(rows), visited, to)|
    {
      ghost var t := rows;
      total, visited := 0, {};
      var state := [root];
      FlipStart(t, root, to);
      while state != []
        invariant FlipInv(t, root, to, visited, state, rows, total)
        decreases (t.Keys + {root}) - visited
      {
        var k := Take(state);
        var batch, rest := state[..k], state[k..];
        assert state == batch + rest;
        var kids, count := FlipBatch(batch, to);
        FlipRound(t, root, to, visited, batch, rest, total, kids);
        visited := visited + Elems(batch);
        state := rest + kids;
        total := total + count;
      }
      CompleteAtEnd(t, root, !to, visited);
    }

    /** `_cascade_soft_delete_subtree`; `RetryLater` stands for an exception that makes Celery retry. Over the statuses
        there are, the guard raises for every workspace that exists, and the loop is not reached. */
    method CascadeSoftDelete(members: set<string>, ws: Option<string>, root: Id)
      returns (r: TaskResult, total: nat, ghost visited: set<Id>)
      modifies this
      ensures members == STATUSES ==> r == (if ws.None? then Skipped else RetryLater) && rows == old(rows)
      ensures r == match GateOf(members, ws) case Leave => Skipped case Raise => RetryLater case Enter => Completed
      ensures "HARD_DELETED" in members && ws.Some? ==>
                r == if ws.value == "HARD_DELETED" then Skipped else Completed
      ensures rows == Flip(old(rows), visited, true) && total == |Changing(old(rows), visited, true)|
      ensures if r.Completed? then Complete(old(rows), root, false, visited) else visited == {}
    {
      FlipStart(rows, root, true);
      total, visited := 0, {};
      match GateOf(members, ws) {
        case Leave => r := Skipped;
        case Raise => r := RetryLater;
        case Enter =>
          r := Completed;
          total, visited := CascadeFlip(root, true);
      }
    }

    /** `_cascade_restore_subtree`: behind the guard a suspended workspace is put off. */
    method CascadeRestore(members: set<string>, ws: Option<string>, root: Id)
      returns (r: TaskResult, total: nat, ghost visited: set<Id>)
      modifies this
      ensures members == STATUSES ==> r == (if ws.None? then Skipped else RetryLater) && rows == old(rows)
      ensures r == match GateOf(members, ws)
                   case Leave => Skipped
                   case Raise => RetryLater
                   case Enter => if ws == Some("SUSPENDED") then RetryLater else Completed
      ensures "HARD_DELETED" in members && ws.Some? ==>
                r == if ws.value == "HARD_DELETED" then Skipped
                     else if ws.value == "SUSPENDED" then RetryLater else Completed
      ensures rows == Flip(old(rows), visited, false) && total == |Changing(old(rows), visited, false)|
      ensures if r.Completed? then Complete(old(rows), root, true, visited) else visited == {}
    {
      FlipStart(rows, root, false);
      total, visited := 0, {};
      match GateOf(members, ws) {
        case Leave => r := Skipped;
        case Raise => r := RetryLater;
        case Enter =>
          if ws.value == "SUSPENDED" {
            return RetryLater, 0, {};
          }
          r := Completed;
          total, visited := CascadeFlip(root, false);
      }
    }

    /** One transaction of the move cascade: children are fetched first, then the batch is
        shifted; a row pushed past the depth CHECK aborts the transaction. */
    method MoveBatch(parents: seq<Id>, oldPrefix: seq<Id>, newPrefix: seq<Id>, delta: int)
      returns (ok: bool, kids: seq<Id>, count: nat)
      modifies this
      ensures ok <==> DepthsFit(old(rows), Elems(parents), delta)
      ensures rows == if ok then Shift(old(rows), Elems(parents), oldPrefix, newPrefix, delta) else old(rows)
      ensures Fetched(old(rows), Elems(parents), false, kids)
      ensures count == if ok then |old(rows).Keys * Elems(parents)| else 0
    {
      var ids := set x | x in parents;
      assert ids == Elems(parents);
      kids := SelectChildren(ids, false);
      ok := DepthsFit(rows, ids, delta);
      count := 0;
      if ok {
        count := |rows.Keys * ids|;
        rows := Shift(rows, ids, oldPrefix, newPrefix, delta);
      }
    }

    /** One pass through the loop: a batch off the front of the worklist, its children onto the end. */
    method MoveNext(state: seq<Id>, oldPrefix: seq<Id>, newPrefix: seq<Id>, delta: int, ghost t: Table, source: Id,
                    ghost visited: set<Id>, ghost total: nat)
      returns (ok: bool, rest: seq<Id>, count: nat, ghost now: set<Id>)
      requires Uncircled(t, source, false) && state != []
      requires MoveInv(t, source, oldPrefix, newPrefix, delta, visited, state, rows, total)
      modifies this
      ensures ok ==> MoveInv(t, source, oldPrefix, newPrefix, delta, now, rest, rows, total + count)
      ensures ok ==> (t.Keys + {source}) - now < (t.Keys + {source}) - visited
      ensures !ok ==> MoveResult(t, source, oldPrefix, newPrefix, delta, visited, rows, total, false)
    {
      var k := Take(state);
      var batch := state[..k];
      assert state == batch + state[k..];
      ghost var before := rows;
      var kids;
      ok, kids, count := MoveBatch(batch, oldPrefix, newPrefix, delta);
      rest, now := state[k..] + kids, visited + Elems(batch);
      if ok {
        MoveRound(t, source, oldPrefix, newPrefix, delta, visited, batch, state[k..], before, total, kids);
      } else {
        MoveAbort(t, source, oldPrefix, newPrefix, delta, visited, batch, state[k..], before, total);
      }
    }

    /** The worklist loop of the move cascade; `!ok` when a transaction was aborted. */
    method DrainMove(source: Id, oldPrefix: seq<Id>, newPrefix: seq<Id>, delta: int)
      returns (ok: bool, total: nat, ghost visited: set<Id>)
      requires Uncircled(rows, source, false)
      modifies this
      ensures MoveResult(old(rows), source, oldPrefix, newPrefix, delta, visited, rows, total, ok)
    {
      ghost var t := rows;
      total, visited := 0, {};
      MoveStart(t, source, oldPrefix, newPrefix, delta);
      var state := [source];
      while state != []
        invariant Uncircled(t, source, false)
        invariant MoveInv(t, source, oldPrefix, newPrefix, delta, visited, state, rows, total)
        decreases (t.Keys + {source}) - visited
      {
        var count; ghost var now;
        ok, state, count, now := MoveNext(state, oldPrefix, newPrefix, delta, t, source, visited, total);
        if !ok {
          return;
        }
        total, visited := total + count, now;
      }
      MoveEnd(t, source, oldPrefix, newPrefix, delta, visited, rows, total);
      ok := true;
    }

    /** `_cascade_move_subtree`; `moved` is the table its loop leaves. */
    method CascadeMove(members: set<string>, ws: Option<string>, source: Id, oldPrefix: seq<Id>, newPrefix: seq<Id>,
                       delta: int)
      returns (r: TaskResult, total: nat, ghost visited: set<Id>, ghost moved: Table)
      requires Uncircled(rows, source, false)
      modifies this
      ensures members == STATUSES ==> r == (if ws.None? then Skipped else RetryLater) && rows == old(rows)
      ensures GateOf(members, ws).Leave? <==> r.Skipped?
      ensures GateOf(members, ws).Raise? ==> r.RetryLater?
      ensures "HARD_DELETED" in members && ws.Some? ==> (r.Skipped? <==> ws.value == "HARD_DELETED")
      ensures if GateOf(members, ws).Enter? then
                MoveResult(old(rows), source, oldPrefix, newPrefix, delta, visited, moved, total, r.Completed?)
              else moved == old(rows) && total == 0 && visited == {}
      ensures rows == BumpIf(r.Completed?, moved, source)
    {
      total, visited, moved := 0, {}, rows;
      match GateOf(members, ws) {
        case Leave => r := Skipped;
        case Raise => r := RetryLater;
        case Enter =>
          var ok;
          ok, total, visited := DrainMove(source, oldPrefix, newPrefix, delta);
          moved := rows;
          r := if ok then Completed else RetryLater;
          rows := BumpIf(ok, rows, source);
      }
    }
  }
}
