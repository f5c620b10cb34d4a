/** The three numbers of the folder tree, 1000 children per query, the constraint `depth <= 10` and the cap on new
    folders, and the inputs at which each of them lets the tree down. */
module FolderLimits {
  import opened Prelude
  import opened FolderTable
  import opened FolderCascades
  import opened FolderService
  import opened FolderMoves
  import opened FolderWorld
  import opened FolderCover
  import opened FolderRuns
  import opened FolderCounterexamples

  /** Names of different lengths. */
  function Name(n: nat): string { seq(n, _ => 'x') }

  // ---------------------------------------------------------------- 1001 children

  /** Folder 0 with the children 1 to `n`. */
  function Wide(n: nat): Table {
    map i: nat | i <= n :: if i == 0 then Row(None, [0], 0, Name(0)) else Row(Some(0), [0, i], 1, Name(i))
  }

  function WideWorld(): World { World(Wide(1001), map[], map[], None) }

  lemma WideIsFine(n: nat)
    ensures WellFormed(Wide(n)) && DeletedClosed(Wide(n))
  {
    forall x | x in Wide(n) ensures PathLink(Wide(n), x) {
      if x > 0 { assert [0] + [x] == [0, x]; }
    }
  }

  lemma WideChildren(n: nat)
    ensures Children(SoftDeleted(Wide(n), 0), {0}, false) == Range(1, n + 1)
    ensures Flip(SoftDeleted(Wide(n), 0), {0}, true) == SoftDeleted(Wide(n), 0)
  {
  }

  /** The first `n` children, as a query may return them. */
  function CountUp(n: nat): seq<Id> { seq(n, i => i + 1) }

  lemma CountUpIs(n: nat)
    ensures NoDup(CountUp(n)) && Elems(CountUp(n)) == Range(1, n + 1)
  {
    forall x | x in Range(1, n + 1) ensures x in Elems(CountUp(n)) { assert CountUp(n)[x - 1] == x; }
  }

  lemma ThousandFetched()
    ensures Fetched(SoftDeleted(Wide(1001), 0), {0}, false, CountUp(FETCH_LIMIT))
  {
    WideChildren(1001);
    CountUpIs(FETCH_LIMIT);
  }

  /** A delete batch of the single folder `x`, whatever its query returns. */
  lemma ThenBatch(w0: World, w: World, k: TaskId, x: Id, kids: seq<Id>, u: Table, v: World)
    requires Leads(w0, w, AnyStep) && k in w.del && w.del[k] == [x] && u == Flip(w.t, {x}, true)
    requires Fetched(u, {x}, false, kids) && v == w.(t := u, del := w.del[k := kids])
    ensures Leads(w0, v, AnyStep)
  {
    BatchOfOne(x, kids);
    Then(w0, w, DeleteBatch(k, kids), v);
  }

  /** Phase 1 of a delete and the first batch of its cascade. */
  lemma DeleteAndFetch(w: World, f: Id, kids: seq<Id>, t: Table, v: World)
    requires w.del == map[] && Active(w.t, f) && t == SoftDeleted(w.t, f)
    requires Fetched(t, {f}, false, kids) && Flip(t, {f}, true) == t && v == w.(t := t, del := map[0 := kids])
    ensures Leads(w, v, AnyStep)
  {
    var u := w.(t := t, del := map[0 := [f]]);
    Start(w);
    ThenDelete(w, w, f, 0, u);
    assert v.del == u.del[0 := kids];
    ThenBatch(w, u, 0, f, kids, t, v);
  }

  lemma ThousandQueued(w: World)
    requires w == World(SoftDeleted(Wide(1001), 0), map[0 := CountUp(FETCH_LIMIT)], map[], None)
    ensures Leads(WideWorld(), w, AnyStep)
  {
    WideChildren(1001);
    ThousandFetched();
    DeleteAndFetch(WideWorld(), 0, CountUp(FETCH_LIMIT), w.t, w);
  }

  /** A worklist of folders without children drains in batches, touching nothing else. */
  lemma {:induction false} DrainLeaves(w0: World, w: World, task: TaskId) returns (v: World)
    requires Leads(w0, w, AnyStep) && task in w.del
    requires forall x :: x in w.t && w.t[x].parent.Some? ==> w.t[x].parent.value !in w.del[task]
    ensures Leads(w0, v, AnyStep) && v.del == w.del[task := []] && v.res == w.res && v.mv == w.mv
    ensures SameLinks(w.t, v.t) && forall x :: x in w.t && x !in w.del[task] ==> v.t[x] == w.t[x]
    decreases |w.del[task]|
  {
    var todo := w.del[task];
    if todo == [] {
      v := w;
      assert w.del[task := []] == w.del;
    } else {
      var b := BatchSet(todo);
      SplitTodo(todo);
      var u := Flip(w.t, b, true);
      assert forall x :: x in b ==> x in Elems(todo);
      assert Children(u, b, false) == {};
      FetchNone(u, b, false);
      var s := DeleteBatch(task, []);
      var w' := w.(t := u, del := w.del[task := Rest(todo)]);
      assert Rest(todo) + [] == Rest(todo);
      assert Apply(w, s) == w';
      Then(w0, w, s, w');
      assert forall x :: x in Rest(todo) ==> x in Elems(todo);
      v := DrainLeaves(w0, w', task);
      assert v.del == w.del[task := []];
    }
  }

  /** Deleting a folder with 1001 children: the run ends with nothing pending and one child still active. */
  lemma WideDeleteLosesChild()
    ensures WellFormed(Wide(1001)) && DeletedClosed(Wide(1001))
    ensures exists e :: Leads(WideWorld(), e, AnyStep) && NonePending(e.del) && e.res == map[] && !DeletedClosed(e.t)
  {
    WideIsFine(1001);
    var w := World(SoftDeleted(Wide(1001), 0), map[0 := CountUp(FETCH_LIMIT)], map[], None);
    ThousandQueued(w);
    assert forall x :: x in CountUp(FETCH_LIMIT) ==> 1 <= x <= 1000;
    var e := DrainLeaves(WideWorld(), w, 0);
    assert e.t[0] == w.t[0] && e.t[1001] == w.t[1001];
    assert Active(e.t, 1001) && e.t[1001].parent == Some(0);
  }

  /** Exactly how wide a folder of leaves may be: the worker of its delete visits the whole subtree if it has at most 1000
      children, and misses some, in whatever order the query answers, if it has more. */
  lemma WideCascadeCompleteIff(n: nat, visited: set<Id>)
    requires Complete(SoftDeleted(Wide(n), 0), 0, false, visited)
    ensures visited == Reach(SoftDeleted(Wide(n), 0), 0, false) <==> n <= FETCH_LIMIT
  {
    var t := SoftDeleted(Wide(n), 0);
    WideIsFine(n);
    AgreeIsForest(Wide(n));
    ForestSameLinks(Wide(n), t);
    WideChildren(n);
    assert Chain(t, 0, 0, false, 0);
    if n <= FETCH_LIMIT {
      forall b: set<Id> ensures |Children(t, b, false)| <= FETCH_LIMIT {
        SubsetCard(Children(t, b, false), Range(1, n + 1));
      }
    } else {
      assert 0 in Reach(t, 0, false);
      assert |Children(t, {0}, false)| > FETCH_LIMIT;
    }
  }

  // ---------------------------------------------------------------- an accepted move whose cascade cannot commit

  function Upto(i: nat): seq<Id> { seq(i + 1, j => j) }

  /** A chain of folders 0 to 5, one below the other, and folder 6 beside it. */
  function Tower(): Table {
    map i: nat | i <= 6 ::
      if i == 6 then Row(None, [6], 0, Name(6))
      else Row(if i == 0 then None else Some(i - 1), Upto(i), i, Name(i))
  }

  lemma TowerRow(x: Id)
    requires x in Tower()
    ensures PathLink(Tower(), x) && Tower()[x].depth == |Tower()[x].path| - 1 && !Tower()[x].deleted
  {
    if 0 < x < 6 { assert Upto(x) == Upto(x - 1) + [x]; }
    if x == 0 { assert Upto(0) == [0]; }
  }

  lemma TowerIsFine()
    ensures WellFormed(Tower()) && DeletedClosed(Tower())
  {
    var t := Tower();
    forall x | x in t ensures PathLink(t, x) && t[x].depth == |t[x].path| - 1 && !t[x].deleted { TowerRow(x); }
  }

  lemma {:induction false} NothingBelowSix(x: Id, n: nat)
    requires Hops(Tower(), x, 6, n)
    ensures x == 6 && n == 0
    decreases n
  {
    if n > 0 { NothingBelowSix(Tower()[x].parent.value, n - 1); }
  }

  lemma SixHasHeightZero()
    ensures SubtreeHeight(Tower(), 6) == 0
  {
    TowerIsFine();
    SubtreeHeightIsTrue(Tower(), 6);
    var x, n: nat :| Hops(Tower(), x, 6, n) && n == SubtreeHeight(Tower(), 6);
    NothingBelowSix(x, n);
  }

  lemma SixToFiveAccepted()
    ensures MoveVerdict(Tower(), {}, 6, Some(5), 1, SubtreeHeight(Tower(), 6)) == Accepted
  {
    SixHasHeightZero();
    assert Upto(5)[0] == 0 && [6][0] == 6;
    assert !CheckCycle(Upto(5), [6]);
    assert forall x :: x in Tower() ==> |Tower()[x].name| == x;
    assert !NameTaken(Tower(), Some(5), Name(6), Some(6));
  }

  lemma SixIsGood()
    ensures GoodMove(Tower(), 6, Some(5)) && DepthChecked(Tower(), 6, Some(5))
  {
    TowerIsFine();
    AgreeIsForest(Tower());
    AgreeIsActive(Tower());
    SixToFiveAccepted();
    AcceptedIsGood(Tower(), {}, 6, Some(5), 1);
  }

  lemma SixAborts()
    ensures WellFormed(Tower()) && DeletedClosed(Tower()) && GoodMove(Tower(), 6, Some(5))
    ensures !DepthsFit(Moved(Tower(), 6, Some(5)), {6}, 6) && NewDepth(Tower(), Some(5)) == 6
  {
    TowerIsFine();
    SixIsGood();
    HeightFallsShort(Tower(), 6);
    MoveCascadeCommitsIff(Tower(), 6, Some(5));
  }

  /** A move cascade has work left and can do none of it. */
  ghost predicate Stuck(w: World) {
    w.mv.Some? && w.mv.value.todo != [] && forall kids :: !Enabled(w, MoveBatch(kids))
  }

  /** An accepted move whose own row does not fit a second shift leaves its cascade stuck. */
  lemma MoveSticks(w: World, id: Id, target: Option<Id>) returns (e: World)
    requires id in w.t && w.mv.None?
    requires MoveVerdict(w.t, {}, id, target, w.t[id].version, SubtreeHeight(w.t, id)) == Accepted
    requires !DepthsFit(Moved(w.t, id, target), {id}, NewDepth(w.t, target) - w.t[id].depth)
    ensures Leads(w, e, AnyStep) && Stuck(e)
  {
    var u := Moved(w.t, id, target);
    var m := Moving(id, w.t[id].path, NewPath(w.t, id, target), NewDepth(w.t, target) - w.t[id].depth, [id], {});
    e := w.(t := u, mv := Some(m));
    Start(w);
    ThenMove(w, w, id, target, u, m, e);
    BatchOfOne(id, []);
  }

  /** Moving the lone folder 6 below the folder at depth 5 is accepted, with new depth 6 and old depth 0; its cascade
      would store 12, the constraint refuses the very first batch, and the cascade is stuck. */
  lemma AcceptedMoveAborts()
    ensures WellFormed(Tower()) && DeletedClosed(Tower())
    ensures MoveVerdict(Tower(), {}, 6, Some(5), 1, SubtreeHeight(Tower(), 6)) == Accepted
    ensures 2 * NewDepth(Tower(), Some(5)) - Tower()[6].depth == 12
    ensures exists e :: Leads(World(Tower(), map[], map[], None), e, AnyStep) && Stuck(e)
  {
    SixToFiveAccepted();
    SixAborts();
    var e := MoveSticks(World(Tower(), map[], map[], None), 6, Some(5));
  }

  // ---------------------------------------------------------------- drifting depths and the cap on creates

  const NEW := "new"

  /** The parent of the `k`-th of a nest of creates below `p`. */
  function Above(p: Id, first: Id, k: nat): Id
    requires k >= 1
  {
    if k == 1 then p else first + k - 2
  }

  /** `k` folders created one inside the other below `p`, with ids from `first`. */
  function Nest(t: Table, p: Id, first: Id, k: nat): (u: Table)
    requires p in t
    ensures t.Keys <= u.Keys && (k > 0 ==> first + k - 1 in u)
  {
    if k == 0 then t else Created(Nest(t, p, first, k - 1), first + k - 1, Some(Above(p, first, k)), NEW)
  }

  /** All of these creates are accepted. */
  predicate Admitted(t: Table, p: Id, first: Id, k: nat)
    requires p in t
  {
    k == 0 || (Admitted(t, p, first, k - 1)
               && CreateVerdict(Nest(t, p, first, k - 1), true, Some(Above(p, first, k)), NEW) == Accepted)
  }

  /** No row and no parent link mentions an id from `first` on. */
  ghost predicate FreshFrom(t: Table, first: Id) {
    forall x :: x in t ==> x < first && (t[x].parent.Some? ==> t[x].parent.value < first)
  }

  /** Room for the nest: fresh ids, a free name, and not too many folders. */
  ghost predicate NestFits(t: Table, p: Id, first: Id, k: nat) {
    && Active(t, p) && t[p].path != [] && FreshFrom(t, first)
    && !NameTaken(t, Some(p), NEW, None) && |ActiveIds(t)| + k <= MAX_FOLDERS
  }

  /** The innermost folder of the nest, or `p` itself. */
  function Innermost(p: Id, first: Id, k: nat): Id {
    if k == 0 then p else first + k - 1
  }

  ghost predicate NestedWell(t: Table, p: Id, first: Id, k: nat, u: Table)
    requires p in t
  {
    var x := Innermost(p, first, k);
    && Active(u, x) && u[x].depth == t[p].depth + k && |u[x].path| == |t[p].path| + k
    && FreshFrom(u, first + k) && |ActiveIds(u)| == |ActiveIds(t)| + k
    && !NameTaken(u, Some(x), NEW, None)
  }

  lemma {:induction false} NestIs(t: Table, p: Id, first: Id, k: nat)
    requires NestFits(t, p, first, k)
    ensures NestedWell(t, p, first, k, Nest(t, p, first, k))
  {
    if k > 0 {
      NestIs(t, p, first, k - 1);
      NestStep(t, p, first, k, Nest(t, p, first, k - 1), Nest(t, p, first, k));
    }
  }

  lemma NestStep(t: Table, p: Id, first: Id, k: nat, u: Table, v: Table)
    requires k >= 1 && p in t && NestedWell(t, p, first, k - 1, u)
    requires Above(p, first, k) in u && v == Created(u, first + k - 1, Some(Above(p, first, k)), NEW)
    requires u[Above(p, first, k)].path != []
    ensures NestedWell(t, p, first, k, v)
  {
    assert ActiveIds(v) == ActiveIds(u) + {first + k - 1};
  }

  /** One more create is accepted exactly while the stored depth of the innermost folder is below 9. */
  lemma NextAdmitted(t: Table, p: Id, first: Id, k: nat, u: Table)
    requires k > 0 && NestFits(t, p, first, k) && u == Nest(t, p, first, k - 1) && NestedWell(t, p, first, k - 1, u)
    ensures CreateVerdict(u, true, Some(Above(p, first, k)), NEW) == Accepted <==> t[p].depth + k <= MAX_DEPTH - 1
  {
    assert Above(p, first, k) == Innermost(p, first, k - 1);
  }

  /** How deep a nest may get is a matter of the stored depth of `p` alone. */
  lemma {:induction false} AdmittedIff(t: Table, p: Id, first: Id, k: nat)
    requires NestFits(t, p, first, k)
    ensures Admitted(t, p, first, k) <==> k == 0 || t[p].depth + k <= MAX_DEPTH - 1
  {
    if k > 0 {
      AdmittedIff(t, p, first, k - 1);
      var u := Nest(t, p, first, k - 1);
      NestIs(t, p, first, k - 1);
      NextAdmitted(t, p, first, k, u);
    }
  }

  lemma EndsBelow(u: Table, id: Id, parent: Id, n: nat, v: Table)
    requires id !in u && parent in u && v == Created(u, id, Some(parent), NEW) && Ends(u, parent, n)
    ensures Ends(v, id, n + 1)
  {
    EndsLarger(u, v, parent, n);
  }

  lemma {:induction false} NestEnds(t: Table, p: Id, first: Id, k: nat, n: nat)
    requires NestFits(t, p, first, k) && Ends(t, p, n)
    ensures Ends(Nest(t, p, first, k), Innermost(p, first, k), n + k)
  {
    if k > 0 {
      NestEnds(t, p, first, k - 1, n);
      NestIs(t, p, first, k - 1);
      var u := Nest(t, p, first, k - 1);
      assert first + k - 1 !in u;
      EndsBelow(u, first + k - 1, Innermost(p, first, k - 1), n + k - 1, Nest(t, p, first, k));
    }
  }

  /** The true depth of the innermost folder of a nest is its stored depth less the drift of `p`. */
  lemma NestDepth(t: Table, p: Id, first: Id, k: nat)
    requires Forest(t) && NestFits(t, p, first, k)
    ensures var u, x := Nest(t, p, first, k), Innermost(p, first, k);
            x in u && u[x].depth - Drift(t, p) >= 0 && Ends(u, x, u[x].depth - Drift(t, p))
  {
    NestIs(t, p, first, k);
    NestEnds(t, p, first, k, TrueDepth(t, p));
  }

  /** Some accepted nest below `p` gets deeper than 9. */
  ghost predicate NestsTooDeep(t: Table, p: Id, first: Id)
    requires Forest(t) && p in t
  {
    exists k: nat :: k > 0 && NestFits(t, p, first, k) && Admitted(t, p, first, k) && TrueDepth(t, p) + k > MAX_DEPTH - 1
  }

  /** Exactly when the cap on creates fails below a folder that may have children: its stored depth is below its true
      depth. */
  lemma CreateCapFailsIff(t: Table, p: Id, first: Id)
    requires Forest(t) && p in t && t[p].depth < MAX_DEPTH - 1 && NestFits(t, p, first, MAX_DEPTH - 1 - t[p].depth)
    ensures NestsTooDeep(t, p, first) <==> Drift(t, p) < 0
  {
    forall k: nat | k > 0 && NestFits(t, p, first, k)
      ensures Admitted(t, p, first, k) <==> t[p].depth + k <= MAX_DEPTH - 1
    {
      AdmittedIff(t, p, first, k);
    }
    if Drift(t, p) < 0 {
      var k: nat := MAX_DEPTH - 1 - t[p].depth;
      assert k > 0 && NestFits(t, p, first, k) && Admitted(t, p, first, k);
    }
  }

  lemma NextOfNest(t: Table, p: Id, first: Id, k: nat, u: Table)
    requires k > 0 && NestFits(t, p, first, k) && Admitted(t, p, first, k) && u == Nest(t, p, first, k - 1)
    ensures first + k - 1 !in u && Above(p, first, k) in u
    ensures CreateVerdict(u, true, Some(Above(p, first, k)), NEW) == Accepted
    ensures Nest(t, p, first, k) == Created(u, first + k - 1, Some(Above(p, first, k)), NEW)
  {
    NestIs(t, p, first, k - 1);
  }

  lemma FewerFit(t: Table, p: Id, first: Id, k: nat)
    requires k > 0 && NestFits(t, p, first, k) && Admitted(t, p, first, k)
    ensures NestFits(t, p, first, k - 1) && Admitted(t, p, first, k - 1)
  {
  }

  /** The nest as a run of steps, from a world whose table is `t`. */
  lemma {:induction false} ThenNest(w0: World, t: Table, del: map<TaskId, seq<Id>>, p: Id, first: Id, k: nat)
    requires Leads(w0, World(t, del, map[], None), AnyStep)
    requires NestFits(t, p, first, k) && Admitted(t, p, first, k)
    ensures Leads(w0, World(Nest(t, p, first, k), del, map[], None), AnyStep)
    decreases k
  {
    if k > 0 {
      FewerFit(t, p, first, k);
      ThenNest(w0, t, del, p, first, k - 1);
      LastOfNest(w0, t, del, p, first, k, Nest(t, p, first, k - 1));
    }
  }

  lemma LastOfNest(w0: World, t: Table, del: map<TaskId, seq<Id>>, p: Id, first: Id, k: nat, u: Table)
    requires k > 0 && NestFits(t, p, first, k) && Admitted(t, p, first, k) && u == Nest(t, p, first, k - 1)
    requires Leads(w0, World(u, del, map[], None), AnyStep)
    ensures Leads(w0, World(Nest(t, p, first, k), del, map[], None), AnyStep)
  {
    NextOfNest(t, p, first, k, u);
    ThenCreate(w0, u, del, first + k - 1, Above(p, first, k));
  }

  lemma ThenCreate(w0: World, u: Table, del: map<TaskId, seq<Id>>, id: Id, parent: Id)
    requires Leads(w0, World(u, del, map[], None), AnyStep)
    requires id !in u && parent in u && CreateVerdict(u, true, Some(parent), NEW) == Accepted
    ensures Leads(w0, World(Created(u, id, Some(parent), NEW), del, map[], None), AnyStep)
  {
    var w, v := World(u, del, map[], None), World(Created(u, id, Some(parent), NEW), del, map[], None);
    Then(w0, w, Create(id, Some(parent), NEW), v);
  }

  /** Folder 5 at the top, with the depth and version its move and its cascade leave. */
  function Top5(depth: int, version: int): Folder { Folder(None, [5], depth, false, Name(5), version, NotScheduled) }

  function TowerWorld(f: Folder, mv: Option<Moving>): World { World(Tower()[5 := f], map[], map[], mv) }

  lemma FiveToTopAccepted()
    ensures MoveVerdict(Tower(), {}, 5, None, 1, SubtreeHeight(Tower(), 5)) == Accepted
    ensures Moved(Tower(), 5, None) == Tower()[5 := Top5(0, 2)]
  {
    assert forall x :: x in Tower() ==> Tower()[x].depth <= 5 && |Tower()[x].name| == x;
    assert SubtreeHeight(Tower(), 5) <= 5;
    assert !NameTaken(Tower(), None, Name(5), Some(5));
  }

  lemma FiveShifts(t: Table)
    requires t == Tower()[5 := Top5(0, 2)]
    ensures Shift(t, {5}, Upto(5), [5], -5) == Tower()[5 := Top5(-5, 3)] && DepthsFit(t, {5}, -5)
    ensures Fetched(t, {5}, false, [])
  {
    assert |Upto(5)| == 6;
    assert Children(t, {5}, false) == {};
    FetchNone(t, {5}, false);
  }

  lemma FiveStarts(w: World, v: World)
    requires w == World(Tower(), map[], map[], None)
    requires v == TowerWorld(Top5(0, 2), Some(Moving(5, Upto(5), [5], -5, [5], {})))
    ensures Leads(w, v, AnyStep)
  {
    Start(w);
    FiveToTopAccepted();
    ThenMove(w, w, 5, None, v.t, v.mv.value, v);
  }

  lemma FiveBatch(w0: World, w: World, v: World)
    requires Leads(w0, w, AnyStep) && w == TowerWorld(Top5(0, 2), Some(Moving(5, Upto(5), [5], -5, [5], {})))
    requires v == TowerWorld(Top5(-5, 3), Some(Moving(5, Upto(5), [5], -5, [], {5})))
    ensures Leads(w0, v, AnyStep)
  {
    BatchOfOne(5, []);
    FiveShifts(w.t);
    Then(w0, w, MoveBatch([]), v);
  }

  lemma FiveMoved(w: World)
    requires w == World(Tower(), map[], map[], None)
    ensures Leads(w, TowerWorld(Top5(-5, 4), None), AnyStep)
  {
    var w2 := TowerWorld(Top5(0, 2), Some(Moving(5, Upto(5), [5], -5, [5], {})));
    var w3 := TowerWorld(Top5(-5, 3), Some(Moving(5, Upto(5), [5], -5, [], {5})));
    FiveStarts(w, w2);
    FiveBatch(w, w2, w3);
    assert BumpIf(true, w3.t, 5) == Tower()[5 := Top5(-5, 4)];
    ThenMoveDone(w, w3, TowerWorld(Top5(-5, 4), None));
  }

  lemma DriftedPaths(t: Table)
    requires t == Tower()[5 := Top5(-5, 4)]
    ensures PathsAgree(t) && Forest(t) && Drift(t, 5) == -5
  {
    TowerIsFine();
    forall x | x in t ensures PathLink(t, x) { assert PathLink(Tower(), x); }
    AgreeIsForest(t);
    TrueDepthIs(t, 5, 0);
  }

  lemma DriftedRows(t: Table)
    requires t == Tower()[5 := Top5(-5, 4)]
    ensures FreshFrom(t, 7) && forall x :: x in t ==> t[x].parent != Some(5)
    ensures Active(t, 5) && t[5].path == [5]
  {
  }

  lemma DriftedCount(t: Table)
    requires t == Tower()[5 := Top5(-5, 4)]
    ensures ActiveIds(t) == Range(0, 7)
  {
    assert forall x: Id :: x in t <==> x <= 6;
  }

  lemma DriftedNest(t: Table, k: nat)
    requires t == Tower()[5 := Top5(-5, 4)] && k == 14
    ensures NestFits(t, 5, 7, k) && Admitted(t, 5, 7, k)
  {
    DriftedRows(t);
    DriftedCount(t);
    AdmittedIff(t, 5, 7, k);
  }

  /** A folder with the stored depth 9 and the true depth 14. */
  ghost predicate TooDeep(t: Table, x: Id) {
    x in t && t[x].depth == MAX_DEPTH - 1 && Ends(t, x, 14)
  }

  lemma DriftedNestIsDeep(t: Table, k: nat)
    requires t == Tower()[5 := Top5(-5, 4)] && k == 14
    ensures TooDeep(Nest(t, 5, 7, k), 20)
  {
    DriftedPaths(t);
    DriftedNest(t, k);
    NestIs(t, 5, 7, k);
    NestDepth(t, 5, 7, k);
    assert Innermost(5, 7, k) == 20;
  }

  lemma DriftedNestRuns(k: nat)
    requires k == 14
    ensures Leads(World(Tower(), map[], map[], None),
                  World(Nest(Tower()[5 := Top5(-5, 4)], 5, 7, k), map[], map[], None), AnyStep)
  {
    var w0, t := World(Tower(), map[], map[], None), Tower()[5 := Top5(-5, 4)];
    FiveMoved(w0);
    DriftedNest(t, k);
    ThenNest(w0, t, map[], 5, 7, k);
  }

  /** A folder moved from depth 5 to the top stores the depth -5; fourteen accepted creates, each inside the last, then
      reach the stored depth 9 at the true depth 14. */
  lemma DepthCapFails()
    ensures WellFormed(Tower()) && DeletedClosed(Tower())
    ensures exists t :: Leads(World(Tower(), map[], map[], None), World(t, map[], map[], None), AnyStep) && TooDeep(t, 20)
  {
    TowerIsFine();
    var k: nat :| k == 14;
    var t := Nest(Tower()[5 := Top5(-5, 4)], 5, 7, k);
    DriftedNestRuns(k);
    DriftedNestIsDeep(Tower()[5 := Top5(-5, 4)], k);
    assert TooDeep(t, 20);
  }

  /** The rows of a nest: those there were, and new ones that hang from `p` or from each other, none from the innermost. */
  ghost predicate NestRows(t: Table, p: Id, first: Id, k: nat, u: Table)
    requires p in t
  {
    && (forall x :: x in u ==> (x in t && u[x] == t[x])
                               || (first <= x < first + k && u[x].parent.Some?
                                   && (u[x].parent.value == p || first <= u[x].parent.value < first + k - 1)))
    && Innermost(p, first, k) in u && t[p].path <= u[Innermost(p, first, k)].path
  }

  lemma {:induction false} NestHas(t: Table, p: Id, first: Id, k: nat)
    requires NestFits(t, p, first, k)
    ensures NestRows(t, p, first, k, Nest(t, p, first, k))
  {
    if k > 0 {
      NestHas(t, p, first, k - 1);
      NestIs(t, p, first, k - 1);
      var u := Nest(t, p, first, k - 1);
      assert Above(p, first, k) == Innermost(p, first, k - 1);
      assert t[p].path <= u[Above(p, first, k)].path + [first + k - 1];
    }
  }

  lemma NoChildrenNoHeight(t: Table, f: Id)
    requires f in t && forall x :: x in t ==> t[x].parent != Some(f)
    ensures SubtreeHeight(t, f) == 0
  {
    forall x | x in Subtree(t, f) ensures x == f {
      var n: nat :| Hops(t, x, f, n);
      if n > 0 { var y := LastHop(t, x, f, n); }
    }
    HeightFallsShort(t, f);
  }

  /** A lone folder at the top may be moved below a childless folder that stores 9. */
  ghost predicate LoneAndDeep(u: Table, f: Id, q: Id) {
    && Active(u, f) && u[f].parent.None? && u[f].path == [f] && Active(u, q) && u[q].path != [] && u[q].path[0] != f
    && u[q].depth == MAX_DEPTH - 1 && forall x :: x in u ==> u[x].parent != Some(f) && u[x].parent != Some(q)
  }

  lemma LoneIsAccepted(u: Table, f: Id, q: Id)
    requires LoneAndDeep(u, f, q) && f != q
    ensures MoveVerdict(u, {}, f, Some(q), u[f].version, SubtreeHeight(u, f)) == Accepted
  {
    NoChildrenNoHeight(u, f);
    assert !NameTaken(u, Some(q), u[f].name, Some(f));
  }

  lemma NestIsLone(t: Table, p: Id, first: Id, k: nat, u: Table, f: Id)
    requires k > 0 && NestFits(t, p, first, k) && u == Nest(t, p, first, k) && t[p].path == [p]
    requires Active(t, f) && t[f].parent.None? && t[f].path == [f] && f != p
    requires t[p].depth + k == MAX_DEPTH - 1 && forall x :: x in t ==> t[x].parent != Some(f)
    ensures LoneAndDeep(u, f, Innermost(p, first, k)) && f != Innermost(p, first, k)
  {
    var q := Innermost(p, first, k);
    NestHas(t, p, first, k);
    NestIs(t, p, first, k);
    assert f in u && u[q].path[0] == t[p].path[0];
  }

  lemma SixIsLone(t: Table)
    requires t == Tower()[5 := Top5(-5, 4)]
    ensures Active(t, 6) && t[6].parent.None? && t[6].path == [6] && Active(t, 5) && t[5].path == [5] && t[5].depth == -5
    ensures forall x :: x in t ==> t[x].parent != Some(6)
  {
  }

  /** The nest below folder 5, with folder 6 beside it. */
  lemma DeepNest(t: Table, k: nat, u: Table)
    requires t == Tower()[5 := Top5(-5, 4)] && k == 14 && u == Nest(t, 5, 7, k)
    ensures LoneAndDeep(u, 6, 20) && Ends(u, 20, 14)
  {
    DriftedNest(t, k);
    DriftedNestIsDeep(t, k);
    SixIsLone(t);
    NestIsLone(t, 5, 7, k, u, 6);
  }

  /** The lone folder 6 moved below the folder that stores 9 and stands at 14 is accepted and stands at 15: the depth check
      of moves fails over runs as the cap on creates does. */
  lemma MoveCapFails()
    ensures WellFormed(Tower()) && DeletedClosed(Tower())
    ensures exists e :: Leads(World(Tower(), map[], map[], None), e, AnyStep) && e.mv.Some? && Ends(e.t, 6, 15)
  {
    TowerIsFine();
    var k: nat :| k == 14;
    var t := Tower()[5 := Top5(-5, 4)];
    DriftedNestRuns(k);
    DeepNest(t, k, Nest(t, 5, 7, k));
    LoneMoved(World(Tower(), map[], map[], None), Nest(t, 5, 7, k), 6, 20, k);
  }

  lemma LoneMoved(w0: World, u: Table, f: Id, q: Id, n: nat)
    requires Leads(w0, World(u, map[], map[], None), AnyStep) && LoneAndDeep(u, f, q) && q != f && Ends(u, q, n)
    ensures exists e :: Leads(w0, e, AnyStep) && e.mv.Some? && Ends(e.t, f, n + 1)
  {
    LoneIsAccepted(u, f, q);
    var v := Moved(u, f, Some(q));
    var m := Moving(f, u[f].path, NewPath(u, f, Some(q)), NewDepth(u, Some(q)) - u[f].depth, [f], {});
    ThenMove(w0, World(u, map[], map[], None), f, Some(q), v, m, World(v, map[], map[], Some(m)));
    forall i: nat | Hops(u, q, f, i) ensures false {
      var y := LastHop(u, q, f, i);
    }
    EndsAvoiding(u, v, f, Some(q), q, n);
    assert Ends(v, f, n + 1);
  }
}
